/** Red-black trees as values: the tree, the one-hole context that a bottom-up
    loop walks through, and the two colour fix-ups written on them.
    The node type is a parameter, so nothing here depends on the heap. */
module RbSpec {

  datatype Color = Red | Black

  datatype Side = Left | Right

  function Opp(s: Side): Side {
    if s == Left then Right else Left
  }

  datatype Tree<N> = Leaf | Bin(color: Color, left: Tree<N>, node: N, right: Tree<N>)

  /** A tree with a hole. `side` says on which side of `node` the hole is and
      `sib` is the subtree on the other side; `up` is the context above `node`. */
  datatype Ctx<N> = Top | Hole(up: Ctx<N>, side: Side, color: Color, node: N, sib: Tree<N>)

  /** The tree rooted at `x` with `t` on side `s` and `sib` on the other side. */
  function Join<N>(s: Side, c: Color, t: Tree<N>, x: N, sib: Tree<N>): Tree<N> {
    if s == Left then Bin(c, t, x, sib) else Bin(c, sib, x, t)
  }

  function Child<N>(t: Tree<N>, s: Side): Tree<N>
    requires t.Bin?
  {
    if s == Left then t.left else t.right
  }

  function Plug<N>(k: Ctx<N>, t: Tree<N>): Tree<N> {
    match k
    case Top => t
    case Hole(up, s, c, x, sib) => Plug(up, Join(s, c, t, x, sib))
  }

  /** The context reached by going down `inner` from the hole of `outer`. */
  function Append<N>(inner: Ctx<N>, outer: Ctx<N>): Ctx<N> {
    match inner
    case Top => outer
    case Hole(up, s, c, x, sib) => Hole(Append(up, outer), s, c, x, sib)
  }

  lemma {:induction false} PlugAppend<N>(inner: Ctx<N>, outer: Ctx<N>, t: Tree<N>)
    ensures Plug(Append(inner, outer), t) == Plug(outer, Plug(inner, t))
  {
    match inner
    case Top =>
    case Hole(up, s, c, x, sib) => PlugAppend(up, outer, Join(s, c, t, x, sib));
  }

  // ----- in-order sequence -----

  function Inorder<N>(t: Tree<N>): seq<N> {
    match t
    case Leaf => []
    case Bin(_, l, x, r) => Inorder(l) + [x] + Inorder(r)
  }

  function Before<N>(k: Ctx<N>): seq<N> {
    match k
    case Top => []
    case Hole(up, s, _, x, sib) => if s == Left then Before(up) else Before(up) + Inorder(sib) + [x]
  }

  function After<N>(k: Ctx<N>): seq<N> {
    match k
    case Top => []
    case Hole(up, s, _, x, sib) => if s == Left then [x] + Inorder(sib) + After(up) else After(up)
  }

  lemma {:induction false} InorderPlug<N>(k: Ctx<N>, t: Tree<N>)
    ensures Inorder(Plug(k, t)) == Before(k) + Inorder(t) + After(k)
  {
    match k
    case Top =>
    case Hole(up, s, c, x, sib) =>
      InorderPlug(up, Join(s, c, t, x, sib));
      if s == Left {
        Reassociate(Before(up), Inorder(t), [x], Inorder(sib), After(up));
      } else {
        Reassociate(Before(up), Inorder(sib), [x], Inorder(t), After(up));
      }
  }

  lemma {:induction false} Reassociate<T>(a: seq<T>, x: seq<T>, b: seq<T>, y: seq<T>, c: seq<T>)
    ensures a + x + (b + y + c) == (a + x + b) + y + c == a + (x + b + y) + c
  {
  }

  /** Every position of the in-order sequence is the root of some subtree. */
  lemma {:induction false} Locate<N>(t: Tree<N>, i: nat) returns (k: Ctx<N>, s: Tree<N>)
    requires i < |Inorder(t)|
    ensures t == Plug(k, s) && s.Bin? && s.node == Inorder(t)[i]
    ensures |Before(k)| + |Inorder(s.left)| == i
  {
    var j := |Inorder(t.left)|;
    if i == j {
      k, s := Top, t;
    } else if i < j {
      var k0;
      k0, s := Locate(t.left, i);
      k := Append(k0, Hole(Top, Left, t.color, t.node, t.right));
      PlugAppend(k0, Hole(Top, Left, t.color, t.node, t.right), s);
      BeforeAppend(k0, Hole(Top, Left, t.color, t.node, t.right));
    } else {
      var k0;
      k0, s := Locate(t.right, i - j - 1);
      k := Append(k0, Hole(Top, Right, t.color, t.node, t.left));
      PlugAppend(k0, Hole(Top, Right, t.color, t.node, t.left), s);
      BeforeAppend(k0, Hole(Top, Right, t.color, t.node, t.left));
    }
  }

  lemma {:induction false} BeforeAppend<N>(inner: Ctx<N>, outer: Ctx<N>)
    ensures Before(Append(inner, outer)) == Before(outer) + Before(inner)
    ensures After(Append(inner, outer)) == After(inner) + After(outer)
  {
    match inner
    case Top =>
    case Hole(up, s, c, x, sib) =>
      BeforeAppend(up, outer);
      if s == Left {
        Associate([x] + Inorder(sib), After(up), After(outer));
      } else {
        Associate(Before(outer), Before(up), Inorder(sib));
        Associate(Before(outer), Before(up) + Inorder(sib), [x]);
      }
  }

  lemma {:induction false} Associate<T>(a: seq<T>, b: seq<T>, c: seq<T>)
    ensures a + (b + c) == (a + b) + c
  {
  }

  // ----- the red-black conditions -----

  predicate IsBlack<N>(t: Tree<N>) {
    t.Leaf? || t.color == Black
  }

  function Blacken<N>(t: Tree<N>): Tree<N> {
    if t.Leaf? then t else t.(color := Black)
  }

  function Redden<N>(t: Tree<N>): Tree<N> {
    if t.Leaf? then t else t.(color := Red)
  }

  function Weight(c: Color): nat {
    if c == Black then 1 else 0
  }

  /** Number of black nodes on the leftmost path; on every path when `Rb` holds. */
  function BlackHeight<N>(t: Tree<N>): nat {
    if t.Leaf? then 0 else BlackHeight(t.left) + Weight(t.color)
  }

  /** No red node has a red child and all paths carry equally many black nodes. */
  predicate Rb<N>(t: Tree<N>) {
    match t
    case Leaf => true
    case Bin(c, l, _, r) =>
      Rb(l) && Rb(r) && BlackHeight(l) == BlackHeight(r) && (c == Red ==> IsBlack(l) && IsBlack(r))
  }

  predicate RbValid<N>(t: Tree<N>) {
    Rb(t) && IsBlack(t)
  }

  predicate BlackTop<N>(k: Ctx<N>) {
    k.Hole? && k.color == Black
  }

  /** The context is well coloured for a hole of black height `h`. */
  predicate Fits<N>(k: Ctx<N>, h: nat) {
    match k
    case Top => true
    case Hole(up, _, c, _, sib) =>
      Rb(sib) && BlackHeight(sib) == h && (c == Red ==> IsBlack(sib) && BlackTop(up)) && Fits(up, h + Weight(c))
  }

  lemma {:induction false} PlugRb<N>(k: Ctx<N>, t: Tree<N>)
    ensures RbValid(Plug(k, t)) <==> Rb(t) && Fits(k, BlackHeight(t)) && (IsBlack(t) || BlackTop(k))
  {
    match k
    case Top =>
    case Hole(up, s, c, x, sib) => PlugRb(up, Join(s, c, t, x, sib));
  }

  // ----- rotations -----

  function RotateLeft<N>(t: Tree<N>): Tree<N>
    requires t.Bin? && t.right.Bin?
  {
    Bin(t.right.color, Bin(t.color, t.left, t.node, t.right.left), t.right.node, t.right.right)
  }

  function RotateRight<N>(t: Tree<N>): Tree<N>
    requires t.Bin? && t.left.Bin?
  {
    Bin(t.left.color, t.left.left, t.left.node, Bin(t.color, t.left.right, t.node, t.right))
  }

  lemma {:induction false} RotateInverse<N>(t: Tree<N>)
    requires t.Bin?
    ensures t.right.Bin? ==> RotateRight(RotateLeft(t)) == t
    ensures t.left.Bin? ==> RotateLeft(RotateRight(t)) == t
  {
  }

  lemma {:induction false} RotateInorder<N>(t: Tree<N>)
    requires t.Bin?
    ensures t.right.Bin? ==> Inorder(RotateLeft(t)) == Inorder(t)
    ensures t.left.Bin? ==> Inorder(RotateRight(t)) == Inorder(t)
  {
    if t.right.Bin? {
      Reassociate(Inorder(t.left), [t.node], Inorder(t.right.left), [t.right.node], Inorder(t.right.right));
    }
    if t.left.Bin? {
      Reassociate(Inorder(t.left.left), [t.left.node], Inorder(t.left.right), [t.node], Inorder(t.right));
    }
  }

  lemma {:induction false} JoinRb<N>(s: Side, c: Color, t: Tree<N>, x: N, sib: Tree<N>)
    requires Rb(t) && Rb(sib) && BlackHeight(t) == BlackHeight(sib)
    requires c == Red ==> IsBlack(t) && IsBlack(sib)
    ensures Rb(Join(s, c, t, x, sib)) && BlackHeight(Join(s, c, t, x, sib)) == BlackHeight(t) + Weight(c)
  {
  }

  // ----- insert fix-up -----

  datatype Focus<N> = Focus(ctx: Ctx<N>, sub: Tree<N>)

  /** The insert loop holds a red node whose only fault can be a red parent. */
  predicate InsertOk<N>(f: Focus<N>) {
    f.sub.Bin? && f.sub.color == Red && Rb(f.sub) && Fits(f.ctx, BlackHeight(f.sub))
  }

  predicate InsertBusy<N>(k: Ctx<N>) {
    k.Hole? && k.color == Red
  }

  /** One turn of the insert loop. */
  function InsertStep<N>(f: Focus<N>): Focus<N>
    requires InsertOk(f) && InsertBusy(f.ctx)
  {
    var Hole(Hole(up, gs, _, g, uncle), ps, _, p, sib) := f.ctx;
    var t := f.sub;
    if !IsBlack(uncle) then
      Focus(up, Join(gs, Red, Join(ps, Black, t, p, sib), g, Blacken(uncle)))
    else if ps == gs then
      Focus(Hole(up, gs, Black, p, Join(gs, Red, sib, g, uncle)), t)
    else
      Focus(Hole(up, gs, Black, t.node, Join(gs, Red, Child(t, Opp(gs)), g, uncle)),
            Join(gs, Red, sib, p, Child(t, gs)))
  }

  function Depth<N>(k: Ctx<N>): nat {
    if k.Top? then 0 else 1 + Depth(k.up)
  }

  lemma {:induction false} InsertStepOk<N>(f: Focus<N>)
    requires InsertOk(f) && InsertBusy(f.ctx)
    ensures InsertOk(InsertStep(f))
    ensures Depth(InsertStep(f).ctx) < Depth(f.ctx)
  {
    var Hole(Hole(up, gs, _, g, uncle), ps, _, p, sib) := f.ctx;
    var t := f.sub;
    assert Fits(f.ctx.up, BlackHeight(t)) && Rb(uncle) && BlackHeight(uncle) == BlackHeight(t);
    if !IsBlack(uncle) {
      JoinRb(ps, Black, t, p, sib);
      JoinRb(gs, Red, Join(ps, Black, t, p, sib), g, Blacken(uncle));
    } else if ps == gs {
      JoinRb(gs, Red, sib, g, uncle);
    } else {
      JoinRb(gs, Red, Child(t, Opp(gs)), g, uncle);
      JoinRb(gs, Red, sib, p, Child(t, gs));
    }
  }

  lemma {:induction false} InsertStepInorder<N>(f: Focus<N>)
    requires InsertOk(f) && InsertBusy(f.ctx)
    ensures Inorder(Plug(InsertStep(f).ctx, InsertStep(f).sub)) == Inorder(Plug(f.ctx, f.sub))
  {
    var Hole(Hole(up, gs, _, g, uncle), ps, _, p, sib) := f.ctx;
    var t, f1 := f.sub, InsertStep(f);
    var old1 := Join(gs, Black, Join(ps, Red, t, p, sib), g, uncle);
    var new1 := if !IsBlack(uncle) then f1.sub else Join(gs, Black, f1.sub, f1.ctx.node, f1.ctx.sib);
    InorderPlug(up, old1);
    InorderPlug(up, new1);
    if !IsBlack(uncle) {
      RecolorInorder(gs, ps, g, uncle, p, sib, t);
    } else if ps == gs {
      OuterInorder(gs, g, uncle, p, sib, t);
    } else {
      InnerInorder(gs, g, uncle, p, sib, t);
    }
  }

  lemma {:induction false} RecolorInorder<N>(gs: Side, ps: Side, g: N, uncle: Tree<N>, p: N, sib: Tree<N>, t: Tree<N>)
    ensures Inorder(Join(gs, Red, Join(ps, Black, t, p, sib), g, Blacken(uncle)))
         == Inorder(Join(gs, Black, Join(ps, Red, t, p, sib), g, uncle))
  {
    assert Inorder(Join(ps, Black, t, p, sib)) == Inorder(Join(ps, Red, t, p, sib));
    assert Inorder(Blacken(uncle)) == Inorder(uncle);
  }

  /** Outer case: the parent's subtree is lifted over the grandparent. */
  lemma {:induction false} OuterInorder<N>(s: Side, g: N, uncle: Tree<N>, p: N, sib: Tree<N>, t: Tree<N>)
    ensures Inorder(Join(s, Black, t, p, Join(s, Red, sib, g, uncle)))
         == Inorder(Join(s, Black, Join(s, Red, t, p, sib), g, uncle))
  {
    if s == Left {
      Reassociate(Inorder(t), [p], Inorder(sib), [g], Inorder(uncle));
    } else {
      Reassociate(Inorder(uncle), [g], Inorder(sib), [p], Inorder(t));
    }
  }

  /** Inner case: the new node is lifted over its parent and its grandparent. */
  lemma {:induction false} InnerInorder<N>(s: Side, g: N, uncle: Tree<N>, p: N, sib: Tree<N>, t: Tree<N>)
    requires t.Bin?
    ensures Inorder(Join(s, Black, Join(s, Red, sib, p, Child(t, s)), t.node, Join(s, Red, Child(t, Opp(s)), g, uncle)))
         == Inorder(Join(s, Black, Join(Opp(s), Red, t, p, sib), g, uncle))
  {
    var l, r := t.left, t.right;
    assert Inorder(t) == Inorder(l) + [t.node] + Inorder(r);
    if s == Left {
      Reassociate(Inorder(sib), [p], Inorder(l), [t.node], Inorder(r));
      Reassociate(Inorder(sib) + [p] + Inorder(l), [t.node], Inorder(r), [g], Inorder(uncle));
    } else {
      Reassociate(Inorder(l), [t.node], Inorder(r), [p], Inorder(sib));
      Reassociate(Inorder(uncle), [g], Inorder(l), [t.node], Inorder(r) + [p] + Inorder(sib));
    }
  }

  /** The tree that `rb_insert_color` leaves. */
  function InsertFix<N>(f: Focus<N>): Tree<N>
    requires InsertOk(f)
    decreases Depth(f.ctx)
  {
    if InsertBusy(f.ctx) then
      InsertStepOk(f);
      InsertFix(InsertStep(f))
    else
      Blacken(Plug(f.ctx, f.sub))
  }

  /** The rotations in a turn of the insert loop. */
  function InsertStepRotations<N>(f: Focus<N>): nat
    requires InsertOk(f) && InsertBusy(f.ctx)
  {
    if !IsBlack(f.ctx.up.sib) then 0 else if f.ctx.side == f.ctx.up.side then 1 else 2
  }

  /** The rotations in the whole loop. */
  function InsertRotations<N>(f: Focus<N>): nat
    requires InsertOk(f)
    decreases Depth(f.ctx)
  {
    if InsertBusy(f.ctx) then
      InsertStepOk(f);
      InsertStepRotations(f) + InsertRotations(InsertStep(f))
    else 0
  }

  /** However deep the new node is, at most two rotations repair the tree: a turn with a rotation is
      the last one. */
  lemma {:induction false} AtMostTwoRotations<N>(f: Focus<N>)
    requires InsertOk(f)
    ensures InsertRotations(f) <= 2
    decreases Depth(f.ctx)
  {
    if InsertBusy(f.ctx) {
      InsertStepOk(f);
      AtMostTwoRotations(InsertStep(f));
    }
  }

  /** The turns of the insert loop. */
  function InsertTurns<N>(f: Focus<N>): nat
    requires InsertOk(f)
    decreases Depth(f.ctx)
  {
    if InsertBusy(f.ctx) then
      InsertStepOk(f);
      1 + InsertTurns(InsertStep(f))
    else 0
  }

  /** Two levels up in each turn but the last. */
  lemma {:induction false} InsertTurnsBound<N>(f: Focus<N>)
    requires InsertOk(f)
    ensures 2 * InsertTurns(f) <= Depth(f.ctx) + 1
    decreases Depth(f.ctx)
  {
    if InsertBusy(f.ctx) {
      InsertStepOk(f);
      InsertTurnsBound(InsertStep(f));
    }
  }

  lemma {:induction false} InsertFixCorrect<N>(f: Focus<N>)
    requires InsertOk(f)
    ensures RbValid(InsertFix(f))
    ensures Inorder(InsertFix(f)) == Inorder(Plug(f.ctx, f.sub))
    decreases Depth(f.ctx)
  {
    if InsertBusy(f.ctx) {
      InsertStepOk(f);
      InsertStepInorder(f);
      InsertFixCorrect(InsertStep(f));
    } else {
      if f.ctx.Hole? {
        PlugRb(f.ctx, f.sub);
      }
    }
  }

  // ----- erase fix-up -----

  /** The erase loop holds a subtree that is one black node short; blackening its
      root would make it a red-black tree, and repairs it if the root is red. */
  predicate EraseOk<N>(f: Focus<N>) {
    Rb(Blacken(f.sub)) && Fits(f.ctx, BlackHeight(f.sub) + 1)
  }

  predicate EraseBusy<N>(f: Focus<N>) {
    IsBlack(f.sub) && f.ctx.Hole?
  }

  /** The sibling at a busy focus is a node: one black node short of it is possible. */
  lemma {:induction false} SiblingExists<N>(f: Focus<N>)
    requires EraseOk(f) && EraseBusy(f)
    ensures f.ctx.sib.Bin? && Rb(f.sub) && Rb(f.ctx.sib)
    ensures f.ctx.sib.color == Red ==> f.ctx.color == Black && f.ctx.sib.left.Bin? && f.ctx.sib.right.Bin?
  {
  }

  /** A red sibling is rotated over the parent first, so that the sibling is black. */
  function EraseLift<N>(f: Focus<N>): Focus<N>
    requires EraseOk(f) && EraseBusy(f)
  {
    var Hole(up, s, c, p, sib) := f.ctx;
    SiblingExists(f);
    if IsBlack(sib) then f
    else Focus(Hole(Hole(up, s, Black, sib.node, Child(sib, Opp(s))), s, Red, p, Child(sib, s)), f.sub)
  }

  lemma {:induction false} EraseLiftOk<N>(f: Focus<N>)
    requires EraseOk(f) && EraseBusy(f)
    ensures var g := EraseLift(f); EraseOk(g) && EraseBusy(g) && IsBlack(g.ctx.sib) && g.sub == f.sub
    ensures Depth(EraseLift(f).ctx) <= Depth(f.ctx) + 1
    ensures Depth(EraseLift(f).ctx) > Depth(f.ctx) ==> EraseLift(f).ctx.color == Red
    ensures Inorder(Plug(EraseLift(f).ctx, f.sub)) == Inorder(Plug(f.ctx, f.sub))
  {
    SiblingExists(f);
    var Hole(up, s, c, p, sib) := f.ctx;
    if !IsBlack(sib) {
      var g := EraseLift(f);
      InorderPlug(up, Join(s, Black, f.sub, p, sib));
      InorderPlug(up, Join(s, Black, Join(s, Red, f.sub, p, Child(sib, s)), sib.node, Child(sib, Opp(s))));
      OuterInorder(Opp(s), p, f.sub, sib.node, Child(sib, s), Child(sib, Opp(s)));
      assert Fits(up, BlackHeight(f.sub) + 2);
      assert Fits(g.ctx.up, BlackHeight(f.sub) + 1);
    }
  }

  datatype EraseResult<N> = Short(focus: Focus<N>) | Done(tree: Tree<N>)

  /** The rest of a turn of the erase loop, with a black sibling. */
  function EraseSettle<N>(f: Focus<N>): EraseResult<N>
    requires EraseOk(f) && EraseBusy(f) && IsBlack(f.ctx.sib)
  {
    var Hole(up, s, c, p, sib) := f.ctx;
    SiblingExists(f);
    var near, far := Child(sib, s), Child(sib, Opp(s));
    if IsBlack(near) && IsBlack(far) then
      Short(Focus(up, Join(s, c, f.sub, p, Redden(sib))))
    else
      Done(Plug(up, SettledSub(f)))
  }

  /** One turn of the erase loop. */
  function EraseStep<N>(f: Focus<N>): EraseResult<N>
    requires EraseOk(f) && EraseBusy(f)
  {
    EraseLiftOk(f);
    EraseSettle(EraseLift(f))
  }

  lemma {:induction false} EraseSettleOk<N>(f: Focus<N>)
    requires EraseOk(f) && EraseBusy(f) && IsBlack(f.ctx.sib)
    ensures match EraseSettle(f)
      case Short(g) => EraseOk(g) && g.sub.Bin? && g.ctx == f.ctx.up && (f.ctx.color == Red ==> !IsBlack(g.sub))
      case Done(t) => RbValid(t)
  {
    SiblingExists(f);
    var Hole(up, s, c, p, sib) := f.ctx;
    var near, far := Child(sib, s), Child(sib, Opp(s));
    if IsBlack(near) && IsBlack(far) {
      JoinRb(s, Black, f.sub, p, Redden(sib));
    } else {
      PlugRb(up, SettledSub(f));
      if IsBlack(far) {
        DoubleRb(s, c, f.sub, p, sib);
      } else {
        SingleRb(s, c, f.sub, p, sib);
      }
    }
  }

  /** The subtree that the final rotation puts in the parent's place. */
  function SettledSub<N>(f: Focus<N>): Tree<N>
    requires f.ctx.Hole? && f.ctx.sib.Bin?
    requires (IsBlack(Child(f.ctx.sib, Opp(f.ctx.side))) ==> Child(f.ctx.sib, f.ctx.side).Bin?)
  {
    var Hole(up, s, c, p, sib) := f.ctx;
    var near, far := Child(sib, s), Child(sib, Opp(s));
    if IsBlack(far) then
      Join(s, c, Join(s, Black, f.sub, p, Child(near, s)), near.node,
           Join(s, Black, Child(near, Opp(s)), sib.node, far))
    else
      Join(s, c, Join(s, Black, f.sub, p, near), sib.node, Blacken(far))
  }

  lemma {:induction false} SingleRb<N>(s: Side, c: Color, t: Tree<N>, p: N, sib: Tree<N>)
    requires sib.Bin? && sib.color == Black && Rb(t) && Rb(sib) && BlackHeight(sib) == BlackHeight(t) + 1
    requires !IsBlack(Child(sib, Opp(s)))
    ensures var r := SettledSub(Focus(Hole(Top, s, c, p, sib), t));
      Rb(r) && BlackHeight(r) == BlackHeight(t) + 1 + Weight(c) && r.color == c
  {
    var near, far := Child(sib, s), Child(sib, Opp(s));
    assert Rb(near) && Rb(far) && BlackHeight(near) == BlackHeight(far) == BlackHeight(t);
    JoinRb(s, Black, t, p, near);
    JoinRb(s, c, Join(s, Black, t, p, near), sib.node, Blacken(far));
  }

  lemma {:induction false} DoubleRb<N>(s: Side, c: Color, t: Tree<N>, p: N, sib: Tree<N>)
    requires sib.Bin? && sib.color == Black && Rb(t) && Rb(sib) && BlackHeight(sib) == BlackHeight(t) + 1
    requires !IsBlack(Child(sib, s)) && IsBlack(Child(sib, Opp(s)))
    ensures var r := SettledSub(Focus(Hole(Top, s, c, p, sib), t));
      Rb(r) && BlackHeight(r) == BlackHeight(t) + 1 + Weight(c) && r.color == c
  {
    var near, far := Child(sib, s), Child(sib, Opp(s));
    assert Rb(near) && Rb(far) && BlackHeight(near) == BlackHeight(far) == BlackHeight(t);
    JoinRb(s, Black, t, p, Child(near, s));
    JoinRb(s, Black, Child(near, Opp(s)), sib.node, far);
    JoinRb(s, c, Join(s, Black, t, p, Child(near, s)), near.node, Join(s, Black, Child(near, Opp(s)), sib.node, far));
  }

  function ResultTree<N>(r: EraseResult<N>): Tree<N> {
    match r
    case Short(f) => Plug(f.ctx, f.sub)
    case Done(t) => t
  }

  lemma {:induction false} EraseSettleInorder<N>(f: Focus<N>)
    requires EraseOk(f) && EraseBusy(f) && IsBlack(f.ctx.sib)
    ensures Inorder(ResultTree(EraseSettle(f))) == Inorder(Plug(f.ctx, f.sub))
  {
    SiblingExists(f);
    var Hole(up, s, c, p, sib) := f.ctx;
    var near, far := Child(sib, s), Child(sib, Opp(s));
    var t := f.sub;
    InorderPlug(up, Join(s, c, t, p, sib));
    if IsBlack(near) && IsBlack(far) {
      InorderPlug(up, Join(s, c, t, p, Redden(sib)));
      assert Inorder(Redden(sib)) == Inorder(sib);
    } else if IsBlack(far) {
      InorderPlug(up, SettledSub(f));
      DoubleInorder(s, c, t, p, sib);
    } else {
      InorderPlug(up, SettledSub(f));
      SingleInorder(s, c, t, p, sib);
    }
  }

  lemma {:induction false} SingleInorder<N>(s: Side, c: Color, t: Tree<N>, p: N, sib: Tree<N>)
    requires sib.Bin?
    ensures Inorder(Join(s, c, Join(s, Black, t, p, Child(sib, s)), sib.node, Blacken(Child(sib, Opp(s)))))
         == Inorder(Join(s, c, t, p, sib))
  {
    var near, far := Child(sib, s), Child(sib, Opp(s));
    assert Inorder(Blacken(far)) == Inorder(far);
    assert Inorder(sib) == Inorder(sib.left) + [sib.node] + Inorder(sib.right);
    if s == Left {
      Reassociate(Inorder(t), [p], Inorder(near), [sib.node], Inorder(far));
    } else {
      Reassociate(Inorder(far), [sib.node], Inorder(near), [p], Inorder(t));
    }
  }

  lemma {:induction false} DoubleInorder<N>(s: Side, c: Color, t: Tree<N>, p: N, sib: Tree<N>)
    requires sib.Bin? && Child(sib, s).Bin?
    ensures var near, far := Child(sib, s), Child(sib, Opp(s));
      Inorder(Join(s, c, Join(s, Black, t, p, Child(near, s)), near.node,
                   Join(s, Black, Child(near, Opp(s)), sib.node, far)))
        == Inorder(Join(s, c, t, p, sib))
  {
    var near, far := Child(sib, s), Child(sib, Opp(s));
    var inner := Join(s, Black, t, p, Child(near, s));
    var outer := Join(s, Black, Child(near, Opp(s)), sib.node, far);
    assert Inorder(near) == Inorder(near.left) + [near.node] + Inorder(near.right);
    assert Inorder(sib) == Inorder(sib.left) + [sib.node] + Inorder(sib.right);
    if s == Left {
      Reassociate(Inorder(t), [p], Inorder(near), [sib.node], Inorder(far));
      Reassociate(Inorder(t), [p], Inorder(near.left), [near.node], Inorder(near.right));
      Reassociate(Inorder(inner), [near.node], Inorder(near.right), [sib.node], Inorder(far));
    } else {
      Reassociate(Inorder(far), [sib.node], Inorder(near), [p], Inorder(t));
      Reassociate(Inorder(near.left), [near.node], Inorder(near.right), [p], Inorder(t));
      Reassociate(Inorder(far), [sib.node], Inorder(near.left), [near.node], Inorder(inner));
    }
  }

  /** What one turn of the erase loop keeps, and the lexicographic measure it
      decreases: either the hole rises, or it stays level and turns red. */
  lemma {:induction false} EraseStepOk<N>(f: Focus<N>)
    requires EraseOk(f) && EraseBusy(f)
    ensures match EraseStep(f)
      case Short(g) => EraseOk(g) && g.sub.Bin? &&
        (Depth(g.ctx) < Depth(f.ctx) || (Depth(g.ctx) == Depth(f.ctx) && !IsBlack(g.sub)))
      case Done(t) => RbValid(t)
    ensures Inorder(ResultTree(EraseStep(f))) == Inorder(Plug(f.ctx, f.sub))
  {
    EraseLiftOk(f);
    EraseSettleOk(EraseLift(f));
    EraseSettleInorder(EraseLift(f));
  }

  /** The tree that `__rb_erase_color` leaves. */
  function EraseFix<N>(f: Focus<N>): Tree<N>
    requires EraseOk(f)
    decreases Depth(f.ctx), IsBlack(f.sub)
  {
    if EraseBusy(f) then
      EraseStepOk(f);
      match EraseStep(f)
      case Short(g) => EraseFix(g)
      case Done(t) => Blacken(t)
    else
      Plug(f.ctx, Blacken(f.sub))
  }

  lemma {:induction false} EraseFixCorrect<N>(f: Focus<N>)
    requires EraseOk(f)
    ensures RbValid(EraseFix(f))
    ensures Inorder(EraseFix(f)) == Inorder(Plug(f.ctx, f.sub))
    decreases Depth(f.ctx), IsBlack(f.sub)
  {
    if EraseBusy(f) {
      EraseStepOk(f);
      match EraseStep(f)
      case Short(g) => EraseFixCorrect(g);
      case Done(t) =>
    } else {
      PlugRb(f.ctx, Blacken(f.sub));
      InorderPlug(f.ctx, f.sub);
      InorderPlug(f.ctx, Blacken(f.sub));
    }
  }

  /** The rotations in the rest of a turn of the erase loop. */
  function SettleRotations<N>(f: Focus<N>): nat
    requires EraseOk(f) && EraseBusy(f) && IsBlack(f.ctx.sib)
  {
    SiblingExists(f);
    var near, far := Child(f.ctx.sib, f.ctx.side), Child(f.ctx.sib, Opp(f.ctx.side));
    if !IsBlack(far) then 1 else if !IsBlack(near) then 2 else 0
  }

  function EraseStepRotations<N>(f: Focus<N>): nat
    requires EraseOk(f) && EraseBusy(f)
  {
    EraseLiftOk(f);
    (if IsBlack(f.ctx.sib) then 0 else 1) + SettleRotations(EraseLift(f))
  }

  /** The rotations in the whole erase loop. */
  function EraseRotations<N>(f: Focus<N>): nat
    requires EraseOk(f)
    decreases Depth(f.ctx), IsBlack(f.sub)
  {
    if EraseBusy(f) then
      EraseStepOk(f);
      EraseStepRotations(f) + match EraseStep(f) case Short(g) => EraseRotations(g) case Done(_) => 0
    else 0
  }

  /** The hole stays level after a turn only below the rotated sibling, and is red then. */
  lemma {:induction false} EraseStepUp<N>(f: Focus<N>)
    requires EraseOk(f) && EraseBusy(f) && EraseStep(f).Short?
    ensures var g := EraseStep(f).focus;
      if IsBlack(f.ctx.sib) then g.ctx == f.ctx.up && EraseStepRotations(f) == 0
      else Depth(g.ctx) == Depth(f.ctx) && !IsBlack(g.sub) && EraseStepRotations(f) == 1
  {
    EraseLiftOk(f);
    EraseSettleOk(EraseLift(f));
  }

  /** However deep the hole is, at most three rotations repair the tree: after the rotation of a red
      sibling the loop ends in the same turn, or finds a red node. */
  lemma {:induction false} AtMostThreeRotations<N>(f: Focus<N>)
    requires EraseOk(f)
    ensures EraseRotations(f) <= 3
    decreases Depth(f.ctx), IsBlack(f.sub)
  {
    if EraseBusy(f) && EraseStep(f).Short? {
      EraseStepOk(f);
      EraseStepUp(f);
      AtMostThreeRotations(EraseStep(f).focus);
    }
  }

  /** The turns of the erase loop. */
  function EraseTurns<N>(f: Focus<N>): nat
    requires EraseOk(f)
    decreases Depth(f.ctx), IsBlack(f.sub)
  {
    if EraseBusy(f) then
      EraseStepOk(f);
      1 + match EraseStep(f) case Short(g) => EraseTurns(g) case Done(_) => 0
    else 0
  }

  lemma {:induction false} EraseTurnsBound<N>(f: Focus<N>)
    requires EraseOk(f)
    ensures EraseTurns(f) <= Depth(f.ctx)
    decreases Depth(f.ctx), IsBlack(f.sub)
  {
    if EraseBusy(f) && EraseStep(f).Short? {
      EraseStepOk(f);
      EraseStepUp(f);
      EraseTurnsBound(EraseStep(f).focus);
    }
  }

  // ----- the whole operations -----

  /** `rb_link_node` at the empty position `k`, then `rb_insert_color`. */
  function Insert<N>(k: Ctx<N>, x: N): Tree<N>
    requires RbValid(Plug(k, Leaf))
  {
    PlugRb(k, Leaf);
    InsertFix(Focus(k, Bin(Red, Leaf, x, Leaf)))
  }

  lemma {:induction false} InsertCorrect<N>(k: Ctx<N>, x: N)
    requires RbValid(Plug(k, Leaf))
    ensures RbValid(Insert(k, x))
    ensures Inorder(Insert(k, x)) == Before(k) + [x] + After(k)
    ensures Inorder(Plug(k, Leaf)) == Before(k) + After(k)
  {
    PlugRb(k, Leaf);
    InsertFixCorrect(Focus(k, Bin(Red, Leaf, x, Leaf)));
    InorderPlug(k, Leaf);
    InorderPlug(k, Bin(Red, Leaf, x, Leaf));
    assert Inorder(Bin(Red, Leaf, x, Leaf)) == [x];
    assert Before(k) + Inorder<N>(Leaf) == Before(k);
  }

  /** The leftmost node of `t`, seen from `outer` plus the way down. */
  function LeftSpine<N>(t: Tree<N>, outer: Ctx<N>): (f: Focus<N>)
    requires t.Bin?
    ensures f.sub.Bin? && f.sub.left.Leaf?
  {
    if t.left.Leaf? then Focus(outer, t) else LeftSpine(t.left, Hole(outer, Left, t.color, t.node, t.right))
  }

  lemma {:induction false} LeftSpineCorrect<N>(t: Tree<N>, outer: Ctx<N>)
    requires t.Bin?
    ensures var f := LeftSpine(t, outer);
      Plug(f.ctx, f.sub) == Plug(outer, t) && Before(f.ctx) == Before(outer)
  {
    if t.left.Bin? {
      LeftSpineCorrect(t.left, Hole(outer, Left, t.color, t.node, t.right));
    }
  }

  lemma {:induction false} LeftSpineAppend<N>(t: Tree<N>, inner: Ctx<N>, outer: Ctx<N>)
    requires t.Bin?
    ensures LeftSpine(t, Append(inner, outer)).sub == LeftSpine(t, inner).sub
    ensures LeftSpine(t, Append(inner, outer)).ctx == Append(LeftSpine(t, inner).ctx, outer)
  {
    if t.left.Bin? {
      LeftSpineAppend(t.left, Hole(inner, Left, t.color, t.node, t.right), outer);
    }
  }

  /** The tree after a node of colour `c` with only child `child` was cut out of `k`. */
  function CutFix<N>(k: Ctx<N>, c: Color, child: Tree<N>): Tree<N>
    requires c == Black ==> EraseOk(Focus(k, child))
  {
    if c == Black then EraseFix(Focus(k, child)) else Plug(k, child)
  }

  lemma {:induction false} CutOk<N>(k: Ctx<N>, t: Tree<N>, child: Tree<N>)
    requires t.Bin? && RbValid(Plug(k, t))
    requires (t.left.Leaf? && child == t.right) || (t.right.Leaf? && child == t.left)
    ensures t.color == Black ==> EraseOk(Focus(k, child))
    ensures RbValid(CutFix(k, t.color, child))
    ensures Inorder(CutFix(k, t.color, child)) == Before(k) + Inorder(child) + After(k)
  {
    PlugRb(k, t);
    InorderPlug(k, child);
    if t.color == Black {
      EraseFixCorrect(Focus(k, child));
    } else {
      PlugRb(k, child);
    }
  }

  /** The in-order successor, which takes the place of a node with two children. */
  function Successor<N>(t: Tree<N>): N
    requires t.Bin? && t.right.Bin?
  {
    LeftSpine(t.right, Top).sub.node
  }

  lemma {:induction false} SpliceOk<N>(k: Ctx<N>, t: Tree<N>, y: N)
    requires t.Bin? && t.right.Bin? && RbValid(Plug(k, t))
    ensures var f := LeftSpine(t.right, Hole(k, Right, t.color, y, t.left));
      RbValid(Plug(f.ctx, f.sub))
  {
    var t' := t.(node := y);
    PlugRb(k, t);
    PlugRb(k, t');
    LeftSpineCorrect(t.right, Hole(k, Right, t.color, y, t.left));
  }

  /** The tree that `rb_erase` leaves when it erases the root of `t` in `k`. */
  function Erase<N>(k: Ctx<N>, t: Tree<N>): Tree<N>
    requires t.Bin? && RbValid(Plug(k, t))
  {
    if t.left.Leaf? then
      CutOk(k, t, t.right);
      CutFix(k, t.color, t.right)
    else if t.right.Leaf? then
      CutOk(k, t, t.left);
      CutFix(k, t.color, t.left)
    else
      var f := LeftSpine(t.right, Hole(k, Right, t.color, Successor(t), t.left));
      SpliceOk(k, t, Successor(t));
      CutOk(f.ctx, f.sub, f.sub.right);
      CutFix(f.ctx, f.sub.color, f.sub.right)
  }

  lemma {:induction false} EraseCorrect<N>(k: Ctx<N>, t: Tree<N>)
    requires t.Bin? && RbValid(Plug(k, t))
    ensures RbValid(Erase(k, t))
    ensures Inorder(Erase(k, t)) == Before(k) + Inorder(t.left) + Inorder(t.right) + After(k)
    ensures Inorder(Plug(k, t)) == Before(k) + Inorder(t.left) + [t.node] + Inorder(t.right) + After(k)
  {
    InorderPlug(k, t);
    Reassociate(Before(k), Inorder(t.left), [t.node], Inorder(t.right), After(k));
    if t.left.Leaf? {
      CutOk(k, t, t.right);
      assert Before(k) + Inorder(t.left) == Before(k);
    } else if t.right.Leaf? {
      CutOk(k, t, t.left);
      assert Before(k) + Inorder(t.left) + Inorder(t.right) == Before(k) + Inorder(t.left);
    } else {
      EraseSplicedInorder(k, t);
    }
  }

  lemma {:induction false} EraseSplicedInorder<N>(k: Ctx<N>, t: Tree<N>)
    requires t.Bin? && t.left.Bin? && t.right.Bin? && RbValid(Plug(k, t))
    ensures RbValid(Erase(k, t))
    ensures Inorder(Erase(k, t)) == Before(k) + Inorder(t.left) + Inorder(t.right) + After(k)
  {
    var y := Successor(t);
    var outer := Hole(k, Right, t.color, y, t.left);
    var f := LeftSpine(t.right, outer);
    SpliceOk(k, t, y);
    CutOk(f.ctx, f.sub, f.sub.right);
    LeftSpineCorrect(t.right, outer);
    LeftSpineAppend(t.right, Top, outer);
    var pre, rest := Before(k) + Inorder(t.left), Inorder(f.sub.right) + After(f.ctx);
    assert Before(f.ctx) == pre + [y];
    InorderPlug(f.ctx, f.sub);
    InorderPlug(outer, t.right);
    assert Inorder(f.sub) == [y] + Inorder(f.sub.right);
    calc {
      pre + [y] + ([y] + rest);
      { Associate([y], Inorder(f.sub.right), After(f.ctx)); Associate(pre + [y], Inorder(f.sub), After(f.ctx)); }
      Before(f.ctx) + Inorder(f.sub) + After(f.ctx);
      { Associate(pre + [y], Inorder(t.right), After(k)); }
      pre + [y] + (Inorder(t.right) + After(k));
    }
    CancelLeft(pre + [y], [y] + rest, Inorder(t.right) + After(k));
    Associate(pre + [y], Inorder(f.sub.right), After(f.ctx));
    Associate(pre, [y], rest);
    Associate(pre, Inorder(t.right), After(k));
  }

  /** `EraseCorrect` by position: exactly the `i`th node is gone. */
  lemma {:induction false} EraseAt<N>(k: Ctx<N>, t: Tree<N>, i: nat)
    requires t.Bin? && RbValid(Plug(k, t)) && i == |Before(k)| + |Inorder(t.left)|
    ensures var s := Inorder(Plug(k, t));
      i < |s| && s[i] == t.node && RbValid(Erase(k, t)) && Inorder(Erase(k, t)) == s[..i] + s[i + 1..]
  {
    EraseCorrect(k, t);
    var s, a, b := Inorder(Plug(k, t)), Before(k) + Inorder(t.left), Inorder(t.right) + After(k);
    assert s == a + [t.node] + b;
    assert s[..i] == a && s[i + 1..] == b;
    Associate(a, Inorder(t.right), After(k));
  }

  lemma {:induction false} UpdateMiddle<T>(a: seq<T>, x: T, b: seq<T>, y: T)
    ensures var s := a + [x] + b; s[|a|] == x && s[|a| := y] == a + [y] + b
  {
  }

  /** The sequence of a tree in a context, round the root of the tree. */
  lemma {:induction false} InorderRound<N>(k: Ctx<N>, t: Tree<N>)
    requires t.Bin?
    ensures Inorder(Plug(k, t)) == (Before(k) + Inorder(t.left)) + [t.node] + (Inorder(t.right) + After(k))
  {
    InorderPlug(k, t);
    Reassociate(Before(k), Inorder(t.left), [t.node], Inorder(t.right), After(k));
  }

  /** Another node in the place of the root of `t` is the same replacement in the sequence. */
  lemma {:induction false} ReplaceAt<N>(k: Ctx<N>, t: Tree<N>, y: N, i: nat)
    requires t.Bin? && RbValid(Plug(k, t)) && i == |Before(k)| + |Inorder(t.left)|
    ensures var s, t' := Inorder(Plug(k, t)), Plug(k, t.(node := y));
      i < |s| && s[i] == t.node && RbValid(t') && Inorder(t') == s[i := y]
  {
    InorderRound(k, t);
    InorderRound(k, t.(node := y));
    PlugRb(k, t);
    PlugRb(k, t.(node := y));
    UpdateMiddle(Before(k) + Inorder(t.left), t.node, Inorder(t.right) + After(k), y);
  }

  lemma {:induction false} CancelLeft<T>(a: seq<T>, b: seq<T>, c: seq<T>)
    requires a + b == a + c
    ensures b == c
  {
    assert b == (a + b)[|a|..];
    assert c == (a + c)[|a|..];
  }

  // ----- height -----

  function Height<N>(t: Tree<N>): nat {
    if t.Leaf? then 0
    else 1 + if Height(t.left) < Height(t.right) then Height(t.right) else Height(t.left)
  }

  function Pow2(n: nat): nat {
    if n == 0 then 1 else 2 * Pow2(n - 1)
  }

  lemma {:induction false} Pow2Add(a: nat, b: nat)
    ensures Pow2(a + b) == Pow2(a) * Pow2(b)
  {
    if a > 0 {
      Pow2Add(a - 1, b);
    }
  }

  lemma {:induction false} Pow2Monotone(a: nat, b: nat)
    requires a <= b
    ensures Pow2(a) <= Pow2(b)
  {
    if a < b {
      Pow2Monotone(a, b - 1);
    }
  }

  lemma {:induction false} SquareMonotone(a: nat, b: nat)
    requires a <= b
    ensures a * a <= b * b
  {
    var d := b - a;
    assert b * b == a * a + 2 * a * d + d * d;
  }

  lemma {:induction false} HeightBound<N>(t: Tree<N>)
    requires Rb(t)
    ensures Height(t) <= 2 * BlackHeight(t) + (if IsBlack(t) then 0 else 1)
    ensures Pow2(BlackHeight(t)) <= |Inorder(t)| + 1
  {
    if t.Bin? {
      HeightBound(t.left);
      HeightBound(t.right);
    }
  }

  /** 2^height <= (n + 1)^2, that is, height <= 2 * log2(n + 1). */
  lemma {:induction false} HeightLogarithmic<N>(t: Tree<N>)
    requires RbValid(t)
    ensures Pow2(Height(t)) <= (|Inorder(t)| + 1) * (|Inorder(t)| + 1)
  {
    HeightBound(t);
    var h, n := BlackHeight(t), |Inorder(t)| + 1;
    Pow2Monotone(Height(t), h + h);
    Pow2Add(h, h);
    SquareMonotone(Pow2(h), n);
  }
}

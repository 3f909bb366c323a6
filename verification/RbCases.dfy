/** The cases of the two fix-up loops, each as the picture of the tree before and after, for a left
    child; mirroring gives those of a right child. */
module RbCases {
  import opened RbSpec

  // ----- mirroring -----

  function MirrorSide(s: Side): Side {
    match s case Left => Right case Right => Left
  }

  function Mirror<N>(t: Tree<N>): Tree<N> {
    match t
    case Leaf => Leaf
    case Bin(c, l, x, r) => Bin(c, Mirror(r), x, Mirror(l))
  }

  function MirrorCtx<N>(k: Ctx<N>): Ctx<N> {
    match k
    case Top => Top
    case Hole(up, s, c, x, sib) => Hole(MirrorCtx(up), MirrorSide(s), c, x, Mirror(sib))
  }

  function MirrorFocus<N>(f: Focus<N>): Focus<N> {
    Focus(MirrorCtx(f.ctx), Mirror(f.sub))
  }

  lemma {:induction false} MirrorRb<N>(t: Tree<N>)
    ensures (Rb(Mirror(t)) <==> Rb(t)) && IsBlack(Mirror(t)) == IsBlack(t)
    ensures Rb(t) ==> BlackHeight(Mirror(t)) == BlackHeight(t)
    ensures Mirror(Mirror(t)) == t
  {
    if t.Bin? {
      MirrorRb(t.left);
      MirrorRb(t.right);
      if Rb(Mirror(t)) {
        assert Rb(Mirror(t.left)) && Rb(Mirror(t.right));
      }
    }
  }

  lemma {:induction false} MirrorFits<N>(k: Ctx<N>, h: nat)
    ensures Fits(k, h) ==> Fits(MirrorCtx(k), h)
  {
    if k.Hole? && Fits(k, h) {
      MirrorRb(k.sib);
      MirrorFits(k.up, h + Weight(k.color));
    }
  }

  lemma {:induction false} MirrorPlug<N>(k: Ctx<N>, t: Tree<N>)
    ensures Mirror(Plug(k, t)) == Plug(MirrorCtx(k), Mirror(t))
  {
    if k.Hole? {
      MirrorPlug(k.up, Join(k.side, k.color, t, k.node, k.sib));
    }
  }

  lemma {:induction false} MirrorJoin<N>(s: Side, c: Color, t: Tree<N>, x: N, sib: Tree<N>)
    ensures Mirror(Join(s, c, t, x, sib)) == Join(MirrorSide(s), c, Mirror(t), x, Mirror(sib))
    ensures Opp(MirrorSide(s)) == MirrorSide(Opp(s))
    ensures t.Bin? ==> Child(Mirror(t), MirrorSide(s)) == Mirror(Child(t, s))
    ensures t.Bin? ==> Child(Mirror(t), MirrorSide(Opp(s))) == Mirror(Child(t, Opp(s)))
  {
    match s
    case Left =>
    case Right =>
  }

  lemma {:induction false} MirrorSides(a: Side, b: Side)
    ensures MirrorSide(a) == MirrorSide(b) <==> a == b
  {
  }

  lemma {:induction false} MirrorColors<N>(t: Tree<N>)
    ensures Mirror(Blacken(t)) == Blacken(Mirror(t)) && Mirror(Redden(t)) == Redden(Mirror(t))
  {
  }

  // ----- insert -----

  /** The loop treats right as it treats left. */
  lemma {:induction false} InsertStepMirror<N>(f: Focus<N>)
    requires InsertOk(f) && InsertBusy(f.ctx)
    ensures InsertOk(MirrorFocus(f)) && InsertBusy(MirrorFocus(f).ctx)
    ensures InsertStep(MirrorFocus(f)) == MirrorFocus(InsertStep(f))
  {
    MirrorRb(f.sub);
    MirrorFits(f.ctx, BlackHeight(f.sub));
    MirrorRb(f.ctx.up.sib);
    MirrorColors(f.ctx.up.sib);
    var Hole(Hole(up, gs, _, g, uncle), ps, _, p, sib) := f.ctx;
    var t := f.sub;
    MirrorJoin(gs, Red, t, p, t);
    MirrorJoin(gs, Red, sib, g, uncle);
    MirrorJoin(gs, Red, sib, p, Child(t, gs));
    MirrorJoin(gs, Red, Child(t, Opp(gs)), g, uncle);
    MirrorJoin(ps, Black, t, p, sib);
    MirrorJoin(gs, Red, Join(ps, Black, t, p, sib), g, Blacken(uncle));
    MirrorSides(ps, gs);
    var m := MirrorFocus(f);
    assert m.ctx == Hole(MirrorCtx(f.ctx.up), MirrorSide(ps), Red, p, Mirror(sib));
    assert m.ctx.up == Hole(MirrorCtx(up), MirrorSide(gs), Black, g, Mirror(uncle));
    var k := InsertStep(f).ctx;
    assert k.Hole? ==> MirrorCtx(k) == Hole(MirrorCtx(k.up), MirrorSide(k.side), k.color, k.node, Mirror(k.sib));
  }

  function Whole<N>(f: Focus<N>): Tree<N> {
    Plug(f.ctx, f.sub)
  }

  /** The uncle `u` is red: it and the parent become black, the grandparent red, and the loop goes on there. */
  lemma {:induction false} RedUncle<N>(up: Ctx<N>, t: Tree<N>, p: N, sib: Tree<N>, g: N, ul: Tree<N>, u: N, ur: Tree<N>)
    requires InsertOk(Focus(Hole(Hole(up, Left, Black, g, Bin(Red, ul, u, ur)), Left, Red, p, sib), t))
    ensures InsertStep(Focus(Hole(Hole(up, Left, Black, g, Bin(Red, ul, u, ur)), Left, Red, p, sib), t)) ==
      Focus(up, Bin(Red, Bin(Black, t, p, sib), g, Bin(Black, ul, u, ur)))
  {
  }

  lemma {:induction false} RedUncleInner<N>(up: Ctx<N>, t: Tree<N>, p: N, sib: Tree<N>, g: N, ul: Tree<N>, u: N,
                                            ur: Tree<N>)
    requires InsertOk(Focus(Hole(Hole(up, Left, Black, g, Bin(Red, ul, u, ur)), Right, Red, p, sib), t))
    ensures InsertStep(Focus(Hole(Hole(up, Left, Black, g, Bin(Red, ul, u, ur)), Right, Red, p, sib), t)) ==
      Focus(up, Bin(Red, Bin(Black, sib, p, t), g, Bin(Black, ul, u, ur)))
  {
  }

  /** The uncle is black and the new node outside: the parent goes over the grandparent. */
  lemma {:induction false} OuterGrandchild<N>(up: Ctx<N>, t: Tree<N>, p: N, sib: Tree<N>, g: N, uncle: Tree<N>)
    requires InsertOk(Focus(Hole(Hole(up, Left, Black, g, uncle), Left, Red, p, sib), t)) && IsBlack(uncle)
    ensures Whole(InsertStep(Focus(Hole(Hole(up, Left, Black, g, uncle), Left, Red, p, sib), t))) ==
      Plug(up, Bin(Black, t, p, Bin(Red, sib, g, uncle)))
  {
  }

  /** The uncle is black and the new node `x` inside: it goes over both. */
  lemma {:induction false} InnerGrandchild<N>(up: Ctx<N>, a: Tree<N>, x: N, b: Tree<N>, p: N, sib: Tree<N>, g: N,
                                              uncle: Tree<N>)
    requires InsertOk(Focus(Hole(Hole(up, Left, Black, g, uncle), Right, Red, p, sib), Bin(Red, a, x, b)))
    requires IsBlack(uncle)
    ensures Whole(InsertStep(Focus(Hole(Hole(up, Left, Black, g, uncle), Right, Red, p, sib), Bin(Red, a, x, b)))) ==
      Plug(up, Bin(Black, Bin(Red, sib, p, a), x, Bin(Red, b, g, uncle)))
  {
  }

  // ----- erase -----

  function MirrorResult<N>(r: EraseResult<N>): EraseResult<N> {
    match r
    case Short(f) => Short(MirrorFocus(f))
    case Done(t) => Done(Mirror(t))
  }

  lemma {:induction false} MirrorEraseOk<N>(f: Focus<N>)
    requires EraseOk(f)
    ensures EraseOk(MirrorFocus(f)) && (EraseBusy(f) ==> EraseBusy(MirrorFocus(f)))
  {
    MirrorRb(Blacken(f.sub));
    MirrorRb(f.sub);
    assert Mirror(Blacken(f.sub)) == Blacken(Mirror(f.sub));
    SameHeight(f.sub);
    MirrorFits(f.ctx, BlackHeight(f.sub) + 1);
  }

  lemma {:induction false} SameHeight<N>(t: Tree<N>)
    requires Rb(Blacken(t))
    ensures BlackHeight(Mirror(t)) == BlackHeight(t)
  {
    if t.Bin? {
      MirrorRb(t.left);
      MirrorRb(t.right);
    }
  }

  lemma {:induction false} EraseLiftMirror<N>(f: Focus<N>)
    requires EraseOk(f) && EraseBusy(f)
    ensures EraseOk(MirrorFocus(f)) && EraseBusy(MirrorFocus(f))
    ensures EraseLift(MirrorFocus(f)) == MirrorFocus(EraseLift(f))
  {
    MirrorEraseOk(f);
    MirrorRb(f.ctx.sib);
    SiblingExists(f);
    var Hole(up, s, c, p, sib) := f.ctx;
    MirrorJoin(s, Red, sib, p, f.sub);
    var g := MirrorFocus(f);
    assert g.ctx == Hole(MirrorCtx(up), MirrorSide(s), c, p, Mirror(sib)) && g.sub == Mirror(f.sub);
    if !IsBlack(sib) {
      var inner := Hole(Hole(up, s, Black, sib.node, Child(sib, Opp(s))), s, Red, p, Child(sib, s));
      assert EraseLift(f) == Focus(inner, f.sub);
      assert MirrorCtx(inner.up) == Hole(MirrorCtx(up), MirrorSide(s), Black, sib.node, Mirror(Child(sib, Opp(s))));
      assert MirrorCtx(inner) == Hole(MirrorCtx(inner.up), MirrorSide(s), Red, p, Mirror(Child(sib, s)));
    }
  }

  lemma {:induction false} EraseSettleMirror<N>(f: Focus<N>)
    requires EraseOk(f) && EraseBusy(f) && IsBlack(f.ctx.sib)
    ensures EraseOk(MirrorFocus(f)) && EraseBusy(MirrorFocus(f)) && IsBlack(MirrorFocus(f).ctx.sib)
    ensures EraseSettle(MirrorFocus(f)) == MirrorResult(EraseSettle(f))
  {
    MirrorEraseOk(f);
    MirrorRb(f.ctx.sib);
    SiblingExists(f);
    var Hole(up, s, c, p, sib) := f.ctx;
    MirrorJoin(s, c, sib, p, sib);
    MirrorJoin(s, c, f.sub, p, Redden(sib));
    MirrorColors(sib);
    MirrorRb(Child(sib, s));
    MirrorRb(Child(sib, Opp(s)));
    if EraseSettle(f).Done? {
      SettledSubMirror(f);
      MirrorPlug(up, SettledSub(f));
    }
  }

  lemma {:induction false} SettledSubMirror<N>(f: Focus<N>)
    requires f.ctx.Hole? && f.ctx.sib.Bin?
    requires IsBlack(Child(f.ctx.sib, Opp(f.ctx.side))) ==> Child(f.ctx.sib, f.ctx.side).Bin?
    requires var g := MirrorFocus(f);
      IsBlack(Child(g.ctx.sib, Opp(g.ctx.side))) ==> Child(g.ctx.sib, g.ctx.side).Bin?
    ensures SettledSub(MirrorFocus(f)) == Mirror(SettledSub(f))
  {
    var Hole(up, s, c, p, sib) := f.ctx;
    var near, far := Child(sib, s), Child(sib, Opp(s));
    MirrorJoin(s, c, sib, p, sib);
    MirrorJoin(s, Black, near, p, near);
    MirrorColors(far);
    MirrorRb(far);
    match s
    case Left =>
    case Right =>
  }

  /** The loop treats right as it treats left. */
  lemma {:induction false} EraseStepMirror<N>(f: Focus<N>)
    requires EraseOk(f) && EraseBusy(f)
    ensures EraseOk(MirrorFocus(f)) && EraseBusy(MirrorFocus(f))
    ensures EraseStep(MirrorFocus(f)) == MirrorResult(EraseStep(f))
  {
    EraseLiftOk(f);
    EraseLiftMirror(f);
    EraseSettleMirror(EraseLift(f));
  }

  /** The sibling `y` is red: it goes over the parent, and its near child is the new sibling. */
  lemma {:induction false} RedSibling<N>(up: Ctx<N>, t: Tree<N>, c: Color, p: N, near: Tree<N>, y: N, far: Tree<N>)
    requires var f := Focus(Hole(up, Left, c, p, Bin(Red, near, y, far)), t);
      EraseOk(f) && EraseBusy(f)
    ensures EraseLift(Focus(Hole(up, Left, c, p, Bin(Red, near, y, far)), t)) ==
      Focus(Hole(Hole(up, Left, Black, y, far), Left, Red, p, near), t)
  {
  }

  /** The sibling and both its children are black: it becomes red, and the loop goes on at the parent. */
  lemma {:induction false} BlackNephews<N>(up: Ctx<N>, t: Tree<N>, c: Color, p: N, near: Tree<N>, y: N, far: Tree<N>)
    requires var f := Focus(Hole(up, Left, c, p, Bin(Black, near, y, far)), t);
      EraseOk(f) && EraseBusy(f)
    requires IsBlack(near) && IsBlack(far)
    ensures EraseStep(Focus(Hole(up, Left, c, p, Bin(Black, near, y, far)), t)) ==
      Short(Focus(up, Bin(c, t, p, Bin(Red, near, y, far))))
  {
  }

  /** The far child `z` of the black sibling is red, whatever the near one is: the sibling takes the parent's
      place and colour. */
  lemma {:induction false} RedFarNephew<N>(up: Ctx<N>, t: Tree<N>, c: Color, p: N, near: Tree<N>, y: N, fl: Tree<N>,
                                           z: N, fr: Tree<N>)
    requires var f := Focus(Hole(up, Left, c, p, Bin(Black, near, y, Bin(Red, fl, z, fr))), t);
      EraseOk(f) && EraseBusy(f)
    ensures EraseStep(Focus(Hole(up, Left, c, p, Bin(Black, near, y, Bin(Red, fl, z, fr))), t)) ==
      Done(Plug(up, Bin(c, Bin(Black, t, p, near), y, Bin(Black, fl, z, fr))))
  {
  }

  /** Only the near child `n` is red: it takes the parent's place and colour. */
  lemma {:induction false} RedNearNephew<N>(up: Ctx<N>, t: Tree<N>, c: Color, p: N, nl: Tree<N>, n: N, nr: Tree<N>,
                                            y: N, far: Tree<N>)
    requires var f := Focus(Hole(up, Left, c, p, Bin(Black, Bin(Red, nl, n, nr), y, far)), t);
      EraseOk(f) && EraseBusy(f)
    requires IsBlack(far)
    ensures EraseStep(Focus(Hole(up, Left, c, p, Bin(Black, Bin(Red, nl, n, nr), y, far)), t)) ==
      Done(Plug(up, Bin(c, Bin(Black, t, p, nl), n, Bin(Black, nr, y, far))))
  {
  }

  // ----- the erased node -----

  /** With two children the node that takes its place is the next one in the sequence. */
  lemma {:induction false} SuccessorIsNext<N>(k: Ctx<N>, t: Tree<N>, i: nat)
    requires t.Bin? && t.left.Bin? && t.right.Bin? && i == |Before(k)| + |Inorder(t.left)|
    ensures var s := Inorder(Plug(k, t)); i + 1 < |s| && s[i] == t.node && s[i + 1] == Successor(t)
  {
    InorderRound(k, t);
    FirstOfSpine(t.right, Top);
    var b := Inorder(t.right) + After(k);
    assert Inorder(Plug(k, t))[i + 1] == b[0];
  }

  lemma {:induction false} FirstOfSpine<N>(t: Tree<N>, k: Ctx<N>)
    requires t.Bin?
    ensures |Inorder(t)| > 0 && LeftSpine(t, k).sub.node == Inorder(t)[0]
  {
    if t.left.Bin? {
      FirstOfSpine(t.left, Hole(k, Left, t.color, t.node, t.right));
    }
  }
}

/** `rb_erase` and `__rb_erase_color`. */
module RbErase {
  import opened RbSpec
  import opened RbCells
  import opened RbTree
  import opened RbReplace
  import opened RbWalk

  predicate BlackOrNull(n: RbNode?)
    reads n
  {
    n == null || n.color == Black
  }

  // ----- fix-up, hole on the left -----

  /** The sibling is red: it is rotated over the parent. */
  method LiftSiblingLeft(root: RbRoot, parent: RbNode, other: RbNode, ghost f: Focus<RbNode>)
    requires root.Sound() && EraseOk(f) && EraseBusy(f) && root.tree == Plug(f.ctx, f.sub) && f.ctx.side == Left
    requires !IsBlack(f.ctx.sib) && other == f.ctx.sib.node && parent == f.ctx.node
    modifies root, root.rank.Keys
    ensures root.Sound() && root.rank == old(root.rank) && root.tree == Plug(EraseLift(f).ctx, f.sub)
    ensures root.turned == old(root.turned) + 1
  {
    SiblingExists(f);
    ghost var Hole(up, _, c, p, sib) := f.ctx;
    root.SetColor(other, Black, Hole(up, Right, c, p, f.sub), sib);
    root.SetColor(parent, Red, up, Bin(c, f.sub, p, Blacken(sib)));
    root.RotateLeft(parent, up, Bin(Red, f.sub, p, Blacken(sib)));
  }

  /** The far nephew is black: the near one is rotated over the sibling. */
  method LiftNephewLeft(root: RbRoot, other: RbNode, ghost k: Ctx<RbNode>, ghost sib: Tree<RbNode>)
    requires root.Sound() && root.tree == Plug(k, sib)
    requires sib.Bin? && sib.left.Bin? && sib.left.color == Red && sib.color == Black && other == sib.node
    modifies root, root.rank.Keys
    ensures root.Sound() && root.rank == old(root.rank)
    ensures root.tree == Plug(k, Bin(Black, sib.left.left, sib.left.node, Bin(Red, sib.left.right, other, sib.right)))
    ensures root.turned == old(root.turned) + 1
  {
    ghost var near := sib.left;
    root.Read(k, sib);
    var nearNode := other.left;
    if nearNode != null {
      root.SetColor(nearNode, Black, Hole(k, Left, Black, other, sib.right), near);
    }
    root.SetColor(other, Red, k, Bin(Black, Blacken(near), other, sib.right));
    root.RotateRight(other, k, Bin(Red, Blacken(near), other, sib.right));
  }

  /** The last rotation: the sibling takes the parent's place and colour. */
  method FinishLeft(root: RbRoot, parent: RbNode, other: RbNode, ghost k: Ctx<RbNode>, ghost t: Tree<RbNode>,
                    ghost sib: Tree<RbNode>)
    requires root.Sound() && k.Hole? && k.side == Left && parent == k.node && root.tree == Plug(k, t) && sib == k.sib
    requires sib.Bin? && other == sib.node
    modifies root, root.rank.Keys
    ensures root.Sound() && root.rank == old(root.rank)
    ensures root.tree == Plug(k.up, Bin(k.color, Bin(Black, t, parent, sib.left), other, Blacken(sib.right)))
    ensures root.turned == old(root.turned) + 1
  {
    ghost var Hole(up, _, c, p, _) := k;
    root.Read(k, t);
    root.SetColor(other, parent.color, Hole(up, Right, c, p, t), sib);
    ghost var sib' := sib.(color := c);
    root.SetColor(parent, Black, up, Bin(c, t, p, sib'));
    root.Read(Hole(up, Right, Black, p, t), sib');
    if other.right != null {
      root.SetColor(other.right, Black, Hole(Hole(up, Right, Black, p, t), Right, c, other, sib.left), sib.right);
    }
    root.RotateLeft(parent, up, Bin(Black, t, p, Bin(c, sib.left, other, Blacken(sib.right))));
  }

  /** A black sibling with a red child: rotations and recolourings make good the shortage. */
  method RepairLeft(root: RbRoot, parent: RbNode, sibling: RbNode, ghost f: Focus<RbNode>)
    requires root.Sound() && EraseOk(f) && EraseBusy(f) && root.tree == Plug(f.ctx, f.sub) && f.ctx.side == Left
    requires IsBlack(f.ctx.sib) && f.ctx.sib.Bin? && !(IsBlack(f.ctx.sib.left) && IsBlack(f.ctx.sib.right))
    requires parent == f.ctx.node && sibling == f.ctx.sib.node
    modifies root, root.rank.Keys
    ensures root.Sound() && root.rank == old(root.rank) && root.tree == ResultTree(EraseSettle(f))
    ensures EraseSettle(f).Done?
    ensures root.turned == old(root.turned) + SettleRotations(f)
  {
    ghost var Hole(up, _, c, p, sib) := f.ctx;
    ghost var k := Hole(up, Right, c, p, f.sub);
    var other := sibling;
    root.Read(k, sib);
    root.Read(Hole(k, Right, Black, other, sib.left), sib.right);
    ghost var sib' := sib;
    if BlackOrNull(other.right) {
      LiftNephewLeft(root, other, k, sib);
      sib' := Bin(Black, sib.left.left, sib.left.node, Bin(Red, sib.left.right, other, sib.right));
      root.Read(f.ctx.(sib := sib'), f.sub);
      other := parent.right;
    }
    FinishLeft(root, parent, other, f.ctx.(sib := sib'), f.sub, sib');
  }

  /** The second half of a turn, with a black sibling; `done` when the loop is left by `break`. */
  method SettleLeft(root: RbRoot, node: RbNode?, parent: RbNode, sibling: RbNode, ghost f: Focus<RbNode>)
    returns (next: RbNode?, done: bool)
    requires root.Sound() && EraseOk(f) && EraseBusy(f) && root.tree == Plug(f.ctx, f.sub) && f.ctx.side == Left
    requires IsBlack(f.ctx.sib) && node == Root(f.sub) && parent == f.ctx.node && sibling == Root(f.ctx.sib)
    modifies root, root.rank.Keys
    ensures root.Sound() && root.rank == old(root.rank) && root.tree == ResultTree(EraseSettle(f))
    ensures done <==> EraseSettle(f).Done?
    ensures next == if done then root.node else Root(EraseSettle(f).focus.sub)
    ensures root.turned == old(root.turned) + SettleRotations(f)
  {
    SiblingExists(f);
    ghost var Hole(up, _, c, p, sib) := f.ctx;
    ghost var k := Hole(up, Right, c, p, f.sub);
    var other := sibling;
    root.Read(k, sib);
    root.Read(Hole(k, Left, Black, other, sib.right), sib.left);
    root.Read(Hole(k, Right, Black, other, sib.left), sib.right);
    if BlackOrNull(other.left) && BlackOrNull(other.right) {
      root.SetColor(other, Red, k, sib);
      return parent, false;
    }
    RepairLeft(root, parent, other, f);
    return root.node, true;
  }

  /** One turn of the loop, when the hole is the left child. */
  method TurnLeft(root: RbRoot, node: RbNode?, parent: RbNode, ghost f: Focus<RbNode>)
    returns (next: RbNode?, done: bool)
    requires root.Sound() && EraseOk(f) && EraseBusy(f) && root.tree == Plug(f.ctx, f.sub) && f.ctx.side == Left
    requires node == Root(f.sub) && parent == f.ctx.node
    modifies root, root.rank.Keys
    ensures root.Sound() && root.rank == old(root.rank) && root.tree == ResultTree(EraseStep(f))
    ensures done <==> EraseStep(f).Done?
    ensures next == if done then root.node else Root(EraseStep(f).focus.sub)
    ensures root.turned == old(root.turned) + EraseStepRotations(f)
  {
    SiblingExists(f);
    EraseLiftOk(f);
    root.Read(f.ctx, f.sub);
    root.Read(Hole(f.ctx.up, Right, f.ctx.color, parent, f.sub), f.ctx.sib);
    var other := parent.right;
    if other.color == Red {
      LiftSiblingLeft(root, parent, other, f);
      root.Read(EraseLift(f).ctx, f.sub);
      SiblingExists(EraseLift(f));
      other := parent.right;
    }
    next, done := SettleLeft(root, node, parent, other, EraseLift(f));
  }

  // ----- fix-up, hole on the right -----

  /** The sibling is red: it is rotated over the parent. */
  method LiftSiblingRight(root: RbRoot, parent: RbNode, other: RbNode, ghost f: Focus<RbNode>)
    requires root.Sound() && EraseOk(f) && EraseBusy(f) && root.tree == Plug(f.ctx, f.sub) && f.ctx.side == Right
    requires !IsBlack(f.ctx.sib) && other == f.ctx.sib.node && parent == f.ctx.node
    modifies root, root.rank.Keys
    ensures root.Sound() && root.rank == old(root.rank) && root.tree == Plug(EraseLift(f).ctx, f.sub)
    ensures root.turned == old(root.turned) + 1
  {
    SiblingExists(f);
    ghost var Hole(up, _, c, p, sib) := f.ctx;
    root.SetColor(other, Black, Hole(up, Left, c, p, f.sub), sib);
    root.SetColor(parent, Red, up, Bin(c, Blacken(sib), p, f.sub));
    root.RotateRight(parent, up, Bin(Red, Blacken(sib), p, f.sub));
  }

  /** The far nephew is black: the near one is rotated over the sibling. */
  method LiftNephewRight(root: RbRoot, other: RbNode, ghost k: Ctx<RbNode>, ghost sib: Tree<RbNode>)
    requires root.Sound() && root.tree == Plug(k, sib)
    requires sib.Bin? && sib.right.Bin? && sib.right.color == Red && sib.color == Black && other == sib.node
    modifies root, root.rank.Keys
    ensures root.Sound() && root.rank == old(root.rank)
    ensures root.tree == Plug(k, Bin(Black, Bin(Red, sib.left, other, sib.right.left), sib.right.node, sib.right.right))
    ensures root.turned == old(root.turned) + 1
  {
    ghost var near := sib.right;
    root.Read(k, sib);
    var nearNode := other.right;
    if nearNode != null {
      root.SetColor(nearNode, Black, Hole(k, Right, Black, other, sib.left), near);
    }
    root.SetColor(other, Red, k, Bin(Black, sib.left, other, Blacken(near)));
    root.RotateLeft(other, k, Bin(Red, sib.left, other, Blacken(near)));
  }

  /** The last rotation: the sibling takes the parent's place and colour. */
  method FinishRight(root: RbRoot, parent: RbNode, other: RbNode, ghost k: Ctx<RbNode>, ghost t: Tree<RbNode>,
                     ghost sib: Tree<RbNode>)
    requires root.Sound() && k.Hole? && k.side == Right && parent == k.node && root.tree == Plug(k, t) && sib == k.sib
    requires sib.Bin? && other == sib.node
    modifies root, root.rank.Keys
    ensures root.Sound() && root.rank == old(root.rank)
    ensures root.tree == Plug(k.up, Bin(k.color, Blacken(sib.left), other, Bin(Black, sib.right, parent, t)))
    ensures root.turned == old(root.turned) + 1
  {
    ghost var Hole(up, _, c, p, _) := k;
    root.Read(k, t);
    root.SetColor(other, parent.color, Hole(up, Left, c, p, t), sib);
    ghost var sib' := sib.(color := c);
    root.SetColor(parent, Black, up, Bin(c, sib', p, t));
    root.Read(Hole(up, Left, Black, p, t), sib');
    if other.left != null {
      root.SetColor(other.left, Black, Hole(Hole(up, Left, Black, p, t), Left, c, other, sib.right), sib.left);
    }
    root.RotateRight(parent, up, Bin(Black, Bin(c, Blacken(sib.left), other, sib.right), p, t));
  }

  /** A black sibling with a red child: rotations and recolourings make good the shortage. */
  method RepairRight(root: RbRoot, parent: RbNode, sibling: RbNode, ghost f: Focus<RbNode>)
    requires root.Sound() && EraseOk(f) && EraseBusy(f) && root.tree == Plug(f.ctx, f.sub) && f.ctx.side == Right
    requires IsBlack(f.ctx.sib) && f.ctx.sib.Bin? && !(IsBlack(f.ctx.sib.left) && IsBlack(f.ctx.sib.right))
    requires parent == f.ctx.node && sibling == f.ctx.sib.node
    modifies root, root.rank.Keys
    ensures root.Sound() && root.rank == old(root.rank) && root.tree == ResultTree(EraseSettle(f))
    ensures EraseSettle(f).Done?
    ensures root.turned == old(root.turned) + SettleRotations(f)
  {
    ghost var Hole(up, _, c, p, sib) := f.ctx;
    ghost var k := Hole(up, Left, c, p, f.sub);
    var other := sibling;
    root.Read(k, sib);
    root.Read(Hole(k, Left, Black, other, sib.right), sib.left);
    ghost var sib' := sib;
    if BlackOrNull(other.left) {
      LiftNephewRight(root, other, k, sib);
      sib' := Bin(Black, Bin(Red, sib.left, other, sib.right.left), sib.right.node, sib.right.right);
      root.Read(f.ctx.(sib := sib'), f.sub);
      other := parent.left;
    }
    FinishRight(root, parent, other, f.ctx.(sib := sib'), f.sub, sib');
  }

  /** The second half of a turn, with a black sibling; `done` when the loop is left by `break`. */
  method SettleRight(root: RbRoot, node: RbNode?, parent: RbNode, sibling: RbNode, ghost f: Focus<RbNode>)
    returns (next: RbNode?, done: bool)
    requires root.Sound() && EraseOk(f) && EraseBusy(f) && root.tree == Plug(f.ctx, f.sub) && f.ctx.side == Right
    requires IsBlack(f.ctx.sib) && node == Root(f.sub) && parent == f.ctx.node && sibling == Root(f.ctx.sib)
    modifies root, root.rank.Keys
    ensures root.Sound() && root.rank == old(root.rank) && root.tree == ResultTree(EraseSettle(f))
    ensures done <==> EraseSettle(f).Done?
    ensures next == if done then root.node else Root(EraseSettle(f).focus.sub)
    ensures root.turned == old(root.turned) + SettleRotations(f)
  {
    SiblingExists(f);
    ghost var Hole(up, _, c, p, sib) := f.ctx;
    ghost var k := Hole(up, Left, c, p, f.sub);
    var other := sibling;
    root.Read(k, sib);
    root.Read(Hole(k, Right, Black, other, sib.left), sib.right);
    root.Read(Hole(k, Left, Black, other, sib.right), sib.left);
    if BlackOrNull(other.right) && BlackOrNull(other.left) {
      root.SetColor(other, Red, k, sib);
      return parent, false;
    }
    RepairRight(root, parent, other, f);
    return root.node, true;
  }

  /** One turn of the loop, when the hole is the right child. */
  method TurnRight(root: RbRoot, node: RbNode?, parent: RbNode, ghost f: Focus<RbNode>)
    returns (next: RbNode?, done: bool)
    requires root.Sound() && EraseOk(f) && EraseBusy(f) && root.tree == Plug(f.ctx, f.sub) && f.ctx.side == Right
    requires node == Root(f.sub) && parent == f.ctx.node
    modifies root, root.rank.Keys
    ensures root.Sound() && root.rank == old(root.rank) && root.tree == ResultTree(EraseStep(f))
    ensures done <==> EraseStep(f).Done?
    ensures next == if done then root.node else Root(EraseStep(f).focus.sub)
    ensures root.turned == old(root.turned) + EraseStepRotations(f)
  {
    SiblingExists(f);
    EraseLiftOk(f);
    root.Read(f.ctx, f.sub);
    root.Read(Hole(f.ctx.up, Left, f.ctx.color, parent, f.sub), f.ctx.sib);
    var other := parent.left;
    if other.color == Red {
      LiftSiblingRight(root, parent, other, f);
      root.Read(EraseLift(f).ctx, f.sub);
      SiblingExists(EraseLift(f));
      other := parent.left;
    }
    next, done := SettleRight(root, node, parent, other, EraseLift(f));
  }

  // ----- the whole fix-up -----

  method Turn(root: RbRoot, node: RbNode?, parent: RbNode, ghost f: Focus<RbNode>) returns (next: RbNode?, done: bool)
    requires root.Sound() && EraseOk(f) && EraseBusy(f) && root.tree == Plug(f.ctx, f.sub)
    requires node == Root(f.sub) && parent == f.ctx.node
    modifies root, root.rank.Keys
    ensures root.Sound() && root.rank == old(root.rank) && root.tree == ResultTree(EraseStep(f))
    ensures done <==> EraseStep(f).Done?
    ensures next == if done then root.node else Root(EraseStep(f).focus.sub)
    ensures root.turned == old(root.turned) + EraseStepRotations(f)
  {
    SiblingExists(f);
    root.Read(f.ctx, f.sub);
    if parent.left == node {
      next, done := TurnLeft(root, node, parent, f);
    } else {
      next, done := TurnRight(root, node, parent, f);
    }
  }

  /** `if (node) rb_set_black(node);` */
  method BlackenHole(root: RbRoot, node: RbNode?, ghost f: Focus<RbNode>)
    requires root.Sound() && root.tree == Plug(f.ctx, f.sub) && node == Root(f.sub)
    modifies root, root.rank.Keys
    ensures root.Sound() && root.rank == old(root.rank) && root.tree == Plug(f.ctx, Blacken(f.sub))
    ensures root.turned == old(root.turned)
  {
    if node != null {
      root.SetColor(node, Black, f.ctx, f.sub);
    }
  }

  /** `__rb_erase_color`: the subtree `node` below `parent` is one black node short. */
  method EraseColor(child: RbNode?, above: RbNode?, root: RbRoot, ghost f0: Focus<RbNode>)
    requires root.Sound() && EraseOk(f0) && root.tree == Plug(f0.ctx, f0.sub)
    requires child == Root(f0.sub) && above == Parent(f0.ctx)
    modifies root, root.rank.Keys
    ensures root.Sound() && root.rank == old(root.rank) && root.tree == EraseFix(f0)
    ensures root.turned == old(root.turned) + EraseRotations(f0)
  {
    var node, parent := child, above;
    ghost var f := f0;
    root.Read(f.ctx, f.sub);
    while BlackOrNull(node) && node != root.node
      invariant root.Sound() && root.rank == old(root.rank)
      invariant EraseOk(f) && root.tree == Plug(f.ctx, f.sub) && EraseFix(f) == EraseFix(f0)
      invariant node == Root(f.sub) && parent == Parent(f.ctx)
      invariant root.turned + EraseRotations(f) == old(root.turned) + EraseRotations(f0)
      invariant node != null ==> node in root.rank && node.color == f.sub.color
      invariant node != root.node <==> f.ctx.Hole?
      decreases Depth(f.ctx), IsBlack(f.sub)
    {
      EraseStepOk(f);
      var next, done := Turn(root, node, parent, f);
      node := next;
      if done {
        f := Focus(Top, root.tree);
        break;
      }
      f := EraseStep(f).focus;
      root.Read(f.ctx, f.sub);
      parent := node.parent;
    }
    BlackenHole(root, node, f);
  }

  // ----- unlinking -----

  /** `u` is the only child, possibly missing, of the root of `t`. */
  predicate OnlyChild(t: Tree<RbNode>, u: Tree<RbNode>) {
    t.Bin? && ((t.left.Leaf? && u == t.right) || (t.right.Leaf? && u == t.left))
  }

  lemma {:induction false} CutReady(root: RbRoot, k: Ctx<RbNode>, t: Tree<RbNode>, u: Tree<RbNode>)
    requires root.Sound() && root.tree == Plug(k, t) && OnlyChild(t, u)
    ensures Laid(root.Now(), k, t) && root.RootIs(u, t.node) && root.RootIs(t, Parent(k)) && root.HoleIs(k, t.node)
    ensures t.node in root.rank && (u.Bin? ==> u.node in root.rank) && (k.Hole? ==> k.node in root.rank)
    ensures k.Hole? ==> k.node !in {t.node, Root(u)} && Root(k.sib) != t.node
    ensures t.node != Root(u)
  {
    LaidPlug(root.Now(), k, t);
    root.GroundedLinks(k, t);
  }

  /** Record that the root of `t` is no longer linked. */
  ghost method RecordCut(root: RbRoot, m: Memory, k: Ctx<RbNode>, t: Tree<RbNode>, u: Tree<RbNode>)
    requires Laid(m, k, t) && OnlyChild(t, u) && root.Ranks(m)
    requires root.RootIs(u, Parent(k)) && root.HoleIs(k, Root(u)) && (k.Hole? ==> root.node == m.top)
    requires root.Since(m, {t.node, Root(u), Parent(k)})
    modifies root`rank, root`tree
    ensures root.Sound() && root.tree == Plug(k, u) && root.rank.Keys == m.cells.Keys - {t.node}
  {
    LaidGrounded(m, k, t);
    root.rank := root.rank - {t.node};
    root.tree := Plug(k, u);
    root.NowSameBut(m, {t.node, Root(u), Parent(k)});
    root.NowRooted(m, u, Parent(k));
    root.NowLinked(m, k, Root(u));
    CutLaid(m, root.Now(), k, t, u);
    LaidPlug(root.Now(), k, u);
  }

  method CutLinks(x: RbNode, child: RbNode?, parent: RbNode?, root: RbRoot, ghost k: Ctx<RbNode>, ghost u: Tree<RbNode>)
    requires child == Root(u) && parent == Parent(k) && root.RootIs(u, x) && root.HoleIs(k, x)
    requires (k.Hole? ==> k.node != Root(u) && Root(k.sib) != x)
    modifies root`node, Root(u), Parent(k)
    ensures root.RootIs(u, Parent(k)) && root.HoleIs(k, Root(u))
    ensures k.Hole? ==> root.node == old(root.node)
  {
    if child != null {
      child.parent := parent;
    }
    if parent != null {
      if parent.left == x {
        parent.left := child;
      } else {
        parent.right := child;
      }
    } else {
      root.node := child;
    }
  }

  /** Cut out `x`, which has at most the child `child`. */
  method Cut(x: RbNode, child: RbNode?, parent: RbNode?, root: RbRoot, ghost k: Ctx<RbNode>, ghost t: Tree<RbNode>,
             ghost u: Tree<RbNode>)
    requires root.Sound() && root.tree == Plug(k, t) && OnlyChild(t, u) && t.node == x && child == Root(u)
    requires parent == Parent(k)
    modifies root, root.rank.Keys
    ensures root.Sound() && root.tree == Plug(k, u) && root.rank.Keys == old(root.rank.Keys) - {x}
    ensures root.turned == old(root.turned)
  {
    ghost var m := root.Now();
    CutReady(root, k, t, u);
    CutLinks(x, child, parent, root, k, u);
    RecordCut(root, m, k, t, u);
  }

  /** The successor's links are cut by comparing its parent with the erased node. */
  method CutSuccessorLinks(child: RbNode?, parent: RbNode, x: RbNode, y: RbNode, root: RbRoot, ghost k: Ctx<RbNode>,
                           ghost u: Tree<RbNode>)
    requires child == Root(u) && k.Hole? && parent == k.node && root.RootIs(u, y) && root.HoleIs(k, y)
    requires k.node != Root(u) && (parent == x <==> k.side == Right)
    modifies Root(u), Parent(k)
    ensures root.RootIs(u, Parent(k)) && root.HoleIs(k, Root(u))
  {
    if child != null {
      child.parent := parent;
    }
    if parent == x {
      parent.right := child;
    } else {
      parent.left := child;
    }
  }

  method CutSuccessor(child: RbNode?, parent: RbNode, x: RbNode, y: RbNode, root: RbRoot, ghost k: Ctx<RbNode>,
                      ghost t: Tree<RbNode>)
    requires root.Sound() && root.tree == Plug(k, t) && t.Bin? && t.left.Leaf? && t.node == y && child == Root(t.right)
    requires k.Hole? && parent == k.node && (parent == x <==> k.side == Right)
    modifies root, root.rank.Keys
    ensures root.Sound() && root.tree == Plug(k, t.right) && root.rank.Keys == old(root.rank.Keys) - {y}
    ensures root.turned == old(root.turned)
  {
    ghost var m := root.Now();
    CutReady(root, k, t, t.right);
    CutSuccessorLinks(child, parent, x, y, root, k, t.right);
    RecordCut(root, m, k, t, t.right);
  }

  // ----- the successor -----

  /** The successor's parent is the erased node exactly when it was reached by one step right. */
  lemma {:induction false} SpineSide(m: Memory, t: Tree<RbNode>, k: Ctx<RbNode>, x: RbNode)
    requires Laid(m, k, t) && t.Bin? && k.Hole? && Rank(m, x) <= Lo(m, k)
    requires k.node == x <==> k.side == Right
    ensures var c := LeftSpine(t, k).ctx; c.Hole? && (c.node == x <==> c.side == Right)
  {
    if t.left.Bin? {
      LaidGrounded(m, k, t);
      SpineSide(m, t.left, Hole(k, Left, t.color, t.node, t.right), x);
    }
  }

  /** The tree with `y` written for the erased node, and the successor's old place in it. */
  lemma {:induction false} SplicedTree(k: Ctx<RbNode>, t: Tree<RbNode>, y: RbNode)
    requires t.Bin? && t.right.Bin?
    ensures var f := LeftSpine(t.right, Hole(k, Right, t.color, t.node, t.left));
      var f' := LeftSpine(t.right, Hole(k, Right, t.color, y, t.left));
      var rest := Plug(LeftSpine(t.right, Top).ctx, f.sub.right);
      && f.sub == f'.sub == LeftSpine(t.right, Top).sub
      && Plug(f.ctx, f.sub.right) == Plug(k, t.(right := rest))
      && Plug(f'.ctx, f.sub.right) == Plug(k, t.(right := rest, node := y))
      && Parent(f'.ctx) == (if LeftSpine(t.right, Top).ctx.Top? then y else Parent(LeftSpine(t.right, Top).ctx))
      && Parent(f.ctx) == (if LeftSpine(t.right, Top).ctx.Top? then t.node else Parent(LeftSpine(t.right, Top).ctx))
      && (f.ctx.Hole? && f.ctx.side == Right <==> LeftSpine(t.right, Top).ctx.Top?)
  {
    var o, o' := Hole(k, Right, t.color, t.node, t.left), Hole(k, Right, t.color, y, t.left);
    var i := LeftSpine(t.right, Top);
    LeftSpineAppend(t.right, Top, o);
    LeftSpineAppend(t.right, Top, o');
    PlugAppend(i.ctx, o, i.sub.right);
    PlugAppend(i.ctx, o', i.sub.right);
    SpineLeft(t.right, Top);
  }

  lemma {:induction false} SpineLeft(t: Tree<RbNode>, k: Ctx<RbNode>)
    requires t.Bin? && (k.Top? || k.side == Left)
    ensures var c := LeftSpine(t, k).ctx; c.Top? || c.side == Left
  {
    if t.left.Bin? {
      SpineLeft(t.left, Hole(k, Left, t.color, t.node, t.right));
    }
  }

  /** What the links show on the way to the successor. */
  lemma {:induction false} ExchangeReady(x: RbNode, root: RbRoot, k: Ctx<RbNode>, t: Tree<RbNode>)
    requires root.Sound() && root.tree == Plug(k, t) && t.Bin? && t.node == x && t.left.Bin? && t.right.Bin?
    ensures var outer := Hole(k, Right, t.color, x, t.left);
      var f := LeftSpine(t.right, outer);
      && x.right == t.right.node && root.tree == Plug(outer, t.right) == Plug(f.ctx, f.sub)
      && f.sub.Bin? && f.sub.left.Leaf? && x in root.rank && f.sub.node in root.rank && f.sub.node != x
      && f.sub.node.right == Root(f.sub.right) && f.sub.node.parent == Parent(f.ctx) && f.sub.node.color == f.sub.color
      && f.ctx.Hole? && (f.ctx.node == x <==> f.ctx.side == Right)
  {
    var outer := Hole(k, Right, t.color, x, t.left);
    var f := LeftSpine(t.right, outer);
    root.Read(k, t);
    root.Read(outer, t.right);
    LaidPlug(root.Now(), outer, t.right);
    SpineSide(root.Now(), t.right, outer, x);
    LeftSpineCorrect(t.right, outer);
    root.Read(f.ctx, f.sub);
  }

  /** Two children: find the successor and cut it out. */
  method TakeSuccessor(x: RbNode, root: RbRoot, ghost k: Ctx<RbNode>, ghost t: Tree<RbNode>)
    returns (node: RbNode, child: RbNode?, parent: RbNode, color: Color)
    requires root.Sound() && root.tree == Plug(k, t) && t.Bin? && t.node == x && t.left.Bin? && t.right.Bin?
    modifies root, root.rank.Keys
    ensures var f := LeftSpine(t.right, Hole(k, Right, t.color, x, t.left));
      && root.Sound() && root.tree == Plug(f.ctx, f.sub.right) && root.rank.Keys == old(root.rank.Keys) - {node}
      && node == f.sub.node && node != x && node in old(root.rank)
      && child == Root(f.sub.right) && color == f.sub.color
      && f.ctx.Hole? && parent == f.ctx.node && (parent == x <==> f.ctx.side == Right)
    ensures root.turned == old(root.turned)
  {
    ghost var outer := Hole(k, Right, t.color, x, t.left);
    ghost var f := LeftSpine(t.right, outer);
    ExchangeReady(x, root, k, t);
    node := Leftmost(x.right, root, outer, t.right);
    child, parent, color := node.right, node.parent, node.color;
    CutSuccessor(child, parent, x, node, root, f.ctx, f.sub);
  }

  /** Then it is put in the place of `x`. */
  method ExchangeWithSuccessor(x: RbNode, root: RbRoot, ghost k: Ctx<RbNode>, ghost t: Tree<RbNode>)
    returns (child: RbNode?, parent: RbNode?, color: Color)
    requires root.Sound() && root.tree == Plug(k, t) && t.Bin? && t.node == x && t.left.Bin? && t.right.Bin?
    modifies root, root.rank.Keys
    ensures var f := LeftSpine(t.right, Hole(k, Right, t.color, Successor(t), t.left));
      && root.Sound() && root.tree == Plug(f.ctx, f.sub.right) && root.rank.Keys == old(root.rank.Keys) - {x}
      && child == Root(f.sub.right) && parent == Parent(f.ctx) && color == f.sub.color
    ensures root.turned == old(root.turned)
  {
    SplicedTree(k, t, Successor(t));
    root.Read(k, t);
    var node;
    node, child, parent, color := TakeSuccessor(x, root, k, t);
    if parent == x {
      parent := node;
    }
    ghost var spine := LeftSpine(t.right, Top);
    Splice(x, node, root, k, t.(right := Plug(spine.ctx, spine.sub.right)));
  }

  /** `rb_erase`. */
  method Erase(x: RbNode, root: RbRoot, ghost k: Ctx<RbNode>, ghost t: Tree<RbNode>)
    requires root.Sound() && root.tree == Plug(k, t) && t.Bin? && t.node == x && RbValid(root.tree)
    modifies root, root.rank.Keys
    ensures root.Sound() && root.tree == RbSpec.Erase(k, t) && root.rank.Keys == old(root.rank.Keys) - {x}
    ensures root.turned <= old(root.turned) + 3
  {
    root.Read(k, t);
    var child, parent, color;
    ghost var f: Focus<RbNode>;
    if x.left == null || x.right == null {
      child := if x.left == null then x.right else x.left;
      parent, color := x.parent, x.color;
      f := Focus(k, if t.left.Leaf? then t.right else t.left);
      CutOk(k, t, f.sub);
      Cut(x, child, parent, root, k, t, f.sub);
    } else {
      f := LeftSpine(t.right, Hole(k, Right, t.color, Successor(t), t.left));
      SpliceOk(k, t, Successor(t));
      CutOk(f.ctx, f.sub, f.sub.right);
      child, parent, color := ExchangeWithSuccessor(x, root, k, t);
      f := Focus(f.ctx, f.sub.right);
    }
    if color == Black {
      AtMostThreeRotations(f);
      EraseColor(child, parent, root, f);
    }
  }
}

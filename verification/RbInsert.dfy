/** `rb_link_node` and `rb_insert_color`. */
module RbInsert {
  import opened RbSpec
  import opened RbCells
  import opened RbTree

  /** What a pointer to a child link can point at. */
  datatype Link = RootLink | ChildLink(side: Side)

  predicate LinkOf(k: Ctx<RbNode>, link: Link) {
    if k.Top? then link == RootLink else link == ChildLink(k.side)
  }

  lemma {:induction false} LinkReady(root: RbRoot, k: Ctx<RbNode>)
    requires root.Sound() && root.tree == Plug(k, Leaf)
    ensures Laid(root.Now(), k, Leaf) && root.HoleIs(k, null) && (k.Hole? ==> k.node in root.rank)
    ensures Lo(root.Now(), k) < Hi(root.Now(), k)
  {
    LaidPlug(root.Now(), k, Leaf);
    root.Read(k, Leaf);
    CtxFrame(root.Now(), root.Now(), k, null);
  }

  lemma {:induction false} LinkedSound(root: RbRoot, m: Memory, k: Ctx<RbNode>, x: RbNode, rank: real)
    requires Laid(m, k, Leaf) && x !in m.cells && Lo(m, k) < rank < Hi(m, k)
    requires root.Since(m, {Parent(k)})
    requires root.HoleIs(k, x)
    requires k.Hole? ==> root.node == m.top && k.node in m.cells && k.node in root.rank
    requires k.Hole? ==> root.rank[k.node] == m.cells[k.node].rank
    requires x in root.rank && root.rank[x] == rank && root.RootIs(Bin(Red, Leaf, x, Leaf), Parent(k))
    ensures Laid(root.Now(), Top, Plug(k, Bin(Red, Leaf, x, Leaf)))
  {
    root.NowSameBut(m, {Parent(k)});
    root.NowLinked(m, k, x);
    LinkLaid(m, root.Now(), k, x, rank);
    LaidPlug(root.Now(), k, Bin(Red, Leaf, x, Leaf));
  }

  /** Record the new node with its rank. */
  ghost method RecordLink(root: RbRoot, m: Memory, k: Ctx<RbNode>, x: RbNode, rank: real)
    requires Laid(m, k, Leaf) && x !in m.cells && Lo(m, k) < rank < Hi(m, k) && root.Ranks(m)
    requires root.Since(m, {Parent(k)}) && root.HoleIs(k, x) && (k.Hole? ==> root.node == m.top && k.node in m.cells)
    requires root.RootIs(Bin(Red, Leaf, x, Leaf), Parent(k))
    modifies root`rank, root`tree
    ensures root.Sound() && root.tree == Plug(k, Bin(Red, Leaf, x, Leaf)) && root.rank.Keys == m.cells.Keys + {x}
  {
    root.rank := root.rank[x := rank];
    root.tree := Plug(k, Bin(Red, Leaf, x, Leaf));
    LinkedSound(root, m, k, x, rank);
  }

  /** `rb_link_node`, link by link. */
  method LinkNodeLinks(x: RbNode, parent: RbNode?, link: Link, root: RbRoot, ghost k: Ctx<RbNode>)
    requires root.HoleIs(k, null) && parent == Parent(k) && parent != x && LinkOf(k, link)
    modifies root`node, parent, x
    ensures root.HoleIs(k, x) && root.RootIs(Bin(Red, Leaf, x, Leaf), parent)
    ensures k.Hole? ==> root.node == old(root.node)
  {
    x.parent, x.color := parent, Red;
    x.left, x.right := null, null;
    match link {
      case RootLink => root.node := x;
      case ChildLink(Left) => parent.left := x;
      case ChildLink(Right) => parent.right := x;
    }
  }

  /** `rb_link_node`: `x` becomes a red leaf at the empty position `k`. */
  method LinkNode(x: RbNode, parent: RbNode?, link: Link, root: RbRoot, ghost k: Ctx<RbNode>)
    requires root.Sound() && root.tree == Plug(k, Leaf) && x !in root.rank
    requires parent == Parent(k) && LinkOf(k, link)
    modifies root, root.rank.Keys, x
    ensures root.Sound() && root.tree == Plug(k, Bin(Red, Leaf, x, Leaf))
    ensures root.rank.Keys == old(root.rank.Keys) + {x}
    ensures root.turned == old(root.turned)
  {
    ghost var m := root.Now();
    LinkReady(root, k);
    ghost var rank := (Lo(m, k) + Hi(m, k)) / 2.0;
    LinkNodeLinks(x, parent, link, root, k);
    RecordLink(root, m, k, x, rank);
  }

  /** Recolouring case: the red uncle and the parent become black, the fault moves up two levels. */
  method Recolor(root: RbRoot, parent: RbNode, gparent: RbNode, uncle: RbNode, ghost f: Focus<RbNode>)
    requires root.Sound() && InsertOk(f) && InsertBusy(f.ctx) && root.tree == Plug(f.ctx, f.sub)
    requires !IsBlack(f.ctx.up.sib) && uncle == f.ctx.up.sib.node && parent == f.ctx.node && gparent == f.ctx.up.node
    modifies root, root.rank.Keys
    ensures root.Sound() && root.rank == old(root.rank)
    ensures root.tree == Plug(InsertStep(f).ctx, InsertStep(f).sub) && InsertStep(f).sub.node == gparent
    ensures root.turned == old(root.turned)
  {
    ghost var Hole(Hole(up, gs, _, g, u), ps, _, p, sib) := f.ctx;
    ghost var pt, pt' := Join(ps, Red, f.sub, p, sib), Join(ps, Black, f.sub, p, sib);
    root.SetColor(uncle, Black, Hole(up, Opp(gs), Black, g, pt), u);
    root.SetColor(parent, Black, Hole(up, gs, Black, g, Blacken(u)), pt);
    root.SetColor(gparent, Red, up, Join(gs, Black, pt', g, Blacken(u)));
  }

  /** Outer case below a left-child parent: the parent is rotated over the grandparent. */
  method LiftLeft(root: RbRoot, parent: RbNode, gparent: RbNode, ghost f: Focus<RbNode>)
    requires root.Sound() && InsertOk(f) && InsertBusy(f.ctx) && root.tree == Plug(f.ctx, f.sub)
    requires IsBlack(f.ctx.up.sib) && f.ctx.side == Left && f.ctx.up.side == Left
    requires parent == f.ctx.node && gparent == f.ctx.up.node
    modifies root, root.rank.Keys
    ensures root.Sound() && root.rank == old(root.rank)
    ensures root.tree == Plug(InsertStep(f).ctx, InsertStep(f).sub) && InsertStep(f).sub == f.sub
    ensures root.turned == old(root.turned) + 1
  {
    ghost var Hole(Hole(up, _, _, g, u), _, _, p, sib) := f.ctx;
    ghost var pt, pt' := Bin(Red, f.sub, p, sib), Bin(Black, f.sub, p, sib);
    root.SetColor(parent, Black, Hole(up, Left, Black, g, u), pt);
    root.SetColor(gparent, Red, up, Bin(Black, pt', g, u));
    root.RotateRight(gparent, up, Bin(Red, pt', g, u));
  }

  method LiftRight(root: RbRoot, parent: RbNode, gparent: RbNode, ghost f: Focus<RbNode>)
    requires root.Sound() && InsertOk(f) && InsertBusy(f.ctx) && root.tree == Plug(f.ctx, f.sub)
    requires IsBlack(f.ctx.up.sib) && f.ctx.side == Right && f.ctx.up.side == Right
    requires parent == f.ctx.node && gparent == f.ctx.up.node
    modifies root, root.rank.Keys
    ensures root.Sound() && root.rank == old(root.rank)
    ensures root.tree == Plug(InsertStep(f).ctx, InsertStep(f).sub) && InsertStep(f).sub == f.sub
    ensures root.turned == old(root.turned) + 1
  {
    ghost var Hole(Hole(up, _, _, g, u), _, _, p, sib) := f.ctx;
    ghost var pt, pt' := Bin(Red, sib, p, f.sub), Bin(Black, sib, p, f.sub);
    root.SetColor(parent, Black, Hole(up, Right, Black, g, u), pt);
    root.SetColor(gparent, Red, up, Bin(Black, u, g, pt'));
    root.RotateLeft(gparent, up, Bin(Red, u, g, pt'));
  }

  /** One turn of the loop, when the parent is a left child. */
  method TurnLeft(root: RbRoot, node: RbNode, parent: RbNode, gparent: RbNode, ghost f: Focus<RbNode>)
    returns (next: RbNode)
    requires root.Sound() && InsertOk(f) && InsertBusy(f.ctx) && root.tree == Plug(f.ctx, f.sub)
    requires f.ctx.up.side == Left
    requires node == f.sub.node && parent == f.ctx.node && gparent == f.ctx.up.node
    modifies root, root.rank.Keys
    ensures root.Sound() && root.rank == old(root.rank)
    ensures root.tree == Plug(InsertStep(f).ctx, InsertStep(f).sub) && InsertStep(f).sub.node == next
    ensures root.turned == old(root.turned) + InsertStepRotations(f)
  {
    ghost var Hole(Hole(up, _, _, g, u), ps, _, p, sib) := f.ctx;
    ghost var pt := Join(ps, Red, f.sub, p, sib);
    root.Read(up, Bin(Black, pt, g, u));
    root.Read(Hole(up, Right, Black, g, pt), u);
    root.Read(f.ctx, f.sub);
    var uncle := gparent.right;
    if uncle != null && uncle.color == Red {
      Recolor(root, parent, gparent, uncle, f);
      return gparent;
    }
    if parent.right == node {
      ghost var ctx1 := Hole(Hole(up, Left, Black, g, u), Left, Red, node, f.sub.right);
      ghost var f1 := Focus(ctx1, Bin(Red, sib, p, f.sub.left));
      root.RotateLeft(parent, f.ctx.up, pt);
      InnerFocus(f, f1);
      LiftLeft(root, node, gparent, f1);
      return parent;
    }
    LiftLeft(root, parent, gparent, f);
    return node;
  }

  /** The inner case becomes the outer case by a rotation of the parent. */
  lemma {:induction false} InnerFocus(f: Focus<RbNode>, f1: Focus<RbNode>)
    requires InsertOk(f) && InsertBusy(f.ctx) && IsBlack(f.ctx.up.sib) && f.ctx.side == Opp(f.ctx.up.side)
    requires var s := f.ctx.up.side;
      f1 == Focus(Hole(f.ctx.up, s, Red, f.sub.node, Child(f.sub, Opp(s))),
                  Join(s, Red, f.ctx.sib, f.ctx.node, Child(f.sub, s)))
    ensures InsertOk(f1) && InsertBusy(f1.ctx) && InsertStep(f1) == InsertStep(f)
  {
    assert Fits(f.ctx.up, BlackHeight(f.sub));
    JoinRb(f.ctx.up.side, Red, f.ctx.sib, f.ctx.node, Child(f.sub, f.ctx.up.side));
  }

  method TurnRight(root: RbRoot, node: RbNode, parent: RbNode, gparent: RbNode, ghost f: Focus<RbNode>)
    returns (next: RbNode)
    requires root.Sound() && InsertOk(f) && InsertBusy(f.ctx) && root.tree == Plug(f.ctx, f.sub)
    requires f.ctx.up.side == Right
    requires node == f.sub.node && parent == f.ctx.node && gparent == f.ctx.up.node
    modifies root, root.rank.Keys
    ensures root.Sound() && root.rank == old(root.rank)
    ensures root.tree == Plug(InsertStep(f).ctx, InsertStep(f).sub) && InsertStep(f).sub.node == next
    ensures root.turned == old(root.turned) + InsertStepRotations(f)
  {
    ghost var Hole(Hole(up, _, _, g, u), ps, _, p, sib) := f.ctx;
    ghost var pt := Join(ps, Red, f.sub, p, sib);
    root.Read(up, Bin(Black, u, g, pt));
    root.Read(Hole(up, Left, Black, g, pt), u);
    root.Read(f.ctx, f.sub);
    var uncle := gparent.left;
    if uncle != null && uncle.color == Red {
      Recolor(root, parent, gparent, uncle, f);
      return gparent;
    }
    if parent.left == node {
      ghost var ctx1 := Hole(Hole(up, Right, Black, g, u), Right, Red, node, f.sub.left);
      ghost var f1 := Focus(ctx1, Bin(Red, f.sub.right, p, sib));
      root.RotateRight(parent, f.ctx.up, pt);
      InnerFocus(f, f1);
      LiftRight(root, node, gparent, f1);
      return parent;
    }
    LiftRight(root, parent, gparent, f);
    return node;
  }

  /** One turn of the loop, below a red parent. */
  method Turn(root: RbRoot, node: RbNode, ghost f: Focus<RbNode>) returns (next: RbNode)
    requires root.Sound() && InsertOk(f) && InsertBusy(f.ctx) && root.tree == Plug(f.ctx, f.sub) && node == f.sub.node
    modifies root, root.rank.Keys
    ensures root.Sound() && root.rank == old(root.rank)
    ensures root.tree == Plug(InsertStep(f).ctx, InsertStep(f).sub) && InsertStep(f).sub.node == next
    ensures root.turned == old(root.turned) + InsertStepRotations(f)
  {
    root.Read(f.ctx, f.sub);
    root.Read(f.ctx.up, Join(f.ctx.side, Red, f.sub, f.ctx.node, f.ctx.sib));
    var parent := node.parent;
    var gparent := parent.parent;
    if parent == gparent.left {
      next := TurnLeft(root, node, parent, gparent, f);
    } else {
      next := TurnRight(root, node, parent, gparent, f);
    }
  }

  /** `rb_set_black` on the root's node. */
  method BlackenRoot(root: RbRoot)
    requires root.Sound() && root.node != null
    modifies root, root.rank.Keys
    ensures root.Sound() && root.rank == old(root.rank) && root.tree == Blacken(old(root.tree))
    ensures root.turned == old(root.turned)
  {
    root.Read(Top, root.tree);
    root.SetColor(root.node, Black, Top, root.tree);
  }

  /** `rb_insert_color`: repairs the tree around the freshly linked red node. */
  method InsertColor(x: RbNode, root: RbRoot, ghost f0: Focus<RbNode>)
    requires root.Sound() && InsertOk(f0) && root.tree == Plug(f0.ctx, f0.sub) && x == f0.sub.node
    modifies root, root.rank.Keys
    ensures root.Sound() && root.rank == old(root.rank)
    ensures root.tree == InsertFix(f0)
    ensures root.turned == old(root.turned) + InsertRotations(f0)
  {
    var node := x;
    ghost var f := f0;
    root.Read(f.ctx, f.sub);
    while node.parent != null && node.parent.color == Red
      invariant root.Sound() && root.rank == old(root.rank)
      invariant InsertOk(f) && root.tree == Plug(f.ctx, f.sub) && node == f.sub.node
      invariant InsertFix(f) == InsertFix(f0) && root.node != null
      invariant root.turned + InsertRotations(f) == old(root.turned) + InsertRotations(f0)
      invariant node.parent == Parent(f.ctx) && (f.ctx.Hole? ==> f.ctx.node.color == f.ctx.color)
      decreases Depth(f.ctx)
    {
      InsertStepOk(f);
      node := Turn(root, node, f);
      f := InsertStep(f);
      root.Read(f.ctx, f.sub);
    }
    BlackenRoot(root);
  }
}

/** The intrusive red-black tree on the heap. The ghost field `tree` of the root is the
    tree the links spell out; every method says which tree it leaves, in terms of RbSpec. */
module RbTree {
  import opened RbSpec
  import opened RbCells

  class RbRoot {
    var node: RbNode?
    ghost var tree: Tree<RbNode>
    ghost var rank: map<RbNode, real>
    /** How many rotations there were. */
    ghost var turned: nat

    /** What the links contain now. */
    ghost function Now(): (m: Memory)
      reads `node, `rank, rank.Keys
      ensures m.cells.Keys == rank.Keys
    {
      Memory(node, map n | n in rank :: Cell(rank[n], n.parent, n.color, n.left, n.right))
    }

    /** The links spell out `tree`. */
    ghost predicate Sound()
      reads `node, `tree, `rank, rank.Keys
    {
      Laid(Now(), Top, tree)
    }

    // ----- from links to cells -----

    ghost predicate Has(n: RbNode, c: Cell)
      reads n
    {
      n.parent == c.parent && n.color == c.color && n.left == c.left && n.right == c.right
    }

    /** The fields of the root of `t` are as `t` says, below `p`. */
    ghost predicate RootIs(t: Tree<RbNode>, p: RbNode?)
      reads Root(t)
    {
      t.Bin? ==> Has(t.node, Cell(0.0, p, t.color, Root(t.left), Root(t.right)))
    }

    /** The link into the hole of `k` leads to `n`. */
    ghost predicate HoleIs(k: Ctx<RbNode>, n: RbNode?)
      reads `node, Parent(k)
    {
      if k.Top? then node == n else Has(k.node, HoleCell(0.0, k, n))
    }

    /** Since `m`, at most the nodes in `touched` and the root's link were rewritten. */
    ghost predicate Since(m: Memory, touched: set<RbNode?>)
      reads `rank, rank.Keys
    {
      forall n :: n in m.cells && n !in touched ==> n in rank && rank[n] == m.cells[n].rank && Has(n, m.cells[n])
    }

    /** The nodes are those of `m` and keep their ranks. */
    ghost predicate Ranks(m: Memory)
      reads `rank
    {
      rank.Keys == m.cells.Keys && forall n :: n in rank ==> rank[n] == m.cells[n].rank
    }

    lemma {:induction false} NowSameBut(m: Memory, touched: set<RbNode?>)
      requires Since(m, touched)
      ensures SameBut(m, Now(), touched)
    {
    }

    lemma {:induction false} NowRooted(m: Memory, t: Tree<RbNode>, p: RbNode?)
      requires RootIs(t, p) && (t.Bin? ==> t.node in rank && rank[t.node] == RbCells.Rank(m, t.node))
      ensures Rooted(m, Now(), t, p)
    {
    }

    lemma {:induction false} NowLinked(m: Memory, k: Ctx<RbNode>, n: RbNode?)
      requires HoleIs(k, n) && (k.Hole? ==> node == m.top && k.node in rank && rank[k.node] == RbCells.Rank(m, k.node))
      ensures Linked(m, Now(), k, n)
    {
    }

    lemma {:induction false} GroundedLinks(k: Ctx<RbNode>, t: Tree<RbNode>)
      requires Laid(Now(), k, t) && t.Bin?
      ensures t.node in rank && RootIs(t, Parent(k)) && HoleIs(k, t.node) && RootIs(t.left, t.node)
      ensures RootIs(t.right, t.node)
      ensures Grounded(Now(), k, t)
      ensures k.Hole? ==> k.node in rank
    {
      LaidGrounded(Now(), k, t);
    }

    constructor ()
      ensures Sound() && tree == Leaf && rank == map[] && turned == 0
    {
      node, tree, rank, turned := null, Leaf, map[], 0;
    }

    // ----- rotations -----

    /** `__rb_rotate_left`, link by link. */
    method RotateLeftLinks(x: RbNode, ghost k: Ctx<RbNode>, ghost t: Tree<RbNode>)
      requires t.Bin? && t.node == x && t.right.Bin?
      requires LeftReady(k, t)
      modifies `node, x, t.right.node, Root(t.right.left), Parent(k)
      ensures var t' := RbSpec.RotateLeft(t);
        RootIs(t', Parent(k)) && RootIs(t'.left, t'.node) && RootIs(t'.left.right, x) && HoleIs(k, t'.node)
      ensures k.Hole? ==> node == old(node)
    {
      var right := x.right;
      var parent := x.parent;
      x.right := right.left;
      if x.right != null {
        right.left.parent := x;
      }
      right.left := x;
      right.parent := parent;
      if parent != null {
        if x == parent.left {
          parent.left := right;
        } else {
          parent.right := right;
        }
      } else {
        node := right;
      }
      x.parent := right;
    }

    lemma {:induction false} RotatedLeft(m: Memory, k: Ctx<RbNode>, t: Tree<RbNode>)
      requires Laid(m, k, t) && t.Bin? && t.right.Bin?
      requires var t' := RbSpec.RotateLeft(t);
        && RootIs(t', Parent(k)) && RootIs(t'.left, t'.node) && RootIs(t'.left.right, t.node) && HoleIs(k, t'.node)
        && Since(m, Around(k, t, Right))
      requires Ranks(m) && (k.Hole? ==> node == m.top)
      ensures Laid(Now(), Top, Plug(k, RbSpec.RotateLeft(t)))
    {
      var t', b := RbSpec.RotateLeft(t), t.right.left;
      assert Around(k, t, Right) == {t'.node, t.node, Root(b), Parent(k)};
      LaidGrounded(m, k, t);
      LaidGrounded(m, Hole(k, Right, t.color, t.node, t.left), t.right);
      NowSameBut(m, {t'.node, t.node, Root(b), Parent(k)});
      NowRooted(m, t', Parent(k));
      NowRooted(m, t'.left, t'.node);
      NowRooted(m, b, t.node);
      NowLinked(m, k, t'.node);
      RotateLeftLaid(m, Now(), k, t);
      LaidPlug(Now(), k, t');
    }

    /** The same, and since `m` nothing else was rewritten. */
    method RotateLeftFramed(x: RbNode, ghost m: Memory, ghost k: Ctx<RbNode>, ghost t: Tree<RbNode>)
      requires t.Bin? && t.node == x && t.right.Bin? && LeftReady(k, t) && Since(m, {}) && Ranks(m)
      modifies `node, x, t.right.node, Root(t.right.left), Parent(k)
      ensures var t' := RbSpec.RotateLeft(t);
        RootIs(t', Parent(k)) && RootIs(t'.left, t'.node) && RootIs(t'.left.right, x) && HoleIs(k, t'.node)
      ensures Since(m, Around(k, t, Right)) && (k.Hole? ==> node == old(node))
    {
      RotateLeftLinks(x, k, t);
    }

    /** Record the rotated tree. */
    ghost method RecordLeft(m: Memory, k: Ctx<RbNode>, t: Tree<RbNode>)
      requires Laid(m, k, t) && t.Bin? && t.right.Bin?
      requires var t' := RbSpec.RotateLeft(t);
        && RootIs(t', Parent(k)) && RootIs(t'.left, t'.node) && RootIs(t'.left.right, t.node) && HoleIs(k, t'.node)
        && Since(m, Around(k, t, Right))
      requires Ranks(m) && (k.Hole? ==> node == m.top)
      modifies `tree, `turned
      ensures Sound() && tree == Plug(k, RbSpec.RotateLeft(t)) && turned == old(turned) + 1
    {
      tree, turned := Plug(k, RbSpec.RotateLeft(t)), turned + 1;
      RotatedLeft(m, k, t);
    }

    /** The links that a left rotation of `t` at `k` reads, before it. */
    ghost predicate LeftReady(k: Ctx<RbNode>, t: Tree<RbNode>)
      requires t.Bin? && t.right.Bin?
      reads `node, t.node, t.right.node, Root(t.right.left), Parent(k)
    {
      var x, y, b := t.node, t.right.node, t.right.left;
      && RootIs(t, Parent(k)) && RootIs(t.right, x) && RootIs(b, y) && HoleIs(k, x)
      && x != y && Parent(k) !in {x, y} && (k.Hole? ==> Root(k.sib) != x)
      && (b.Bin? ==> b.node !in {x, y, Parent(k)})
    }

    /** The same, with the rotated tree recorded. */
    method RotateLeftRecorded(x: RbNode, ghost m: Memory, ghost k: Ctx<RbNode>, ghost t: Tree<RbNode>)
      requires t.Bin? && t.node == x && t.right.Bin? && LeftReady(k, t) && Laid(m, k, t) && Since(m, {}) && Ranks(m)
      requires (k.Top? || node == m.top)
      modifies `node, `tree, `turned, x, t.right.node, Root(t.right.left), Parent(k)
      ensures Sound() && tree == Plug(k, RbSpec.RotateLeft(t)) && rank == old(rank) && turned == old(turned) + 1
      ensures Since(m, Around(k, t, Right)) && (k.Hole? ==> node == old(node))
    {
      RotateLeftFramed(x, m, k, t);
      RecordLeft(m, k, t);
    }

    lemma {:induction false} RotateLeftReady(k: Ctx<RbNode>, t: Tree<RbNode>)
      requires Sound() && tree == Plug(k, t) && t.Bin? && t.right.Bin?
      ensures LeftReady(k, t) && Laid(Now(), k, t) && Since(Now(), {}) && Ranks(Now())
      ensures t.node in rank && t.right.node in rank && (k.Hole? ==> k.node in rank)
      ensures (t.right.left.Bin? ==> t.right.left.node in rank)
    {
      LaidPlug(Now(), k, t);
      GroundedLinks(k, t);
      GroundedLinks(Hole(k, Right, t.color, t.node, t.left), t.right);
    }

    method RotateLeft(x: RbNode, ghost k: Ctx<RbNode>, ghost t: Tree<RbNode>)
      requires Sound() && tree == Plug(k, t) && t.Bin? && t.node == x && t.right.Bin?
      modifies this, rank.Keys
      ensures Sound() && tree == Plug(k, RbSpec.RotateLeft(t)) && rank == old(rank)
      ensures turned == old(turned) + 1
      ensures Since(old(Now()), Around(k, t, Right))
      ensures k.Hole? ==> node == old(node)
    {
      ghost var m := Now();
      RotateLeftReady(k, t);
      RotateLeftRecorded(x, m, k, t);
    }

    /** `__rb_rotate_right`, link by link. */
    method RotateRightLinks(x: RbNode, ghost k: Ctx<RbNode>, ghost t: Tree<RbNode>)
      requires t.Bin? && t.node == x && t.left.Bin?
      requires RightReady(k, t)
      modifies `node, x, t.left.node, Root(t.left.right), Parent(k)
      ensures var t' := RbSpec.RotateRight(t);
        RootIs(t', Parent(k)) && RootIs(t'.right, t'.node) && RootIs(t'.right.left, x) && HoleIs(k, t'.node)
      ensures k.Hole? ==> node == old(node)
    {
      var left := x.left;
      var parent := x.parent;
      x.left := left.right;
      if x.left != null {
        left.right.parent := x;
      }
      left.right := x;
      left.parent := parent;
      if parent != null {
        if x == parent.right {
          parent.right := left;
        } else {
          parent.left := left;
        }
      } else {
        node := left;
      }
      x.parent := left;
    }

    lemma {:induction false} RotatedRight(m: Memory, k: Ctx<RbNode>, t: Tree<RbNode>)
      requires Laid(m, k, t) && t.Bin? && t.left.Bin?
      requires var t' := RbSpec.RotateRight(t);
        && RootIs(t', Parent(k)) && RootIs(t'.right, t'.node) && RootIs(t'.right.left, t.node) && HoleIs(k, t'.node)
        && Since(m, Around(k, t, Left))
      requires Ranks(m) && (k.Hole? ==> node == m.top)
      ensures Laid(Now(), Top, Plug(k, RbSpec.RotateRight(t)))
    {
      var t', b := RbSpec.RotateRight(t), t.left.right;
      assert Around(k, t, Left) == {t'.node, t.node, Root(b), Parent(k)};
      LaidGrounded(m, k, t);
      LaidGrounded(m, Hole(k, Left, t.color, t.node, t.right), t.left);
      NowSameBut(m, {t'.node, t.node, Root(b), Parent(k)});
      NowRooted(m, t', Parent(k));
      NowRooted(m, t'.right, t'.node);
      NowRooted(m, b, t.node);
      NowLinked(m, k, t'.node);
      RotateRightLaid(m, Now(), k, t);
      LaidPlug(Now(), k, t');
    }

    /** The same, and since `m` nothing else was rewritten. */
    method RotateRightFramed(x: RbNode, ghost m: Memory, ghost k: Ctx<RbNode>, ghost t: Tree<RbNode>)
      requires t.Bin? && t.node == x && t.left.Bin? && RightReady(k, t) && Since(m, {}) && Ranks(m)
      modifies `node, x, t.left.node, Root(t.left.right), Parent(k)
      ensures var t' := RbSpec.RotateRight(t);
        RootIs(t', Parent(k)) && RootIs(t'.right, t'.node) && RootIs(t'.right.left, x) && HoleIs(k, t'.node)
      ensures Since(m, Around(k, t, Left)) && (k.Hole? ==> node == old(node))
    {
      RotateRightLinks(x, k, t);
    }

    /** Record the rotated tree. */
    ghost method RecordRight(m: Memory, k: Ctx<RbNode>, t: Tree<RbNode>)
      requires Laid(m, k, t) && t.Bin? && t.left.Bin?
      requires var t' := RbSpec.RotateRight(t);
        && RootIs(t', Parent(k)) && RootIs(t'.right, t'.node) && RootIs(t'.right.left, t.node) && HoleIs(k, t'.node)
        && Since(m, Around(k, t, Left))
      requires Ranks(m) && (k.Hole? ==> node == m.top)
      modifies `tree, `turned
      ensures Sound() && tree == Plug(k, RbSpec.RotateRight(t)) && turned == old(turned) + 1
    {
      tree, turned := Plug(k, RbSpec.RotateRight(t)), turned + 1;
      RotatedRight(m, k, t);
    }

    /** The links that a right rotation of `t` at `k` reads, before it. */
    ghost predicate RightReady(k: Ctx<RbNode>, t: Tree<RbNode>)
      requires t.Bin? && t.left.Bin?
      reads `node, t.node, t.left.node, Root(t.left.right), Parent(k)
    {
      var x, y, b := t.node, t.left.node, t.left.right;
      && RootIs(t, Parent(k)) && RootIs(t.left, x) && RootIs(b, y) && HoleIs(k, x)
      && x != y && Parent(k) !in {x, y} && (k.Hole? ==> Root(k.sib) != x)
      && (b.Bin? ==> b.node !in {x, y, Parent(k)})
    }

    /** The same, with the rotated tree recorded. */
    method RotateRightRecorded(x: RbNode, ghost m: Memory, ghost k: Ctx<RbNode>, ghost t: Tree<RbNode>)
      requires t.Bin? && t.node == x && t.left.Bin? && RightReady(k, t) && Laid(m, k, t) && Since(m, {}) && Ranks(m)
      requires (k.Top? || node == m.top)
      modifies `node, `tree, `turned, x, t.left.node, Root(t.left.right), Parent(k)
      ensures Sound() && tree == Plug(k, RbSpec.RotateRight(t)) && rank == old(rank) && turned == old(turned) + 1
      ensures Since(m, Around(k, t, Left)) && (k.Hole? ==> node == old(node))
    {
      RotateRightFramed(x, m, k, t);
      RecordRight(m, k, t);
    }

    lemma {:induction false} RotateRightReady(k: Ctx<RbNode>, t: Tree<RbNode>)
      requires Sound() && tree == Plug(k, t) && t.Bin? && t.left.Bin?
      ensures RightReady(k, t) && Laid(Now(), k, t) && Since(Now(), {}) && Ranks(Now())
      ensures t.node in rank && t.left.node in rank && (k.Hole? ==> k.node in rank)
      ensures (t.left.right.Bin? ==> t.left.right.node in rank)
    {
      LaidPlug(Now(), k, t);
      GroundedLinks(k, t);
      GroundedLinks(Hole(k, Left, t.color, t.node, t.right), t.left);
    }

    method RotateRight(x: RbNode, ghost k: Ctx<RbNode>, ghost t: Tree<RbNode>)
      requires Sound() && tree == Plug(k, t) && t.Bin? && t.node == x && t.left.Bin?
      modifies this, rank.Keys
      ensures Sound() && tree == Plug(k, RbSpec.RotateRight(t)) && rank == old(rank)
      ensures turned == old(turned) + 1
      ensures Since(old(Now()), Around(k, t, Left))
      ensures k.Hole? ==> node == old(node)
    {
      ghost var m := Now();
      RotateRightReady(k, t);
      RotateRightRecorded(x, m, k, t);
    }

    // ----- colours -----

    lemma {:induction false} Recolored(m: Memory, k: Ctx<RbNode>, t: Tree<RbNode>, c: Color)
      requires Laid(m, k, t) && t.Bin? && RootIs(t.(color := c), Parent(k)) && Since(m, {t.node}) && Ranks(m)
      requires node == m.top
      ensures Laid(Now(), Top, Plug(k, t.(color := c)))
    {
      NowSameBut(m, {t.node});
      NowRooted(m, t.(color := c), Parent(k));
      RecolorLaid(m, Now(), k, t, c);
      LaidPlug(Now(), k, t.(color := c));
    }

    lemma {:induction false} RecolorReady(k: Ctx<RbNode>, t: Tree<RbNode>)
      requires Sound() && tree == Plug(k, t) && t.Bin?
      ensures RootIs(t, Parent(k)) && t.node in rank && Laid(Now(), k, t)
    {
      LaidPlug(Now(), k, t);
      GroundedLinks(k, t);
    }

    /** `rb_set_red`, `rb_set_black` and `rb_set_color`. */
    method SetColor(x: RbNode, c: Color, ghost k: Ctx<RbNode>, ghost t: Tree<RbNode>)
      requires Sound() && tree == Plug(k, t) && t.Bin? && t.node == x
      modifies this, rank.Keys
      ensures Sound() && tree == Plug(k, t.(color := c)) && rank == old(rank)
      ensures turned == old(turned)
    {
      ghost var m := Now();
      RecolorReady(k, t);
      x.color := c;
      tree := Plug(k, t.(color := c));
      Recolored(m, k, t, c);
    }

    // ----- reading -----

    lemma {:induction false} Read(k: Ctx<RbNode>, t: Tree<RbNode>)
      requires Sound() && tree == Plug(k, t)
      ensures t.Bin? ==> t.node in rank && RootIs(t, Parent(k)) && (t.node == node <==> k.Top?)
      ensures k.Hole? ==> k.node in rank && HoleIs(k, Root(t))
      ensures k.Hole? || t.Bin? ==> node != null
      ensures k.Top? ==> node == Root(t)
      ensures t.Bin? && k.Hole? ==> Root(k.sib) != t.node
    {
      LaidPlug(Now(), k, t);
      if t.Bin? {
        GroundedLinks(k, t);
      }
      if k.Hole? {
        CtxTop(Now(), k, Root(t));
      }
    }
  }
}

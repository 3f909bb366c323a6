/** `rb_replace_node`, and the part of `rb_erase` that puts the successor in the place of
    the erased node. Both give `y` the place, the colour and the subtrees of `x`. */
module RbReplace {
  import opened RbSpec
  import opened RbCells
  import opened RbTree

  /** The links around the root of `t` before it is replaced. */
  ghost predicate Ready(root: RbRoot, k: Ctx<RbNode>, t: Tree<RbNode>)
    requires t.Bin?
    reads root`node, t.node, Root(t.left), Root(t.right), Parent(k)
  {
    && root.RootIs(t, Parent(k)) && root.RootIs(t.left, t.node) && root.RootIs(t.right, t.node)
    && root.HoleIs(k, t.node)
    && t.node !in {Root(t.left), Root(t.right)} && (t.left.Bin? ==> Root(t.left) != Root(t.right))
    && (k.Hole? ==> k.node !in {t.node, Root(t.left), Root(t.right)} && Root(k.sib) != t.node)
  }

  /** The links after `y` took the place of the root of `t`. */
  ghost predicate Replaced(root: RbRoot, k: Ctx<RbNode>, t: Tree<RbNode>, y: RbNode)
    requires t.Bin?
    reads root`node, y, Root(t.left), Root(t.right), Parent(k)
  {
    root.RootIs(t.(node := y), Parent(k)) && root.RootIs(t.left, y) && root.RootIs(t.right, y) && root.HoleIs(k, y)
  }

  lemma {:induction false} ReplaceReady(root: RbRoot, k: Ctx<RbNode>, t: Tree<RbNode>)
    requires root.Sound() && root.tree == Plug(k, t) && t.Bin?
    ensures Ready(root, k, t) && Laid(root.Now(), k, t) && t.node in root.rank
    ensures (t.left.Bin? ==> t.left.node in root.rank) && (t.right.Bin? ==> t.right.node in root.rank)
    ensures k.Hole? ==> k.node in root.rank
    ensures root.Since(root.Now(), {}) && root.Ranks(root.Now())
  {
    LaidPlug(root.Now(), k, t);
    root.GroundedLinks(k, t);
  }

  lemma {:induction false} ReplacedSound(root: RbRoot, m: Memory, k: Ctx<RbNode>, t: Tree<RbNode>, y: RbNode)
    requires Laid(m, k, t) && t.Bin? && y !in m.cells && Replaced(root, k, t, y)
    requires root.Since(m, {t.node, Root(t.left), Root(t.right), Parent(k)}) && (k.Hole? ==> root.node == m.top)
    requires forall n :: n in m.cells && n != t.node ==> n in root.rank && root.rank[n] == m.cells[n].rank
    requires y in root.rank && t.node in m.cells && root.rank[y] == m.cells[t.node].rank
    ensures Laid(root.Now(), Top, Plug(k, t.(node := y)))
  {
    LaidGrounded(m, k, t);
    root.NowSameBut(m, {t.node, Root(t.left), Root(t.right), Parent(k)});
    root.NowRooted(m, t.left, y);
    root.NowRooted(m, t.right, y);
    root.NowLinked(m, k, y);
    ReplaceLaid(m, root.Now(), k, t, y);
    LaidPlug(root.Now(), k, t.(node := y));
  }

  /** Record that `y` took the place and the rank of the root of `t`. */
  ghost method Record(root: RbRoot, m: Memory, k: Ctx<RbNode>, t: Tree<RbNode>, y: RbNode)
    requires Laid(m, k, t) && t.Bin? && root.Ranks(m) && y !in root.rank && t.node in root.rank
    requires Replaced(root, k, t, y)
    requires root.Since(m, {t.node, Root(t.left), Root(t.right), Parent(k)}) && (k.Hole? ==> root.node == m.top)
    modifies root`rank, root`tree
    ensures root.Sound() && root.tree == Plug(k, t.(node := y))
    ensures root.rank.Keys == m.cells.Keys - {t.node} + {y}
  {
    root.rank := (root.rank - {t.node})[y := root.rank[t.node]];
    root.tree := Plug(k, t.(node := y));
    ReplacedSound(root, m, k, t, y);
  }

  /** `rb_replace_node`, link by link. */
  method ReplaceNodeLinks(victim: RbNode, y: RbNode, root: RbRoot, ghost k: Ctx<RbNode>, ghost t: Tree<RbNode>)
    requires t.Bin? && victim == t.node && Ready(root, k, t)
    requires y !in {victim, Root(t.left), Root(t.right), Parent(k)}
    modifies root`node, y, Root(t.left), Root(t.right), Parent(k)
    ensures Replaced(root, k, t, y)
    ensures k.Hole? ==> root.node == old(root.node)
  {
    var parent := victim.parent;
    if parent != null {
      if victim == parent.left {
        parent.left := y;
      } else {
        parent.right := y;
      }
    } else {
      root.node := y;
    }
    if victim.left != null {
      victim.left.parent := y;
    }
    if victim.right != null {
      victim.right.parent := y;
    }
    y.parent, y.color, y.right, y.left := victim.parent, victim.color, victim.right, victim.left;
  }

  /** The same, in the order in which `rb_erase` does it; `x` has a left child. */
  method SpliceLinks(x: RbNode, y: RbNode, root: RbRoot, ghost k: Ctx<RbNode>, ghost t: Tree<RbNode>)
    requires t.Bin? && x == t.node && t.left.Bin? && Ready(root, k, t)
    requires y !in {x, Root(t.left), Root(t.right), Parent(k)}
    modifies root`node, y, Root(t.left), Root(t.right), Parent(k)
    ensures Replaced(root, k, t, y)
    ensures k.Hole? ==> root.node == old(root.node)
  {
    y.parent, y.color := x.parent, x.color;
    y.right := x.right;
    y.left := x.left;
    if x.parent != null {
      if x.parent.left == x {
        x.parent.left := y;
      } else {
        x.parent.right := y;
      }
    } else {
      root.node := y;
    }
    x.left.parent := y;
    if x.right != null {
      x.right.parent := y;
    }
  }

  /** The same, with the new tree recorded. */
  method ReplaceNodeRecorded(victim: RbNode, y: RbNode, root: RbRoot, ghost m: Memory, ghost k: Ctx<RbNode>,
                             ghost t: Tree<RbNode>)
    requires t.Bin? && victim == t.node && Ready(root, k, t) && Laid(m, k, t) && root.Since(m, {}) && root.Ranks(m)
    requires victim in root.rank && y !in root.rank && y !in {Root(t.left), Root(t.right), Parent(k)}
    requires (k.Top? || root.node == m.top)
    modifies root, y, Root(t.left), Root(t.right), Parent(k)
    ensures root.Sound() && root.tree == Plug(k, t.(node := y))
    ensures root.rank.Keys == m.cells.Keys - {victim} + {y}
    ensures root.turned == old(root.turned)
  {
    ReplaceNodeLinks(victim, y, root, k, t);
    Record(root, m, k, t, y);
  }

  /** The same, with the new tree recorded. */
  method SpliceRecorded(x: RbNode, y: RbNode, root: RbRoot, ghost m: Memory, ghost k: Ctx<RbNode>,
                        ghost t: Tree<RbNode>)
    requires t.Bin? && x == t.node && t.left.Bin? && Ready(root, k, t) && Laid(m, k, t) && root.Since(m, {})
    requires root.Ranks(m)
    requires x in root.rank && y !in root.rank && y !in {Root(t.left), Root(t.right), Parent(k)}
    requires (k.Top? || root.node == m.top)
    modifies root, y, Root(t.left), Root(t.right), Parent(k)
    ensures root.Sound() && root.tree == Plug(k, t.(node := y))
    ensures root.rank.Keys == m.cells.Keys - {x} + {y}
    ensures root.turned == old(root.turned)
  {
    SpliceLinks(x, y, root, k, t);
    Record(root, m, k, t, y);
  }

  /** `rb_replace_node`. */
  method ReplaceNode(victim: RbNode, y: RbNode, root: RbRoot, ghost k: Ctx<RbNode>, ghost t: Tree<RbNode>)
    requires root.Sound() && root.tree == Plug(k, t) && t.Bin? && t.node == victim && y !in root.rank
    modifies root, root.rank.Keys, y
    ensures root.Sound() && root.tree == Plug(k, t.(node := y))
    ensures root.rank.Keys == old(root.rank.Keys) - {victim} + {y}
    ensures root.turned == old(root.turned)
  {
    ghost var m := root.Now();
    ReplaceReady(root, k, t);
    ReplaceNodeRecorded(victim, y, root, m, k, t);
  }

  method Splice(x: RbNode, y: RbNode, root: RbRoot, ghost k: Ctx<RbNode>, ghost t: Tree<RbNode>)
    requires root.Sound() && root.tree == Plug(k, t) && t.Bin? && t.node == x && t.left.Bin? && y !in root.rank
    modifies root, root.rank.Keys, y
    ensures root.Sound() && root.tree == Plug(k, t.(node := y))
    ensures root.rank.Keys == old(root.rank.Keys) - {x} + {y}
    ensures root.turned == old(root.turned)
  {
    ghost var m := root.Now();
    ReplaceReady(root, k, t);
    SpliceRecorded(x, y, root, m, k, t);
  }
}

/** `rb_first`, `rb_last`, `rb_next` and `rb_prev`: the links visit the in-order sequence. */
module RbWalk {
  import opened RbSpec
  import opened RbCells
  import opened RbTree

  /** Walk down the left links. */
  method Leftmost(start: RbNode, root: RbRoot, ghost k: Ctx<RbNode>, ghost t: Tree<RbNode>) returns (node: RbNode)
    requires root.Sound() && t.Bin? && start == t.node && root.tree == Plug(k, t)
    ensures node == LeftSpine(t, k).sub.node && |Inorder(t)| > 0 && node == Inorder(t)[0]
  {
    node := start;
    ghost var f := Focus(k, t);
    root.Read(k, t);
    while node.left != null
      invariant f.sub.Bin? && root.tree == Plug(f.ctx, f.sub) && node == f.sub.node && root.RootIs(f.sub, Parent(f.ctx))
      invariant LeftSpine(f.sub, f.ctx) == LeftSpine(t, k)
      decreases f.sub
    {
      node := node.left;
      f := Focus(Hole(f.ctx, Left, f.sub.color, f.sub.node, f.sub.right), f.sub.left);
      root.Read(f.ctx, f.sub);
    }
    LeftSpineFirst(t, k);
  }

  lemma {:induction false} LeftSpineFirst(t: Tree<RbNode>, k: Ctx<RbNode>)
    requires t.Bin?
    ensures |Inorder(t)| > 0 && LeftSpine(t, k).sub.node == Inorder(t)[0]
  {
    if t.left.Bin? {
      LeftSpineFirst(t.left, Hole(k, Left, t.color, t.node, t.right));
    }
  }

  /** Walk down the right links. */
  method Rightmost(start: RbNode, root: RbRoot, ghost k: Ctx<RbNode>, ghost t: Tree<RbNode>) returns (node: RbNode)
    requires root.Sound() && t.Bin? && start == t.node && root.tree == Plug(k, t)
    ensures |Inorder(t)| > 0 && node == Inorder(t)[|Inorder(t)| - 1]
  {
    node := start;
    ghost var f := Focus(k, t);
    root.Read(k, t);
    while node.right != null
      invariant f.sub.Bin? && root.tree == Plug(f.ctx, f.sub) && node == f.sub.node && root.RootIs(f.sub, Parent(f.ctx))
      invariant |Inorder(t)| > 0 && Inorder(f.sub)[|Inorder(f.sub)| - 1] == Inorder(t)[|Inorder(t)| - 1]
      decreases f.sub
    {
      node := node.right;
      f := Focus(Hole(f.ctx, Right, f.sub.color, f.sub.node, f.sub.left), f.sub.right);
      root.Read(f.ctx, f.sub);
    }
  }

  /** `rb_first`. */
  method First(root: RbRoot) returns (n: RbNode?)
    requires root.Sound()
    ensures n == if Inorder(root.tree) == [] then null else Inorder(root.tree)[0]
  {
    root.Read(Top, root.tree);
    n := root.node;
    if n == null {
      return null;
    }
    n := Leftmost(n, root, Top, root.tree);
  }

  /** `rb_last`. */
  method Last(root: RbRoot) returns (n: RbNode?)
    requires root.Sound()
    ensures var s := Inorder(root.tree); n == if s == [] then null else s[|s| - 1]
  {
    root.Read(Top, root.tree);
    n := root.node;
    if n == null {
      return null;
    }
    n := Rightmost(n, root, Top, root.tree);
  }

  /** Where the `i`th node of the sequence is in the tree; its parent link does not lead back to itself. */
  lemma {:induction false} Position(root: RbRoot, i: nat) returns (k: Ctx<RbNode>, t: Tree<RbNode>)
    requires root.Sound() && i < |Inorder(root.tree)|
    ensures root.tree == Plug(k, t) && t.Bin? && t.node == Inorder(root.tree)[i] && |Before(k)| + |Inorder(t.left)| == i
    ensures Inorder(root.tree) == Before(k) + Inorder(t) + After(k)
    ensures t.node in root.rank && root.RootIs(t, Parent(k)) && t.node.parent != t.node
  {
    k, t := Locate(root.tree, i);
    InorderPlug(k, t);
    root.Read(k, t);
    LaidPlug(root.Now(), k, t);
    root.GroundedLinks(k, t);
  }

  /** `x` is the `i`th node of the tree. */
  ghost predicate IsAt(root: RbRoot, x: RbNode, i: nat)
    reads root, root.rank.Keys
  {
    root.Sound() && i < |Inorder(root.tree)| && x == Inorder(root.tree)[i]
  }

  /** `rb_next`. A node that `RB_CLEAR_NODE` made its own parent is in no tree and has no successor. */
  method Next(x: RbNode, root: RbRoot, ghost i: nat) returns (n: RbNode?)
    requires x.parent == x || IsAt(root, x, i)
    ensures x.parent == x ==> n == null
    ensures var s := Inorder(root.tree); IsAt(root, x, i) ==> n == if i + 1 < |s| then s[i + 1] else null
  {
    if x.parent == x {
      if IsAt(root, x, i) {
        ghost var k, t := Position(root, i);
      }
      return null;
    }
    ghost var k, t := Position(root, i);
    if x.right != null {
      ghost var kr := Hole(k, Right, t.color, x, t.left);
      n := Leftmost(x.right, root, kr, t.right);
      return n;
    }
    assert Inorder(t) == Inorder(t.left) + [x];
    var node := x;
    root.Read(k, t);
    while node.parent != null && node == node.parent.right
      invariant root.tree == Plug(k, t) && t.Bin? && node == t.node && node.parent == Parent(k) && root.HoleIs(k, node)
      invariant |Before(k)| + |Inorder(t)| == i + 1
      invariant k.Hole? ==> Root(k.sib) != node
      decreases k
    {
      node := node.parent;
      t, k := Join(k.side, k.color, t, k.node, k.sib), k.up;
      root.Read(k, t);
    }
    InorderPlug(k, t);
    n := node.parent;
  }

  /** `rb_prev`. */
  method Prev(x: RbNode, root: RbRoot, ghost i: nat) returns (n: RbNode?)
    requires x.parent == x || IsAt(root, x, i)
    ensures x.parent == x ==> n == null
    ensures IsAt(root, x, i) ==> n == if i > 0 then Inorder(root.tree)[i - 1] else null
  {
    if x.parent == x {
      if IsAt(root, x, i) {
        ghost var k, t := Position(root, i);
      }
      return null;
    }
    ghost var k, t := Position(root, i);
    if x.left != null {
      ghost var kl := Hole(k, Left, t.color, x, t.right);
      n := Rightmost(x.left, root, kl, t.left);
      return n;
    }
    var node := x;
    root.Read(k, t);
    while node.parent != null && node == node.parent.left
      invariant root.tree == Plug(k, t) && t.Bin? && node == t.node && node.parent == Parent(k) && root.HoleIs(k, node)
      invariant |Before(k)| == i
      invariant k.Hole? ==> Root(k.sib) != node
      decreases k
    {
      node := node.parent;
      t, k := Join(k.side, k.color, t, k.node, k.sib), k.up;
      root.Read(k, t);
    }
    InorderPlug(k, t);
    n := node.parent;
  }

  /** The usual loop over a tree meets every node once, in order, and stops. */
  method Walk(root: RbRoot) returns (visited: seq<RbNode>)
    requires root.Sound()
    ensures visited == Inorder(root.tree)
  {
    visited := [];
    var n := First(root);
    while n != null
      invariant visited <= Inorder(root.tree)
      invariant n == if |visited| < |Inorder(root.tree)| then Inorder(root.tree)[|visited|] else null
      decreases |Inorder(root.tree)| - |visited|
    {
      visited := visited + [n];
      n := Next(n, root, |visited| - 1);
    }
  }

  method WalkBack(root: RbRoot) returns (visited: seq<RbNode>)
    requires root.Sound()
    ensures |visited| == |Inorder(root.tree)|
    ensures forall i :: 0 <= i < |visited| ==> visited[i] == Inorder(root.tree)[|visited| - 1 - i]
  {
    visited := [];
    ghost var s := Inorder(root.tree);
    var n := Last(root);
    while n != null
      invariant |visited| <= |s| && forall i :: 0 <= i < |visited| ==> visited[i] == s[|s| - 1 - i]
      invariant n == if |visited| < |s| then s[|s| - 1 - |visited|] else null
      decreases |s| - |visited|
    {
      visited := visited + [n];
      n := Prev(n, root, |s| - |visited|);
    }
  }

  /** `rb_prev(rb_next(x)) == x` wherever there is a next node. */
  method ForthAndBack(x: RbNode, root: RbRoot, ghost i: nat) returns (n: RbNode?, back: RbNode?)
    requires IsAt(root, x, i)
    ensures n != null ==> back == x
    ensures n == null <==> i == |Inorder(root.tree)| - 1
  {
    n := Next(x, root, i);
    back := null;
    if n != null {
      back := Prev(n, root, i + 1);
    }
  }
}

/** The tree as its users see it: operations on a sequence of nodes, and runs of them. */
module RbRuns {
  import opened RbSpec
  import opened RbCells
  import opened RbTree
  import opened RbInsert
  import opened RbReplace
  import opened RbWalk
  import opened Seqs
  import RbErase

  ghost function Contents(root: RbRoot): seq<RbNode>
    reads root
  {
    Inorder(root.tree)
  }

  /** A red-black tree, soundly linked, whose nodes are exactly those of its sequence. */
  ghost predicate Valid(root: RbRoot)
    reads root, root.rank.Keys
  {
    root.Sound() && RbValid(root.tree) && root.rank.Keys == Elements(Contents(root))
  }

  lemma {:induction false} ElementsWithout<T>(s: seq<T>, i: nat)
    requires i < |s| && NoRepeat(s)
    ensures Elements(s[..i] + s[i + 1..]) == Elements(s) - {s[i]}
  {
    var r := s[..i] + s[i + 1..];
    forall n | n in s && n != s[i] ensures n in r {
      var j :| 0 <= j < |s| && s[j] == n;
      assert n == if j < i then r[j] else r[j - 1];
    }
  }

  lemma {:induction false} ElementsWith<T>(a: seq<T>, x: T, b: seq<T>)
    ensures Elements(a + [x] + b) == Elements(a + b) + {x}
  {
  }

  lemma {:induction false} ElementsReplaced<T>(s: seq<T>, i: nat, y: T)
    requires i < |s| && NoRepeat(s)
    ensures Elements(s[i := y]) == Elements(s) - {s[i]} + {y}
  {
    var r := s[i := y];
    forall n | n in s && n != s[i] ensures n in r {
      var j :| 0 <= j < |s| && s[j] == n;
      assert r[j] == n;
    }
    assert r[i] == y;
  }

  lemma {:induction false} SpellsSorted(m: Memory, t: Tree<RbNode>, p: RbNode?, lo: real, hi: real)
    requires Spells(m, t, p, lo, hi)
    ensures forall i :: 0 <= i < |Inorder(t)| ==> lo < Rank(m, Inorder(t)[i]) < hi
    ensures forall i, j :: 0 <= i < j < |Inorder(t)| ==> Rank(m, Inorder(t)[i]) < Rank(m, Inorder(t)[j])
  {
    if t.Bin? {
      SpellsSorted(m, t.left, t.node, lo, Rank(m, t.node));
      SpellsSorted(m, t.right, t.node, Rank(m, t.node), hi);
    }
  }

  /** No node is in the tree twice. */
  lemma {:induction false} SoundNoRepeat(root: RbRoot)
    requires root.Sound()
    ensures NoRepeat(Contents(root))
  {
    SpellsSorted(root.Now(), root.tree, null, 0.0, 1.0);
  }

  /** What is not in the sequence is no node of the tree. */
  lemma {:induction false} Outside(root: RbRoot, x: RbNode)
    requires Valid(root)
    ensures x in Contents(root) <==> x in root.rank
  {
  }

  /** `rb_link_node` at the empty position `k`, then `rb_insert_color`. */
  method Insert(x: RbNode, parent: RbNode?, link: Link, root: RbRoot, ghost k: Ctx<RbNode>)
    requires Valid(root) && root.tree == Plug(k, Leaf) && parent == Parent(k) && LinkOf(k, link) && x !in Contents(root)
    modifies root, root.rank.Keys, x
    ensures Valid(root) && root.tree == RbSpec.Insert(k, x)
    ensures old(Contents(root)) == Before(k) + After(k) && Contents(root) == Before(k) + [x] + After(k)
    ensures root.rank.Keys == old(root.rank.Keys) + {x}
    ensures root.turned <= old(root.turned) + 2
  {
    Outside(root, x);
    InsertCorrect(k, x);
    ElementsWith(Before(k), x, After(k));
    PlugRb(k, Leaf);
    LinkNode(x, parent, link, root, k);
    AtMostTwoRotations(Focus(k, Bin(Red, Leaf, x, Leaf)));
    InsertColor(x, root, Focus(k, Bin(Red, Leaf, x, Leaf)));
  }

  /** `rb_erase` of the `i`th node. */
  method Erase(x: RbNode, root: RbRoot, ghost i: nat)
    requires Valid(root) && i < |Contents(root)| && x == Contents(root)[i]
    modifies root, root.rank.Keys
    ensures Valid(root) && Contents(root) == old(Contents(root)[..i] + Contents(root)[i + 1..])
    ensures root.rank.Keys == old(root.rank.Keys) - {x}
    ensures root.turned <= old(root.turned) + 3
  {
    SoundNoRepeat(root);
    ElementsWithout(Contents(root), i);
    ghost var k, t := Locate(root.tree, i);
    EraseAt(k, t, i);
    RbErase.Erase(x, root, k, t);
  }

  /** `rb_replace_node` of the `i`th node. */
  method Replace(victim: RbNode, y: RbNode, root: RbRoot, ghost i: nat)
    requires Valid(root) && i < |Contents(root)| && victim == Contents(root)[i] && y !in Contents(root)
    modifies root, root.rank.Keys, y
    ensures Valid(root) && Contents(root) == old(Contents(root))[i := y]
    ensures root.rank.Keys == old(root.rank.Keys) - {victim} + {y}
    ensures root.turned == old(root.turned)
  {
    Outside(root, y);
    SoundNoRepeat(root);
    ElementsReplaced(Contents(root), i, y);
    ghost var k, t := Locate(root.tree, i);
    ReplaceAt(k, t, y, i);
    ReplaceNode(victim, y, root, k, t);
  }

  /** The empty position before all nodes. */
  lemma {:induction false} GapFirst(tree: Tree<RbNode>) returns (gap: Ctx<RbNode>)
    ensures tree == Plug(gap, Leaf) && Before(gap) == [] && After(gap) == Inorder(tree)
    ensures if tree.Leaf? then gap.Top?
            else gap.Hole? && gap.side == Left && Inorder(tree) != [] && gap.node == Inorder(tree)[0]
  {
    gap := Top;
    if tree.Bin? {
      var f := LeftSpine(tree, Top);
      LeftSpineCorrect(tree, Top);
      LeftSpineFirst(tree, Top);
      gap := Hole(f.ctx, Left, f.sub.color, f.sub.node, f.sub.right);
      InorderPlug(gap, Leaf);
    }
  }

  /** Link `x` before all nodes, as a caller of `rb_first` does. */
  method InsertFirst(x: RbNode, root: RbRoot)
    requires Valid(root) && x !in Contents(root)
    modifies root, root.rank.Keys, x
    ensures Valid(root) && Contents(root) == [x] + old(Contents(root))
    ensures root.rank.Keys == old(root.rank.Keys) + {x}
    ensures root.turned <= old(root.turned) + 2
  {
    ghost var gap := GapFirst(root.tree);
    assert Before(gap) + [x] + After(gap) == [x] + Contents(root);
    var first := First(root);
    if first == null {
      Insert(x, null, RootLink, root, gap);
    } else {
      Insert(x, first, ChildLink(Left), root, gap);
    }
  }

  /** The empty position right after the `i`th node. */
  lemma {:induction false} GapAfter(tree: Tree<RbNode>, i: nat)
    returns (k: Ctx<RbNode>, t: Tree<RbNode>, gap: Ctx<RbNode>)
    requires i < |Inorder(tree)|
    ensures tree == Plug(k, t) && t.Bin? && t.node == Inorder(tree)[i]
    ensures gap.Hole? && tree == Plug(gap, Leaf) && Before(gap) == Inorder(tree)[..i + 1]
    ensures After(gap) == Inorder(tree)[i + 1..]
    ensures if t.right.Leaf? then gap.side == Right && gap.node == t.node
            else gap.side == Left && i + 1 < |Inorder(tree)| && gap.node == Inorder(tree)[i + 1]
  {
    k, t := Locate(tree, i);
    var kr := Hole(k, Right, t.color, t.node, t.left);
    gap := kr;
    if t.right.Bin? {
      var f := LeftSpine(t.right, kr);
      LeftSpineCorrect(t.right, kr);
      gap := Hole(f.ctx, Left, f.sub.color, f.sub.node, f.sub.right);
      assert After(gap)[0] == f.sub.node;
    }
    InorderPlug(k, t);
    InorderPlug(gap, Leaf);
    assert Before(gap) == Before(k) + Inorder(t.left) + [t.node];
    assert Inorder(tree) == Before(gap) + After(gap);
  }

  /** Link `x` right after the `i`th node, as a caller of `rb_next` does. */
  method InsertAfter(x: RbNode, after: RbNode, root: RbRoot, ghost i: nat)
    requires Valid(root) && x !in Contents(root) && i < |Contents(root)| && after == Contents(root)[i]
    modifies root, root.rank.Keys, x
    ensures Valid(root)
    ensures Contents(root) == old(Contents(root))[..i + 1] + [x] + old(Contents(root))[i + 1..]
    ensures root.rank.Keys == old(root.rank.Keys) + {x}
    ensures root.turned <= old(root.turned) + 2
  {
    ghost var k, t, gap := GapAfter(root.tree, i);
    root.Read(k, t);
    if after.right == null {
      Insert(x, after, ChildLink(Right), root, gap);
    } else {
      var next := Next(after, root, i);
      Insert(x, next, ChildLink(Left), root, gap);
    }
  }

  // ----- runs -----

  datatype Op =
    | PutFirst(x: RbNode)
    | PutAfter(after: RbNode, x: RbNode)
    | Remove(x: RbNode)
    | Substitute(victim: RbNode, x: RbNode)

  ghost function IndexOf<T>(s: seq<T>, x: T): (i: nat)
    requires x in s
    ensures i < |s| && s[i] == x
  {
    if s[0] == x then 0 else 1 + IndexOf(s[1..], x)
  }

  /** The operation on a plain sequence. */
  ghost predicate Legal(op: Op, s: seq<RbNode>) {
    match op
    case PutFirst(x) => x !in s
    case PutAfter(after, x) => after in s && x !in s
    case Remove(x) => x in s
    case Substitute(victim, x) => victim in s && x !in s
  }

  ghost function Apply(op: Op, s: seq<RbNode>): seq<RbNode>
    requires Legal(op, s)
  {
    match op
    case PutFirst(x) => [x] + s
    case PutAfter(after, x) => var i := IndexOf(s, after); s[..i + 1] + [x] + s[i + 1..]
    case Remove(x) => var i := IndexOf(s, x); s[..i] + s[i + 1..]
    case Substitute(victim, x) => s[IndexOf(s, victim) := x]
  }

  ghost predicate LegalRun(ops: seq<Op>, s: seq<RbNode>) {
    ops == [] || (Legal(ops[0], s) && LegalRun(ops[1..], Apply(ops[0], s)))
  }

  ghost function ApplyAll(ops: seq<Op>, s: seq<RbNode>): seq<RbNode>
    requires LegalRun(ops, s)
  {
    if ops == [] then s else ApplyAll(ops[1..], Apply(ops[0], s))
  }

  function Named(ops: seq<Op>): set<RbNode> {
    set i | 0 <= i < |ops| :: ops[i].x
  }

  method Perform(op: Op, root: RbRoot)
    requires Valid(root) && Legal(op, Contents(root))
    modifies root, root.rank.Keys, op.x
    ensures Valid(root) && Contents(root) == Apply(op, old(Contents(root)))
    ensures root.rank.Keys <= old(root.rank.Keys) + {op.x}
    ensures root.turned <= old(root.turned) + 3
  {
    match op {
      case PutFirst(x) => InsertFirst(x, root);
      case PutAfter(after, x) => InsertAfter(x, after, root, IndexOf(Contents(root), after));
      case Remove(x) => Erase(x, root, IndexOf(Contents(root), x));
      case Substitute(victim, x) => Replace(victim, x, root, IndexOf(Contents(root), victim));
    }
  }

  /** Any run from an empty root ends in a valid red-black tree of logarithmic height
      that holds what the same run leaves in a plain sequence. */
  method Run(ops: seq<Op>) returns (root: RbRoot)
    requires LegalRun(ops, [])
    modifies Named(ops)
    ensures fresh(root) && Valid(root) && Contents(root) == ApplyAll(ops, [])
    ensures Pow2(Height(root.tree)) <= (|Contents(root)| + 1) * (|Contents(root)| + 1)
    ensures root.turned <= 3 * |ops|
  {
    root := new RbRoot();
    var i := 0;
    while i < |ops|
      invariant 0 <= i <= |ops| && fresh(root) && Valid(root) && root.rank.Keys <= Named(ops)
      invariant root.turned <= 3 * i
      invariant LegalRun(ops[i..], Contents(root)) && ApplyAll(ops[i..], Contents(root)) == ApplyAll(ops, [])
    {
      Perform(ops[i], root);
      i := i + 1;
    }
    HeightLogarithmic(root.tree);
  }

  // ----- rotations undo each other -----

  /** Two memories in which the same tree is laid out, with the same ranks and the same nodes
      outside a rotation, are the same. */
  lemma {:induction false} SameAround(m: Memory, m': Memory, k: Ctx<RbNode>, t: Tree<RbNode>, s: Side)
    requires t.Bin? && Child(t, s).Bin? && Laid(m, k, t) && Laid(m', k, t)
    requires m.cells.Keys == m'.cells.Keys && forall n :: n in m.cells ==> Rank(m, n) == Rank(m', n)
    requires SameBut(m, m', Around(k, t, s)) && (k.Hole? ==> m.top == m'.top)
    ensures m == m'
  {
    var inner := Hole(k, s, t.color, t.node, Child(t, Opp(s)));
    LaidGrounded(m, k, t);
    LaidGrounded(m', k, t);
    LaidGrounded(m, inner, Child(t, s));
    LaidGrounded(m', inner, Child(t, s));
    forall n | n in m.cells ensures m.cells[n] == m'.cells[n] {
      assert n !in Around(k, t, s) ==> Agree(m, m', n);
    }
  }

  lemma {:induction false} SameButTwice(m: Memory, m1: Memory, m2: Memory, touched: set<RbNode?>)
    requires m.cells.Keys == m1.cells.Keys && SameBut(m, m1, touched) && SameBut(m1, m2, touched)
    ensures SameBut(m, m2, touched)
  {
    forall n | n in m.cells && n !in touched ensures Agree(m, m2, n) {
      assert Agree(m, m1, n) && Agree(m1, m2, n);
    }
  }

  /** A left rotation and a right rotation at the same place restore every link and colour, in
      any soundly linked tree; in the fix-up loops the tree is not red-black. */
  method RotateThereAndBack(x: RbNode, y: RbNode, root: RbRoot, ghost k: Ctx<RbNode>, ghost t: Tree<RbNode>)
    requires root.Sound() && root.tree == Plug(k, t) && t.Bin? && t.node == x && t.right.Bin? && t.right.node == y
    modifies root, root.rank.Keys
    ensures root.Now() == old(root.Now()) && root.tree == old(root.tree)
  {
    ghost var m, touched := root.Now(), Around(k, t, Right);
    RotateInverse(t);
    LaidPlug(m, k, t);
    root.RotateLeft(x, k, t);
    ghost var m1 := root.Now();
    root.NowSameBut(m, touched);
    root.RotateRight(y, k, RbSpec.RotateLeft(t));
    root.NowSameBut(m1, touched);
    LaidPlug(root.Now(), k, t);
    SameButTwice(m, m1, root.Now(), touched);
    SameAround(m, root.Now(), k, t, Right);
  }

  method RotateBackAndThere(x: RbNode, y: RbNode, root: RbRoot, ghost k: Ctx<RbNode>, ghost t: Tree<RbNode>)
    requires root.Sound() && root.tree == Plug(k, t) && t.Bin? && t.node == x && t.left.Bin? && t.left.node == y
    modifies root, root.rank.Keys
    ensures root.Now() == old(root.Now()) && root.tree == old(root.tree)
  {
    ghost var m, touched := root.Now(), Around(k, t, Left);
    RotateInverse(t);
    LaidPlug(m, k, t);
    root.RotateRight(x, k, t);
    ghost var m1 := root.Now();
    root.NowSameBut(m, touched);
    root.RotateLeft(y, k, RbSpec.RotateRight(t));
    root.NowSameBut(m1, touched);
    LaidPlug(root.Now(), k, t);
    SameButTwice(m, m1, root.Now(), touched);
    SameAround(m, root.Now(), k, t, Left);
  }
}

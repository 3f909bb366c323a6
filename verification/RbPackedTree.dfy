/** The rotation program on packed words rotates the tree that the links and the words spell out. */
module RbPackedTree {
  import opened RbSpec
  import opened RbPacked

  /** All links of a tree whose nodes are numbers, with the child links by side. */
  datatype Links = Links(up: seq<Ref>, down: seq<Ref>, root: Ref, nodes: seq<NodeFields>)

  function LinksOf(s: Rotation, nodes: seq<NodeFields>): Links {
    Links(s.up, s.down, s.root, nodes)
  }

  function RefOf(t: Tree<nat>): Ref {
    if t.Leaf? then Null else At(t.node)
  }

  function ParentRef(k: Ctx<nat>): Ref {
    if k.Top? then Null else At(k.node)
  }

  function Nodes(t: Tree<nat>): set<nat> {
    if t.Leaf? then {} else Nodes(t.left) + {t.node} + Nodes(t.right)
  }

  function CtxNodes(k: Ctx<nat>): set<nat> {
    if k.Top? then {} else CtxNodes(k.up) + {k.node} + Nodes(k.sib)
  }

  /** No node is in the tree twice. */
  predicate Distinct(t: Tree<nat>) {
    t.Bin? ==>
      && t.node !in Nodes(t.left) && t.node !in Nodes(t.right) && Nodes(t.left) !! Nodes(t.right)
      && Distinct(t.left) && Distinct(t.right)
  }

  predicate InBounds(l: Links, n: nat) {
    n < |l.nodes| && |l.up| == |l.down| == |l.nodes|
  }

  /** The links spell out `t` below `p`; `up` has the children on side `side`. */
  predicate Reads(l: Links, side: Side, t: Tree<nat>, p: Ref) {
    t.Bin? ==>
      && InBounds(l, t.node) && l.nodes[t.node] == NodeFields(p, t.color)
      && l.up[t.node] == RefOf(Child(t, side)) && l.down[t.node] == RefOf(Child(t, Opp(side)))
      && Reads(l, side, t.left, At(t.node)) && Reads(l, side, t.right, At(t.node))
  }

  /** They spell out `k`, up to the root's link, round a subtree whose root is `r`. */
  predicate CtxReads(l: Links, side: Side, k: Ctx<nat>, r: Ref) {
    if k.Top? then l.root == r
    else
      && InBounds(l, k.node) && l.nodes[k.node] == NodeFields(ParentRef(k.up), k.color)
      && (if k.side == side then l.up[k.node] == r && l.down[k.node] == RefOf(k.sib)
          else l.down[k.node] == r && l.up[k.node] == RefOf(k.sib))
      && Reads(l, side, k.sib, At(k.node)) && CtxReads(l, side, k.up, At(k.node))
  }

  lemma {:induction false} ReadsPlug(l: Links, side: Side, k: Ctx<nat>, t: Tree<nat>)
    ensures Reads(l, side, Plug(k, t), Null) && l.root == RefOf(Plug(k, t)) <==>
      Reads(l, side, t, ParentRef(k)) && CtxReads(l, side, k, RefOf(t))
  {
    if k.Hole? {
      ReadsPlug(l, side, k.up, Join(k.side, k.color, t, k.node, k.sib));
    }
  }

  lemma {:induction false} NodesPlug(k: Ctx<nat>, t: Tree<nat>)
    requires Distinct(Plug(k, t))
    ensures Distinct(t) && CtxNodes(k) !! Nodes(t)
    ensures k.Hole? ==> k.node !in Nodes(k.sib) && CtxNodes(k.up) !! Nodes(k.sib) && k.node !in CtxNodes(k.up)
  {
    if k.Hole? {
      NodesPlug(k.up, Join(k.side, k.color, t, k.node, k.sib));
    }
  }

  // ----- framing -----

  predicate SameAt(l: Links, l': Links, n: nat) {
    InBounds(l, n) ==> InBounds(l', n) && l'.up[n] == l.up[n] && l'.down[n] == l.down[n] && l'.nodes[n] == l.nodes[n]
  }

  lemma {:induction false} ReadsFrame(l: Links, l': Links, side: Side, t: Tree<nat>, p: Ref)
    requires Reads(l, side, t, p) && forall n :: n in Nodes(t) ==> SameAt(l, l', n)
    ensures Reads(l', side, t, p)
  {
    if t.Bin? {
      assert SameAt(l, l', t.node);
      ReadsFrame(l, l', side, t.left, At(t.node));
      ReadsFrame(l, l', side, t.right, At(t.node));
    }
  }

  /** Only the parent of the root of `t` was rewritten. */
  lemma {:induction false} ReadsReparented(l: Links, l': Links, side: Side, t: Tree<nat>, p: Ref, p': Ref)
    requires Distinct(t) && Reads(l, side, t, p)
    requires forall n :: n in Nodes(t) && n != t.node ==> SameAt(l, l', n)
    requires t.Bin? ==> InBounds(l', t.node) && l'.nodes[t.node] == NodeFields(p', t.color)
    requires t.Bin? ==> l'.up[t.node] == l.up[t.node] && l'.down[t.node] == l.down[t.node]
    ensures Reads(l', side, t, p')
  {
    if t.Bin? {
      ReadsFrame(l, l', side, t.left, At(t.node));
      ReadsFrame(l, l', side, t.right, At(t.node));
    }
  }

  lemma {:induction false} CtxFrame(l: Links, l': Links, side: Side, k: Ctx<nat>, r: Ref)
    requires CtxReads(l, side, k, r) && l'.root == l.root && forall n :: n in CtxNodes(k) ==> SameAt(l, l', n)
    ensures CtxReads(l', side, k, r)
  {
    if k.Hole? {
      assert SameAt(l, l', k.node);
      ReadsFrame(l, l', side, k.sib, At(k.node));
      CtxFrame(l, l', side, k.up, At(k.node));
    }
  }

  /** Only the link into the hole was rewritten. */
  lemma {:induction false} CtxRelinked(l: Links, l': Links, side: Side, k: Ctx<nat>, r: Ref, r': Ref)
    requires CtxReads(l, side, k, r) && (if k.Top? then l'.root == r' else l'.root == l.root)
    requires k.Hole? ==> k.node !in Nodes(k.sib) && k.node !in CtxNodes(k.up)
    requires forall n :: n in CtxNodes(k) && (k.Top? || n != k.node) ==> SameAt(l, l', n)
    requires k.Hole? ==> InBounds(l', k.node) && l'.nodes[k.node] == l.nodes[k.node]
    requires k.Hole? && k.side == side ==> l'.up[k.node] == r' && l'.down[k.node] == l.down[k.node]
    requires k.Hole? && k.side != side ==> l'.down[k.node] == r' && l'.up[k.node] == l.up[k.node]
    ensures CtxReads(l', side, k, r')
  {
    if k.Hole? {
      ReadsFrame(l, l', side, k.sib, At(k.node));
      CtxFrame(l, l', side, k.up, At(k.node));
    }
  }

  // ----- the rotation -----

  function Rotated(side: Side, t: Tree<nat>): Tree<nat>
    requires t.Bin? && Child(t, side).Bin?
  {
    if side == Right then RotateLeft(t) else RotateRight(t)
  }

  /** The links after a rotation of `t`, as the program leaves them. */
  ghost predicate Turned(s: Rotation, s': Rotation, nodes: seq<NodeFields>, nodes': seq<NodeFields>, x: nat, y: nat)
    requires Linked(s, nodes) && AllKnown(nodes, |nodes|) && x < |nodes| && y < |nodes|
  {
    LinksRotated(s, s', x, y, nodes[x].parent) && nodes' == RotatedParents(x, y, s.down[y], nodes)
  }

  /** Nodes that the rotation does not concern. */
  lemma {:induction false} TurnedFrame(s: Rotation, s': Rotation, nodes: seq<NodeFields>, nodes': seq<NodeFields>,
                                       x: nat, y: nat, n: nat)
    requires Linked(s, nodes) && AllKnown(nodes, |nodes|) && x < |nodes| && y < |nodes|
    requires Turned(s, s', nodes, nodes', x, y)
    requires n != x && n != y && s.down[y] != At(n) && nodes[x].parent != At(n)
    ensures SameAt(LinksOf(s, nodes), LinksOf(s', nodes'), n)
  {
  }

  /** The two nodes that change places, and the root of the subtree that moves across. */
  lemma {:induction false} TurnedNodes(s: Rotation, s': Rotation, nodes: seq<NodeFields>, nodes': seq<NodeFields>,
                                       x: nat, y: nat)
    requires Linked(s, nodes) && AllKnown(nodes, |nodes|) && x < |nodes| && y < |nodes| && x != y
    requires Turned(s, s', nodes, nodes', x, y)
    requires s.down[y] != At(x) && s.down[y] != At(y)
    requires nodes[x].parent != At(x) && nodes[x].parent != At(y)
    requires nodes[x].parent.At? ==> nodes[x].parent != s.down[y]
    ensures |nodes'| == |nodes| == |s'.up| == |s'.down|
    ensures nodes'[x] == NodeFields(At(y), nodes[x].color) && nodes'[y] == NodeFields(nodes[x].parent, nodes[y].color)
    ensures s'.up[x] == s.down[y] && s'.down[x] == s.down[x] && s'.up[y] == s.up[y] && s'.down[y] == At(x)
    ensures s.down[y].At? ==> var b := s.down[y].n;
      nodes'[b] == NodeFields(At(x), nodes[b].color) && s'.up[b] == s.up[b] && s'.down[b] == s.down[b]
  {
  }

  /** The three subtrees that a rotation of `t` keeps. */
  lemma {:induction false} SubtreesTurned(s: Rotation, s': Rotation, nodes: seq<NodeFields>, nodes': seq<NodeFields>,
                       side: Side, t: Tree<nat>, p: Ref)
    requires Linked(s, nodes) && AllKnown(nodes, |nodes|) && t.Bin? && Child(t, side).Bin? && Distinct(t)
    requires Reads(LinksOf(s, nodes), side, t, p) && (p.At? ==> p.n !in Nodes(t))
    requires Turned(s, s', nodes, nodes', t.node, Child(t, side).node)
    ensures var u, l' := Child(t, side), LinksOf(s', nodes');
      && Reads(l', side, Child(t, Opp(side)), At(t.node)) && Reads(l', side, Child(u, side), At(u.node))
      && Reads(l', side, Child(u, Opp(side)), At(t.node))
  {
    var l, l' := LinksOf(s, nodes), LinksOf(s', nodes');
    var u := Child(t, side);
    var x, y, a, b, c := t.node, u.node, Child(t, Opp(side)), Child(u, Opp(side)), Child(u, side);
    assert Reads(l, side, u, At(x)) && Reads(l, side, a, At(x)) && Reads(l, side, b, At(y)) && Reads(l, side, c, At(y));
    TurnedNodes(s, s', nodes, nodes', x, y);
    forall n | n in Nodes(a) + Nodes(c) ensures SameAt(l, l', n) {
      TurnedFrame(s, s', nodes, nodes', x, y, n);
    }
    forall n | n in Nodes(b) && n != b.node ensures SameAt(l, l', n) {
      TurnedFrame(s, s', nodes, nodes', x, y, n);
    }
    ReadsFrame(l, l', side, a, At(x));
    ReadsFrame(l, l', side, c, At(y));
    ReadsReparented(l, l', side, b, At(y), At(x));
  }

  lemma {:induction false} SubtreeTurned(s: Rotation, s': Rotation, nodes: seq<NodeFields>, nodes': seq<NodeFields>,
                      side: Side, t: Tree<nat>, p: Ref)
    requires Linked(s, nodes) && AllKnown(nodes, |nodes|) && t.Bin? && Child(t, side).Bin? && Distinct(t)
    requires Reads(LinksOf(s, nodes), side, t, p) && (p.At? ==> p.n !in Nodes(t))
    requires Turned(s, s', nodes, nodes', t.node, Child(t, side).node)
    ensures Reads(LinksOf(s', nodes'), side, Rotated(side, t), p)
  {
    var l := LinksOf(s, nodes);
    var u := Child(t, side);
    assert Reads(l, side, u, At(t.node));
    SubtreesTurned(s, s', nodes, nodes', side, t, p);
    TurnedNodes(s, s', nodes, nodes', t.node, u.node);
  }

  /** On the numbers of the nodes: the program leaves the links of the rotated tree. */
  lemma {:induction false} TreeTurned(s: Rotation, s': Rotation, nodes: seq<NodeFields>, nodes': seq<NodeFields>,
                   side: Side, k: Ctx<nat>, t: Tree<nat>)
    requires Linked(s, nodes) && AllKnown(nodes, |nodes|) && t.Bin? && Child(t, side).Bin? && Distinct(Plug(k, t))
    requires Reads(LinksOf(s, nodes), side, t, ParentRef(k)) && CtxReads(LinksOf(s, nodes), side, k, At(t.node))
    requires Turned(s, s', nodes, nodes', t.node, Child(t, side).node)
    ensures Reads(LinksOf(s', nodes'), side, Rotated(side, t), ParentRef(k))
    ensures CtxReads(LinksOf(s', nodes'), side, k, At(Child(t, side).node))
  {
    NodesPlug(k, t);
    SubtreeTurned(s, s', nodes, nodes', side, t, ParentRef(k));
    var l, l' := LinksOf(s, nodes), LinksOf(s', nodes');
    var x, y := t.node, Child(t, side).node;
    forall n | n in CtxNodes(k) && (k.Top? || n != k.node) ensures SameAt(l, l', n) {
      TurnedFrame(s, s', nodes, nodes', x, y, n);
    }
    CtxRelinked(l, l', side, k, At(x), At(y));
  }

  /** On packed words: `__rb_rotate_left` (`side` right) and `__rb_rotate_right` (`side` left) turn links and words that
      spell a tree into ones that spell the tree of `RotateLeft` and `RotateRight`, from the root's link on. */
  lemma {:induction false} PackedRotationTurns(at: seq<Word>, s: Rotation, words: seq<Word>, side: Side, k: Ctx<nat>,
                                               t: Tree<nat>)
    requires Addresses(at) && |words| == |at| && Linked(s, View(at, words)) && s.pc == 0
    requires t.Bin? && Child(t, side).Bin? && s.node == t.node && Distinct(Plug(k, t))
    requires var l := LinksOf(s, View(at, words)); Reads(l, side, Plug(k, t), Null) && l.root == RefOf(Plug(k, t))
    ensures var done := ExecuteWords(Rotate, at, 4, s, words);
      var l := LinksOf(done.0, View(at, done.1));
      Reads(l, side, Plug(k, Rotated(side, t)), Null) && l.root == RefOf(Plug(k, Rotated(side, t)))
  {
    var nodes := View(at, words);
    var done := ExecuteWords(Rotate, at, 4, s, words);
    ViewKnown(at, words);
    ReadsPlug(LinksOf(s, nodes), side, k, t);
    NodesPlug(k, t);
    PackedRotation(at, s, words);
    TreeTurned(s, done.0, nodes, View(at, done.1), side, k, t);
    ReadsPlug(LinksOf(done.0, View(at, done.1)), side, k, Rotated(side, t));
  }
}

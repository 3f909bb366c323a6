/** What the links of a red-black tree contain when they spell out a given tree.
    Memory is a value here: a root link and a cell for every node. Besides the four
    fields a cell has a rank, chosen when the node is linked; ranks grow along the
    in-order sequence, so that subtrees live in disjoint intervals of ranks. */
module RbCells {
  import opened RbSpec

  class RbNode {
    var parent: RbNode?
    var color: Color
    var right: RbNode?
    var left: RbNode?

    constructor ()
    {
      parent, color, right, left := null, Red, null, null;
    }
  }

  datatype Cell = Cell(rank: real, parent: RbNode?, color: Color, left: RbNode?, right: RbNode?)

  datatype Memory = Memory(top: RbNode?, cells: map<RbNode, Cell>)

  function Root(t: Tree<RbNode>): RbNode? {
    if t.Leaf? then null else t.node
  }

  function Parent(k: Ctx<RbNode>): RbNode? {
    if k.Top? then null else k.node
  }

  ghost function Rank(m: Memory, n: RbNode): real {
    if n in m.cells then m.cells[n].rank else 0.0
  }

  /** The cells spell out `t` below `p`, with ranks between `lo` and `hi`. */
  ghost predicate Spells(m: Memory, t: Tree<RbNode>, p: RbNode?, lo: real, hi: real) {
    match t
    case Leaf => true
    case Bin(c, l, x, r) =>
      && x in m.cells && lo < Rank(m, x) < hi
      && m.cells[x] == Cell(Rank(m, x), p, c, Root(l), Root(r))
      && Spells(m, l, x, lo, Rank(m, x)) && Spells(m, r, x, Rank(m, x), hi)
  }

  /** The interval of ranks left for the hole of `k`. */
  ghost function Lo(m: Memory, k: Ctx<RbNode>): real {
    match k
    case Top => 0.0
    case Hole(up, s, _, x, _) => if s == Left then Lo(m, up) else Rank(m, x)
  }

  ghost function Hi(m: Memory, k: Ctx<RbNode>): real {
    match k
    case Top => 1.0
    case Hole(up, s, _, x, _) => if s == Left then Rank(m, x) else Hi(m, up)
  }

  function HoleCell(rank: real, k: Ctx<RbNode>, n: RbNode?): Cell
    requires k.Hole?
  {
    if k.side == Left then Cell(rank, Parent(k.up), k.color, n, Root(k.sib))
    else Cell(rank, Parent(k.up), k.color, Root(k.sib), n)
  }

  /** The cells spell out `k`, up to the root's link, around a subtree rooted at `n`. */
  ghost predicate CtxSpells(m: Memory, k: Ctx<RbNode>, n: RbNode?) {
    match k
    case Top => m.top == n
    case Hole(up, s, _, x, sib) =>
      && x in m.cells && Lo(m, up) < Rank(m, x) < Hi(m, up)
      && m.cells[x] == HoleCell(Rank(m, x), k, n)
      && (if s == Left then Spells(m, sib, x, Rank(m, x), Hi(m, up)) else Spells(m, sib, x, Lo(m, up), Rank(m, x)))
      && CtxSpells(m, up, x)
  }

  /** The tree `t` in the hole of `k`, spelled out. */
  ghost predicate Laid(m: Memory, k: Ctx<RbNode>, t: Tree<RbNode>) {
    Spells(m, t, Parent(k), Lo(m, k), Hi(m, k)) && CtxSpells(m, k, Root(t))
  }

  lemma {:induction false} LaidPlug(m: Memory, k: Ctx<RbNode>, t: Tree<RbNode>)
    ensures Laid(m, Top, Plug(k, t)) <==> Laid(m, k, t)
  {
    match k
    case Top =>
    case Hole(up, s, c, x, sib) =>
      LaidPlug(m, up, Join(s, c, t, x, sib));
  }

  /** The root of `t`, its children and the link that leads to it are in place. */
  ghost predicate Grounded(m: Memory, k: Ctx<RbNode>, t: Tree<RbNode>)
    requires t.Bin?
  {
    && Rooted(m, m, t, Parent(k)) && Rooted(m, m, t.left, t.node) && Rooted(m, m, t.right, t.node)
    && Linked(m, m, k, t.node)
    && t.node !in {Root(t.left), Root(t.right)} && (t.left.Bin? ==> Root(t.left) != Root(t.right))
    && (k.Hole? ==> k.node !in {t.node, Root(t.left), Root(t.right)} && Root(k.sib) != t.node)
  }

  lemma {:induction false} LaidGrounded(m: Memory, k: Ctx<RbNode>, t: Tree<RbNode>)
    requires Laid(m, k, t) && t.Bin?
    ensures Grounded(m, k, t)
    ensures t.left.Bin? ==> Laid(m, Hole(k, Left, t.color, t.node, t.right), t.left)
    ensures t.right.Bin? ==> Laid(m, Hole(k, Right, t.color, t.node, t.left), t.right)
  {
    assert k.Hole? ==> Rank(m, k.node) == Lo(m, k) || Rank(m, k.node) == Hi(m, k);
    assert Spells(m, t.left, t.node, Lo(m, k), Rank(m, t.node));
    assert Spells(m, t.right, t.node, Rank(m, t.node), Hi(m, k));
  }

  // ----- framing -----

  ghost predicate Agree(m: Memory, m': Memory, n: RbNode) {
    n in m.cells ==> n in m'.cells && m'.cells[n] == m.cells[n]
  }

  lemma {:induction false} Frame(m: Memory, m': Memory, t: Tree<RbNode>, p: RbNode?, lo: real, hi: real)
    requires Spells(m, t, p, lo, hi)
    requires forall n :: n in m.cells && lo < Rank(m, n) < hi ==> Agree(m, m', n)
    ensures Spells(m', t, p, lo, hi)
  {
    if t.Bin? {
      assert Agree(m, m', t.node);
      Frame(m, m', t.left, t.node, lo, Rank(m, t.node));
      Frame(m, m', t.right, t.node, Rank(m, t.node), hi);
    }
  }

  /** Changes inside the hole, or to its own root link, do not matter to the context. */
  lemma {:induction false} CtxFrame(m: Memory, m': Memory, k: Ctx<RbNode>, n: RbNode?)
    requires CtxSpells(m, k, n) && m.top == m'.top
    requires forall n :: n in m.cells && !(Lo(m, k) < Rank(m, n) < Hi(m, k)) ==> Agree(m, m', n)
    ensures CtxSpells(m', k, n) && Lo(m', k) == Lo(m, k) && Hi(m', k) == Hi(m, k)
    ensures Lo(m, k) < Hi(m, k)
  {
    if k.Hole? {
      CtxFrame(m, m', k.up, k.node);
      assert Agree(m, m', k.node);
      if k.side == Left {
        Frame(m, m', k.sib, k.node, Rank(m, k.node), Hi(m, k.up));
      } else {
        Frame(m, m', k.sib, k.node, Lo(m, k.up), Rank(m, k.node));
      }
    }
  }

  /** Below a proper context the root link leads to a node outside the hole. */
  lemma {:induction false} CtxTop(m: Memory, k: Ctx<RbNode>, n: RbNode?)
    requires CtxSpells(m, k, n) && k.Hole?
    ensures m.top != null && !(Lo(m, k) < Rank(m, m.top) < Hi(m, k))
    ensures Lo(m, k.up) <= Lo(m, k) && Hi(m, k) <= Hi(m, k.up)
  {
    if k.up.Hole? {
      CtxTop(m, k.up, k.node);
    }
  }

  /** In `m'` the root of `t` has its fields as `t` says, below `p`. */
  ghost predicate Rooted(m: Memory, m': Memory, t: Tree<RbNode>, p: RbNode?) {
    t.Bin? ==> t.node in m'.cells && m'.cells[t.node] == Cell(Rank(m, t.node), p, t.color, Root(t.left), Root(t.right))
  }

  /** In `m'` the link into the hole of `k` leads to `n`. */
  ghost predicate Linked(m: Memory, m': Memory, k: Ctx<RbNode>, n: RbNode?) {
    if k.Top? then m'.top == n
    else m'.top == m.top && k.node in m'.cells && m'.cells[k.node] == HoleCell(Rank(m, k.node), k, n)
  }

  /** `m'` differs from `m` at most at the nodes in `touched`. */
  ghost predicate SameBut(m: Memory, m': Memory, touched: set<RbNode?>) {
    forall n :: n in m.cells && n !in touched ==> Agree(m, m', n)
  }

  lemma {:induction false} RelinkSpells(m: Memory, m': Memory, k: Ctx<RbNode>, n: RbNode?, n': RbNode?)
    requires CtxSpells(m, k, n) && Linked(m, m', k, n')
    requires forall y :: y in m.cells && !(Lo(m, k) < Rank(m, y) < Hi(m, k)) && y != Parent(k) ==> Agree(m, m', y)
    ensures CtxSpells(m', k, n') && Lo(m', k) == Lo(m, k) && Hi(m', k) == Hi(m, k)
    ensures Lo(m, k) < Hi(m, k)
  {
    if k.Hole? {
      var x := k.node;
      assert Lo(m, k.up) < Rank(m, x) < Hi(m, k.up);
      CtxFrame(m, m', k.up, x);
      var lo := if k.side == Left then Rank(m, x) else Lo(m, k.up);
      var hi := if k.side == Left then Hi(m, k.up) else Rank(m, x);
      Frame(m, m', k.sib, x, lo, hi);
      assert Rank(m', x) == Rank(m, x);
    }
  }

  lemma {:induction false} ReparentSpells(m: Memory, m': Memory, t: Tree<RbNode>, p: RbNode?, p': RbNode?, lo: real,
                                          hi: real)
    requires Spells(m, t, p, lo, hi) && Rooted(m, m', t, p')
    requires forall y :: y in m.cells && lo < Rank(m, y) < hi && y != Root(t) ==> Agree(m, m', y)
    ensures Spells(m', t, p', lo, hi)
  {
    if t.Bin? {
      Frame(m, m', t.left, t.node, lo, Rank(m, t.node));
      Frame(m, m', t.right, t.node, Rank(m, t.node), hi);
    }
  }

  lemma {:induction false} Widen(m: Memory, t: Tree<RbNode>, p: RbNode?, lo: real, hi: real, lo': real, hi': real)
    requires Spells(m, t, p, lo, hi) && lo' <= lo && hi <= hi'
    ensures Spells(m, t, p, lo', hi')
  {
    if t.Bin? {
      Widen(m, t.left, t.node, lo, Rank(m, t.node), lo', Rank(m, t.node));
      Widen(m, t.right, t.node, Rank(m, t.node), hi, Rank(m, t.node), hi');
    }
  }

  // ----- what each rewriting of links does to the tree spelled out -----

  /** The nodes whose links a rotation of `t` writes, with the child on side `s` going up. */
  function Around(k: Ctx<RbNode>, t: Tree<RbNode>, s: Side): set<RbNode?>
    requires t.Bin? && Child(t, s).Bin?
  {
    {t.node, Root(Child(t, s)), Root(Child(Child(t, s), Opp(s))), Parent(k)}
  }

  /** A rotation at `k` turned `t` into `t'`: the lifted node is now the root, the
      lowered one its child on side `s`, and `b` moved across. */
  ghost predicate Rotated(m: Memory, m': Memory, k: Ctx<RbNode>, t': Tree<RbNode>, s: Side, b: Tree<RbNode>)
    requires t'.Bin? && Child(t', s).Bin?
  {
    var lowered := Child(t', s);
    && SameBut(m, m', {t'.node, lowered.node, Root(b), Parent(k)})
    && Rooted(m, m', t', Parent(k)) && Rooted(m, m', lowered, t'.node) && Rooted(m, m', b, lowered.node)
    && Linked(m, m', k, t'.node)
  }

  lemma {:induction false} RotateLeftSpells(m: Memory, m': Memory, k: Ctx<RbNode>, t: Tree<RbNode>, p: RbNode?,
                                            lo: real, hi: real)
    requires Spells(m, t, p, lo, hi) && t.Bin? && t.right.Bin? && p == Parent(k)
    requires Rotated(m, m', k, RotateLeft(t), Left, t.right.left)
    requires k.Hole? && k.node in m.cells ==> Rank(m, k.node) <= lo || hi <= Rank(m, k.node)
    ensures Spells(m', RotateLeft(t), p, lo, hi)
  {
    var Bin(c, a, x, u) := t;
    var Bin(d, b, y, e) := u;
    var rx, ry := Rank(m, x), Rank(m, y);
    assert Spells(m, u, x, rx, hi);
    assert Spells(m, b, y, rx, ry);
    Frame(m, m', a, x, lo, rx);
    ReparentSpells(m, m', b, y, x, rx, ry);
    Frame(m, m', e, y, ry, hi);
    assert Spells(m', RotateLeft(t).left, y, lo, ry);
  }

  lemma {:induction false} RotateLeftLaid(m: Memory, m': Memory, k: Ctx<RbNode>, t: Tree<RbNode>)
    requires Laid(m, k, t) && t.Bin? && t.right.Bin? && Rotated(m, m', k, RotateLeft(t), Left, t.right.left)
    ensures Laid(m', k, RotateLeft(t))
  {
    var x, y, b := t.node, t.right.node, t.right.left;
    assert Spells(m, t.right, x, Rank(m, x), Hi(m, k)) && Spells(m, b, y, Rank(m, x), Rank(m, y));
    assert k.Hole? ==> Rank(m, k.node) <= Lo(m, k) || Hi(m, k) <= Rank(m, k.node);
    RotateLeftSpells(m, m', k, t, Parent(k), Lo(m, k), Hi(m, k));
    RelinkSpells(m, m', k, x, y);
  }

  lemma {:induction false} RotateRightSpells(m: Memory, m': Memory, k: Ctx<RbNode>, t: Tree<RbNode>, p: RbNode?,
                                             lo: real, hi: real)
    requires Spells(m, t, p, lo, hi) && t.Bin? && t.left.Bin? && p == Parent(k)
    requires Rotated(m, m', k, RotateRight(t), Right, t.left.right)
    requires k.Hole? && k.node in m.cells ==> Rank(m, k.node) <= lo || hi <= Rank(m, k.node)
    ensures Spells(m', RotateRight(t), p, lo, hi)
  {
    var Bin(c, u, x, e) := t;
    var Bin(d, a, y, b) := u;
    var rx, ry := Rank(m, x), Rank(m, y);
    assert Spells(m, u, x, lo, rx);
    assert Spells(m, b, y, ry, rx);
    Frame(m, m', e, x, rx, hi);
    ReparentSpells(m, m', b, y, x, ry, rx);
    Frame(m, m', a, y, lo, ry);
    assert Spells(m', RotateRight(t).right, y, ry, hi);
  }

  lemma {:induction false} RotateRightLaid(m: Memory, m': Memory, k: Ctx<RbNode>, t: Tree<RbNode>)
    requires Laid(m, k, t) && t.Bin? && t.left.Bin? && Rotated(m, m', k, RotateRight(t), Right, t.left.right)
    ensures Laid(m', k, RotateRight(t))
  {
    var x, y, b := t.node, t.left.node, t.left.right;
    assert Spells(m, t.left, x, Lo(m, k), Rank(m, x)) && Spells(m, b, y, Rank(m, y), Rank(m, x));
    assert k.Hole? ==> Rank(m, k.node) <= Lo(m, k) || Hi(m, k) <= Rank(m, k.node);
    RotateRightSpells(m, m', k, t, Parent(k), Lo(m, k), Hi(m, k));
    RelinkSpells(m, m', k, x, y);
  }

  lemma {:induction false} RecolorLaid(m: Memory, m': Memory, k: Ctx<RbNode>, t: Tree<RbNode>, c: Color)
    requires Laid(m, k, t) && t.Bin? && SameBut(m, m', {t.node}) && m'.top == m.top
    requires Rooted(m, m', t.(color := c), Parent(k))
    ensures Laid(m', k, t.(color := c))
  {
    CtxFrame(m, m', k, t.node);
    Frame(m, m', t.left, t.node, Lo(m, k), Rank(m, t.node));
    Frame(m, m', t.right, t.node, Rank(m, t.node), Hi(m, k));
  }

  /** A node with a rank inside the hole's interval was linked there. */
  lemma {:induction false} LinkLaid(m: Memory, m': Memory, k: Ctx<RbNode>, x: RbNode, rank: real)
    requires Laid(m, k, Leaf) && x !in m.cells && Lo(m, k) < rank < Hi(m, k)
    requires SameBut(m, m', {Parent(k)}) && Linked(m, m', k, x)
    requires x in m'.cells && m'.cells[x] == Cell(rank, Parent(k), Red, null, null)
    ensures Laid(m', k, Bin(Red, Leaf, x, Leaf))
  {
    RelinkSpells(m, m', k, null, x);
  }

  /** The root of `t`, which has at most the child `u`, was cut out. */
  lemma {:induction false} CutLaid(m: Memory, m': Memory, k: Ctx<RbNode>, t: Tree<RbNode>, u: Tree<RbNode>)
    requires Laid(m, k, t) && t.Bin? && ((t.left.Leaf? && u == t.right) || (t.right.Leaf? && u == t.left))
    requires SameBut(m, m', {t.node, Root(u), Parent(k)})
    requires Rooted(m, m', u, Parent(k)) && Linked(m, m', k, Root(u))
    ensures Laid(m', k, u)
  {
    var x, lo, hi := t.node, Lo(m, k), Hi(m, k);
    assert k.Hole? ==> Rank(m, k.node) <= lo || hi <= Rank(m, k.node);
    var ulo := if u == t.right && t.left.Leaf? then Rank(m, x) else lo;
    var uhi := if u == t.right && t.left.Leaf? then hi else Rank(m, x);
    assert Spells(m, u, x, ulo, uhi);
    ReparentSpells(m, m', u, x, Parent(k), ulo, uhi);
    Widen(m', u, Parent(k), ulo, uhi, lo, hi);
    RelinkSpells(m, m', k, x, Root(u));
  }

  /** The subtrees of a replaced node, below the new one. */
  lemma {:induction false} ReplaceSides(m: Memory, m': Memory, k: Ctx<RbNode>, t: Tree<RbNode>, y: RbNode)
    requires Laid(m, k, t) && t.Bin?
    requires SameBut(m, m', {t.node, Root(t.left), Root(t.right), Parent(k)})
    requires Rooted(m, m', t.left, y) && Rooted(m, m', t.right, y)
    ensures Spells(m', t.left, y, Lo(m, k), Rank(m, t.node)) && Spells(m', t.right, y, Rank(m, t.node), Hi(m, k))
  {
    var x, lo, hi := t.node, Lo(m, k), Hi(m, k);
    assert Spells(m, t.left, x, lo, Rank(m, x)) && Spells(m, t.right, x, Rank(m, x), hi);
    assert k.Hole? ==> Rank(m, k.node) <= lo || hi <= Rank(m, k.node);
    ReparentSpells(m, m', t.left, x, y, lo, Rank(m, x));
    ReparentSpells(m, m', t.right, x, y, Rank(m, x), hi);
  }

  /** `y`, with the same rank, was put in the place of the root of `t`. */
  lemma {:induction false} ReplaceLaid(m: Memory, m': Memory, k: Ctx<RbNode>, t: Tree<RbNode>, y: RbNode)
    requires Laid(m, k, t) && t.Bin? && y !in m.cells
    requires SameBut(m, m', {t.node, Root(t.left), Root(t.right), Parent(k)})
    requires y in m'.cells && m'.cells[y] == Cell(Rank(m, t.node), Parent(k), t.color, Root(t.left), Root(t.right))
    requires Rooted(m, m', t.left, y) && Rooted(m, m', t.right, y) && Linked(m, m', k, y)
    ensures Laid(m', k, t.(node := y))
  {
    ReplaceSides(m, m', k, t, y);
    LaidGrounded(m, k, t);
    RelinkSpells(m, m', k, t.node, y);
  }
}

/** The packed parent/colour word. `RbTree` works on two fields; this module shows that any
    run of the accessor macros on packed words agrees with the same run on two fields. */
module RbPacked {
  import opened RbSpec

  type Word = bv64

  const FLAGS: Word := 3
  const COLOR_BIT: Word := 1

  /** A node address: nodes are aligned, so the two lowest bits are free. */
  predicate Aligned(p: Word) {
    p & FLAGS == 0
  }

  function ParentOf(w: Word): Word {
    w & !FLAGS
  }

  function ColorOf(w: Word): Color {
    if w & COLOR_BIT == 0 then Red else Black
  }

  function ColorBit(c: Color): Word {
    if c == Red then 0 else COLOR_BIT
  }

  function WithParent(w: Word, p: Word): Word {
    (w & FLAGS) | p
  }

  function WithColor(w: Word, c: Color): Word {
    (w & !COLOR_BIT) | ColorBit(c)
  }

  /** `rb_set_parent` writes the parent and keeps the colour, for every word, exactly when the
      address is aligned. */
  lemma {:induction false} WithParentFields(p: Word)
    ensures Aligned(p) <==> forall w :: ParentOf(WithParent(w, p)) == p && ColorOf(WithParent(w, p)) == ColorOf(w)
  {
    if !Aligned(p) {
      assert ParentOf(WithParent(0, p)) == p ==> p & FLAGS == 0;
    }
  }

  /** Clearing and setting the colour bit. */
  lemma {:induction false} ColorBitFields(w: Word)
    ensures ParentOf(w & !COLOR_BIT) == ParentOf(w) && ColorOf(w & !COLOR_BIT) == Red
    ensures ParentOf(w | COLOR_BIT) == ParentOf(w) && ColorOf(w | COLOR_BIT) == Black
  {
  }

  lemma {:induction false} WithColorBits(w: Word)
    ensures WithColor(w, Red) == w & !COLOR_BIT && WithColor(w, Black) == w | COLOR_BIT
  {
    SetClearedBit(w);
  }

  lemma {:induction false} SetClearedBit(w: Word)
    ensures (w & !1) | 1 == w | 1 && (w & !1) | 0 == w & !1
  {
  }

  /** `rb_set_color` keeps the parent. */
  lemma {:induction false} WithColorFields(w: Word, c: Color)
    ensures ParentOf(WithColor(w, c)) == ParentOf(w) && ColorOf(WithColor(w, c)) == c
  {
    WithColorBits(w);
    ColorBitFields(w);
  }

  lemma {:induction false} ParentAligned(w: Word)
    ensures Aligned(ParentOf(w))
  {
  }

  lemma {:induction false} LinkFields(p: Word)
    requires Aligned(p)
    ensures ParentOf(p) == p && ColorOf(p) == Red
  {
    assert p & FLAGS == 0 ==> p & COLOR_BIT == 0;
  }

  /** `rb_set_red` and `rb_set_black`. */
  function RedWord(w: Word): Word {
    w & !1
  }

  function BlackWord(w: Word): Word {
    w | 1
  }

  lemma {:induction false} RedWordIs(w: Word)
    ensures RedWord(w) == WithColor(w, Red)
  {
    WithColorBits(w);
  }

  lemma {:induction false} BlackWordIs(w: Word)
    ensures BlackWord(w) == WithColor(w, Black)
  {
    WithColorBits(w);
  }

  /** The two fields of a word, and what the accessors store, in bits. */
  lemma {:induction false} FieldsInFull(w: Word)
    ensures ParentOf(w) == w & !3 && (ColorOf(w) == Red <==> w & 1 == 0)
  {
  }

  lemma {:induction false} WithParentInFull(w: Word, p: Word)
    ensures WithParent(w, p) == (w & 3) | p
  {
  }

  lemma {:induction false} WithRedInFull(w: Word)
    ensures WithColor(w, Red) == w & !1
  {
    WithColorBits(w);
  }

  lemma {:induction false} WithBlackInFull(w: Word)
    ensures WithColor(w, Black) == w | 1
  {
    WithColorBits(w);
  }

  /** A node with the packed word, as the header declares it. */
  class PackedNode {
    var word: Word

    method SetParent(p: Word)
      requires Aligned(p)
      modifies this
      ensures ParentOf(word) == p && ColorOf(word) == old(ColorOf(word))
      ensures word == WithParent(old(word), p)
    {
      WithParentFields(p);
      word := WithParent(word, p);
    }

    method SetColor(c: Color)
      modifies this
      ensures ColorOf(word) == c && ParentOf(word) == old(ParentOf(word))
      ensures word == WithColor(old(word), c)
    {
      WithColorFields(word, c);
      word := WithColor(word, c);
    }

    method SetRed()
      modifies this
      ensures ColorOf(word) == Red && ParentOf(word) == old(ParentOf(word))
      ensures word == WithColor(old(word), Red)
    {
      WithColorFields(word, Red);
      RedWordIs(word);
      word := RedWord(word);
    }

    method SetBlack()
      modifies this
      ensures ColorOf(word) == Black && ParentOf(word) == old(ParentOf(word))
      ensures word == WithColor(old(word), Black)
    {
      WithColorFields(word, Black);
      BlackWordIs(word);
      word := BlackWord(word);
    }

    /** The word that `rb_link_node` stores. */
    method Link(p: Word)
      requires Aligned(p)
      modifies this
      ensures ParentOf(word) == p && ColorOf(word) == Red
      ensures word == p
    {
      LinkFields(p);
      word := p;
    }

    /** Parent and colour of another node at once. */
    method CopyFrom(other: PackedNode)
      modifies this
      ensures ParentOf(word) == old(ParentOf(other.word)) && ColorOf(word) == old(ColorOf(other.word))
      ensures word == old(other.word)
    {
      word := other.word;
    }
  }

  lemma {:induction false} KnownWords()
    ensures Aligned(4) && Aligned(0x1000) && !Aligned(2) && !Aligned(0x1001)
    ensures ParentOf(0x1001) == 0x1000 && ColorOf(0x1001) == Black && ColorOf(0x1000) == Red
    ensures WithParent(0x1001, 0x2004) == 0x2005 && WithColor(0x1001, Red) == 0x1000
    ensures WithColor(0x1000, Black) == 0x1001
  {
  }

  // ----- runs over all nodes -----

  datatype Fields = Fields(parent: Word, color: Color)

  /** The accesses of the tree code, by node number. */
  datatype Access =
    | SetParent(n: nat, p: Word)
    | SetColor(n: nat, c: Color)
    | SetColorFrom(n: nat, other: nat)
    | SetParentFrom(n: nat, other: nat)
    | Link(n: nat, p: Word)
    | Copy(n: nat, other: nat)

  function OnWords(a: Access, words: seq<Word>): seq<Word> {
    if a.n >= |words| then words
    else match a
      case SetParent(n, p) => words[n := WithParent(words[n], p)]
      case SetColor(n, c) => words[n := WithColor(words[n], c)]
      case SetColorFrom(n, o) => if o < |words| then words[n := WithColor(words[n], ColorOf(words[o]))] else words
      case SetParentFrom(n, o) => if o < |words| then words[n := WithParent(words[n], ParentOf(words[o]))] else words
      case Link(n, p) => words[n := p]
      case Copy(n, o) => if o < |words| then words[n := words[o]] else words
  }

  function OnFields(a: Access, fields: seq<Fields>): seq<Fields> {
    if a.n >= |fields| then fields
    else match a
      case SetParent(n, p) => fields[n := fields[n].(parent := p)]
      case SetColor(n, c) => fields[n := fields[n].(color := c)]
      case SetColorFrom(n, o) => if o < |fields| then fields[n := fields[n].(color := fields[o].color)] else fields
      case SetParentFrom(n, o) => if o < |fields| then fields[n := fields[n].(parent := fields[o].parent)] else fields
      case Link(n, p) => fields[n := Fields(p, Red)]
      case Copy(n, o) => if o < |fields| then fields[n := fields[o]] else fields
  }

  function Unpack(words: seq<Word>): (fields: seq<Fields>)
    ensures |fields| == |words|
  {
    seq(|words|, i requires 0 <= i < |words| => Fields(ParentOf(words[i]), ColorOf(words[i])))
  }

  predicate AlignedAccess(a: Access) {
    (a.SetParent? || a.Link?) ==> Aligned(a.p)
  }

  ghost predicate AllDifferent(nodes: seq<PackedNode>) {
    forall i, j :: 0 <= i < j < |nodes| ==> nodes[i] != nodes[j]
  }

  ghost function WordsOf(nodes: seq<PackedNode>): (words: seq<Word>)
    reads nodes
    ensures |words| == |nodes|
  {
    seq(|nodes|, i requires 0 <= i < |nodes| reads nodes => nodes[i].word)
  }

  method PutParentAt(nodes: seq<PackedNode>, n: nat, p: Word)
    requires AllDifferent(nodes) && n < |nodes| && Aligned(p)
    modifies nodes[n]
    ensures WordsOf(nodes) == old(WordsOf(nodes))[n := WithParent(old(WordsOf(nodes))[n], p)]
  {
    nodes[n].SetParent(p);
  }

  method PutColorAt(nodes: seq<PackedNode>, n: nat, c: Color)
    requires AllDifferent(nodes) && n < |nodes|
    modifies nodes[n]
    ensures WordsOf(nodes) == old(WordsOf(nodes))[n := WithColor(old(WordsOf(nodes))[n], c)]
  {
    nodes[n].SetColor(c);
  }

  method PutWordAt(nodes: seq<PackedNode>, a: Access)
    requires AllDifferent(nodes) && a.n < |nodes| && ((a.Link? && Aligned(a.p)) || (a.Copy? && a.other < |nodes|))
    modifies nodes[a.n]
    ensures WordsOf(nodes) == old(WordsOf(nodes))[a.n := if a.Link? then a.p else old(WordsOf(nodes))[a.other]]
  {
    if a.Link? {
      nodes[a.n].Link(a.p);
    } else {
      nodes[a.n].CopyFrom(nodes[a.other]);
    }
  }

  /** An access is made by the methods of the nodes. */
  method Perform(a: Access, nodes: seq<PackedNode>)
    requires AlignedAccess(a) && AllDifferent(nodes)
    modifies nodes
    ensures WordsOf(nodes) == OnWords(a, old(WordsOf(nodes)))
  {
    if a.n < |nodes| {
      match a {
        case SetParent(n, p) => PutParentAt(nodes, n, p);
        case SetColor(n, c) => PutColorAt(nodes, n, c);
        case SetColorFrom(n, o) =>
          if o < |nodes| {
            PutColorAt(nodes, n, ColorOf(nodes[o].word));
          }
        case SetParentFrom(n, o) =>
          if o < |nodes| {
            ParentAligned(nodes[o].word);
            PutParentAt(nodes, n, ParentOf(nodes[o].word));
          }
        case Link(n, p) => PutWordAt(nodes, a);
        case Copy(n, o) =>
          if o < |nodes| {
            PutWordAt(nodes, a);
          }
      }
    }
  }

  lemma {:induction false} AccessRefines(a: Access, words: seq<Word>)
    requires AlignedAccess(a)
    ensures Unpack(OnWords(a, words)) == OnFields(a, Unpack(words))
  {
    if a.n < |words| {
      var w := words[a.n];
      match a
      case SetParent(n, p) => WithParentFields(p);
      case SetColor(n, c) => WithColorFields(w, c);
      case SetColorFrom(n, o) => if o < |words| { WithColorFields(w, ColorOf(words[o])); }
      case SetParentFrom(n, o) => if o < |words| { ParentAligned(words[o]); WithParentFields(ParentOf(words[o])); }
      case Link(n, p) => LinkFields(p);
      case Copy(n, o) =>
    }
  }

  function RunWords(run: seq<Access>, words: seq<Word>): seq<Word> {
    if run == [] then words else RunWords(run[1..], OnWords(run[0], words))
  }

  function RunFields(run: seq<Access>, fields: seq<Fields>): seq<Fields> {
    if run == [] then fields else RunFields(run[1..], OnFields(run[0], fields))
  }

  /** Every run on packed words reads, node by node, as the same run on two fields. */
  lemma {:induction false} PackedRefinesFields(run: seq<Access>, words: seq<Word>)
    requires forall a :: a in run ==> AlignedAccess(a)
    ensures Unpack(RunWords(run, words)) == RunFields(run, Unpack(words))
  {
    if run != [] {
      AccessRefines(run[0], words);
      PackedRefinesFields(run[1..], OnWords(run[0], words));
    }
  }

  // ----- programs that choose the next access by what they read -----

  /** A parent as the tree code sees it. */
  datatype Ref = Null | At(n: nat)

  datatype NodeFields = NodeFields(parent: Ref, color: Color)

  datatype Move =
    | PutParent(n: nat, p: Ref)
    | PutColor(n: nat, c: Color)
    | PutLink(n: nat, p: Ref)
    | PutCopy(n: nat, other: nat)
    | Skip

  /** Where the nodes are: at different aligned addresses, none of them null. */
  ghost predicate Addresses(at: seq<Word>) {
    && (forall i :: 0 <= i < |at| ==> at[i] != 0 && Aligned(at[i]))
    && forall i, j :: 0 <= i < j < |at| ==> at[i] != at[j]
  }

  predicate Known(p: Ref, count: nat) {
    p.At? ==> p.n < count
  }

  function Address(at: seq<Word>, p: Ref): Word
    requires Known(p, |at|)
  {
    if p.Null? then 0 else at[p.n]
  }

  /** The node at an address; what is no node's address is read as null. */
  function NodeAt(at: seq<Word>, w: Word): Ref {
    if at == [] then Null
    else if at[|at| - 1] == w then At(|at| - 1)
    else NodeAt(at[..|at| - 1], w)
  }

  lemma {:induction false} NodeAtAddress(at: seq<Word>, p: Ref)
    requires Addresses(at) && Known(p, |at|)
    ensures NodeAt(at, Address(at, p)) == p
  {
    if at != [] {
      var rest := at[..|at| - 1];
      if p != At(|at| - 1) {
        NodeAtAddress(rest, p);
      }
    }
  }

  /** The packed words as the tree code sees them. */
  function View(at: seq<Word>, words: seq<Word>): (nodes: seq<NodeFields>)
    ensures |nodes| == |words|
  {
    seq(|words|, i requires 0 <= i < |words| => NodeFields(NodeAt(at, ParentOf(words[i])), ColorOf(words[i])))
  }

  function OnNodes(m: Move, nodes: seq<NodeFields>): seq<NodeFields> {
    if m.Skip? || m.n >= |nodes| then nodes
    else match m
      case PutParent(n, p) => nodes[n := nodes[n].(parent := p)]
      case PutColor(n, c) => nodes[n := nodes[n].(color := c)]
      case PutLink(n, p) => nodes[n := NodeFields(p, Red)]
      case PutCopy(n, o) => if o < |nodes| then nodes[n := nodes[o]] else nodes
  }

  predicate KnownMove(m: Move, count: nat) {
    (m.PutParent? || m.PutLink?) ==> Known(m.p, count)
  }

  /** The access to packed words that a move stands for. */
  function Compiled(at: seq<Word>, m: Move): Access
    requires KnownMove(m, |at|) && !m.Skip?
  {
    match m
    case PutParent(n, p) => SetParent(n, Address(at, p))
    case PutColor(n, c) => SetColor(n, c)
    case PutLink(n, p) => Link(n, Address(at, p))
    case PutCopy(n, o) => Copy(n, o)
  }

  function OnPacked(at: seq<Word>, m: Move, words: seq<Word>): (r: seq<Word>)
    requires KnownMove(m, |at|)
    ensures |r| == |words|
  {
    if m.Skip? then words else OnWords(Compiled(at, m), words)
  }

  lemma {:induction false} AddressAligned(at: seq<Word>, p: Ref)
    requires Addresses(at) && Known(p, |at|)
    ensures Aligned(Address(at, p))
  {
    if p.Null? {
      ZeroAligned();
    }
  }

  lemma {:induction false} ZeroAligned()
    ensures Aligned(0)
  {
  }

  lemma {:induction false} MoveRefines(at: seq<Word>, m: Move, words: seq<Word>)
    requires Addresses(at) && KnownMove(m, |at|)
    ensures View(at, OnPacked(at, m, words)) == OnNodes(m, View(at, words))
  {
    if !m.Skip? && m.n < |words| {
      var w := words[m.n];
      match m
      case PutParent(n, p) =>
        AddressAligned(at, p);
        WithParentFields(Address(at, p));
        NodeAtAddress(at, p);
      case PutColor(n, c) => WithColorFields(w, c);
      case PutLink(n, p) =>
        AddressAligned(at, p);
        LinkFields(Address(at, p));
        NodeAtAddress(at, p);
      case PutCopy(n, o) =>
    }
  }

  ghost predicate AllKnown(nodes: seq<NodeFields>, count: nat) {
    forall i :: 0 <= i < |nodes| ==> Known(nodes[i].parent, count)
  }

  lemma {:induction false} NodeAtKnown(at: seq<Word>, w: Word)
    ensures Known(NodeAt(at, w), |at|)
  {
    if at != [] {
      NodeAtKnown(at[..|at| - 1], w);
    }
  }

  /** Every parent that can be read is null or a node. */
  lemma {:induction false} ViewKnown(at: seq<Word>, words: seq<Word>)
    ensures AllKnown(View(at, words), |at|)
  {
    forall i | 0 <= i < |words| ensures Known(View(at, words)[i].parent, |at|) {
      NodeAtKnown(at, ParentOf(words[i]));
    }
  }

  /** A program has local variables of type `S` and chooses its next move by them and by all nodes. */
  type Program<!S> = (S, seq<NodeFields>) -> (S, Move)

  /** While `ok` holds the program stores only parents that are null or nodes, and `ok` goes on to
      hold. What the program reads counts as such. */
  ghost predicate Closed<S(!new)>(program: Program<S>, ok: (S, seq<NodeFields>) -> bool, count: nat) {
    forall s: S, nodes: seq<NodeFields> :: ok(s, nodes) && AllKnown(nodes, count) ==>
      KnownMove(program(s, nodes).1, count) && ok(program(s, nodes).0, OnNodes(program(s, nodes).1, nodes))
  }

  function ExecuteNodes<S>(program: Program<S>, steps: nat, s: S, nodes: seq<NodeFields>): (S, seq<NodeFields>) {
    if steps == 0 then (s, nodes)
    else
      var (s', m) := program(s, nodes);
      ExecuteNodes(program, steps - 1, s', OnNodes(m, nodes))
  }

  /** The same program on packed words, which it reads through the accessors. A move that stores what is
      no node ends it. */
  function ExecuteWords<S>(program: Program<S>, at: seq<Word>, steps: nat, s: S, words: seq<Word>): (S, seq<Word>) {
    if steps == 0 then (s, words)
    else
      var (s', m) := program(s, View(at, words));
      if KnownMove(m, |at|) then ExecuteWords(program, at, steps - 1, s', OnPacked(at, m, words))
      else (s, words)
  }

  /** However a program chooses its accesses, for any number of steps, it does on packed words what it
      does on parents and colours apart, wherever the nodes are. */
  lemma {:induction false} ProgramRefines<S(!new)>(program: Program<S>, ok: (S, seq<NodeFields>) -> bool, at: seq<Word>,
                                                   steps: nat, s: S, words: seq<Word>)
    requires Addresses(at) && Closed(program, ok, |at|) && ok(s, View(at, words))
    ensures var onWords := ExecuteWords(program, at, steps, s, words);
      var onNodes := ExecuteNodes(program, steps, s, View(at, words));
      onWords.0 == onNodes.0 && View(at, onWords.1) == onNodes.1
  {
    if steps > 0 {
      ViewKnown(at, words);
      var (s', m) := program(s, View(at, words));
      MoveRefines(at, m, words);
      ProgramRefines(program, ok, at, steps - 1, s', OnPacked(at, m, words));
    }
  }

  // ----- the rotations as programs -----

  /** The variables of a rotation, and the child links, which are not packed. `up` has every node's
      link on the side whose child goes up, `down` the other one. */
  datatype Rotation = Rotation(pc: nat, node: nat, up: seq<Ref>, down: seq<Ref>, root: Ref, child: Ref, parent: Ref)

  /** The last child link that a rotation writes: the one that led to its node. */
  function Relinked(s: Rotation): Rotation
    requires Known(s.parent, |s.down|) && Known(s.parent, |s.up|)
  {
    match s.parent
    case Null => s.(root := s.child)
    case At(p) => if s.down[p] == At(s.node) then s.(down := s.down[p := s.child]) else s.(up := s.up[p := s.child])
  }

  /** `__rb_rotate_left` when `up` is the right side, `__rb_rotate_right` when it is the left. */
  function Rotate(s: Rotation, nodes: seq<NodeFields>): (Rotation, Move) {
    if !(s.node < |nodes| && |nodes| == |s.up| == |s.down|) then (s, Skip)
    else if s.pc == 0 then (s.(pc := 1, child := s.up[s.node], parent := nodes[s.node].parent), Skip)
    else if s.child.Null? || s.child.n >= |nodes| then (s, Skip)
    else if s.pc == 1 then
      var moved := s.down[s.child.n];
      (s.(pc := 2, up := s.up[s.node := moved]), if moved.At? then PutParent(moved.n, At(s.node)) else Skip)
    else if s.pc == 2 then (s.(pc := 3, down := s.down[s.child.n := At(s.node)]), PutParent(s.child.n, s.parent))
    else if s.pc == 3 && Known(s.parent, |nodes|) then (Relinked(s).(pc := 4), PutParent(s.node, s.child))
    else (s, Skip)
  }

  /** All links of the rotation lead to nodes. */
  predicate Linked(s: Rotation, nodes: seq<NodeFields>) {
    && s.node < |nodes| == |s.up| == |s.down|
    && (forall i :: 0 <= i < |nodes| ==> Known(s.up[i], |nodes|) && Known(s.down[i], |nodes|))
    && Known(s.root, |nodes|) && Known(s.child, |nodes|) && Known(s.parent, |nodes|)
  }

  function LinkedTo(count: nat): (Rotation, seq<NodeFields>) -> bool {
    (s, nodes) => |nodes| == count && Linked(s, nodes)
  }

  lemma {:induction false} RelinkedKnown(s: Rotation, nodes: seq<NodeFields>)
    requires Linked(s, nodes)
    ensures Linked(Relinked(s), nodes)
  {
  }

  /** A step of a rotation stores a node or null, and its links stay ones. */
  lemma {:induction false} RotateStepKnown(s: Rotation, nodes: seq<NodeFields>)
    requires Linked(s, nodes) && AllKnown(nodes, |nodes|)
    ensures KnownMove(Rotate(s, nodes).1, |nodes|) && Linked(Rotate(s, nodes).0, nodes)
  {
    assert Known(s.up[s.node], |nodes|) && Known(nodes[s.node].parent, |nodes|);
    RelinkedKnown(s, nodes);
  }

  lemma {:induction false} RotateClosed(count: nat)
    ensures Closed(Rotate, LinkedTo(count), count)
  {
    forall s: Rotation, nodes: seq<NodeFields> | LinkedTo(count)(s, nodes) && AllKnown(nodes, count)
      ensures KnownMove(Rotate(s, nodes).1, count)
      ensures LinkedTo(count)(Rotate(s, nodes).0, OnNodes(Rotate(s, nodes).1, nodes))
    {
      RotateStepKnown(s, nodes);
      SameLength(Rotate(s, nodes).1, nodes);
    }
  }

  lemma {:induction false} SameLength(m: Move, nodes: seq<NodeFields>)
    ensures |OnNodes(m, nodes)| == |nodes|
  {
  }

  /** What a rotation of `x`, whose child `y` goes up, does to the parents: it writes those of the subtree that
      moves across, of `y` and of `x`, in this order. */
  function RotatedParents(x: nat, y: nat, moved: Ref, nodes: seq<NodeFields>): seq<NodeFields>
    requires x < |nodes| && y < |nodes| && Known(moved, |nodes|)
  {
    var first := if moved.At? then nodes[moved.n := nodes[moved.n].(parent := At(x))] else nodes;
    var second := first[y := first[y].(parent := nodes[x].parent)];
    second[x := second[x].(parent := At(y))]
  }

  /** What it does to the child links and the root's link, when `x` has the parent `p`. */
  ghost predicate LinksRotated(s: Rotation, s': Rotation, x: nat, y: nat, p: Ref)
    requires x < |s.up| == |s.down| && y < |s.up|
  {
    && Known(p, |s.up|)
    && |s'.up| == |s'.down| == |s.up|
    && s'.up[x] == s.down[y] && s'.down[y] == At(x)
    && s'.root == (if p.Null? then At(y) else s.root)
    && (p.At? && s.down[p.n] == At(x) ==> s'.down[p.n] == At(y) && s'.up[p.n] == s.up[p.n])
    && (p.At? && s.down[p.n] != At(x) ==> s'.up[p.n] == At(y) && s'.down[p.n] == s.down[p.n])
    && (forall i :: 0 <= i < |s.up| && i != x && p != At(i) ==> s'.up[i] == s.up[i])
    && (forall i :: 0 <= i < |s.down| && i != y && p != At(i) ==> s'.down[i] == s.down[i])
  }

  /** On packed words a rotation writes exactly these parents and links, and every node keeps its colour. */
  lemma {:induction false} PackedRotation(at: seq<Word>, s: Rotation, words: seq<Word>)
    requires Addresses(at) && |words| == |at| && Linked(s, View(at, words)) && s.pc == 0 && s.up[s.node].At?
    ensures var done := ExecuteWords(Rotate, at, 4, s, words);
      var y := s.up[s.node].n;
      && done.0.pc == 4
      && (Apart(s, View(at, words)) ==> LinksRotated(s, done.0, s.node, y, View(at, words)[s.node].parent))
      && View(at, done.1) == RotatedParents(s.node, y, s.down[y], View(at, words))
      && |done.1| == |words| && forall i :: 0 <= i < |words| ==> ColorOf(done.1[i]) == ColorOf(words[i])
  {
    var nodes := View(at, words);
    ViewKnown(at, words);
    RotateClosed(|at|);
    ProgramRefines(Rotate, LinkedTo(|at|), at, 4, s, words);
    FourSteps(s, nodes);
    SameColors(at, words, ExecuteWords(Rotate, at, 4, s, words).1, s.node, s.up[s.node].n, s.down[s.up[s.node].n]);
  }

  /** The node of a rotation, its child that goes up and its parent are three. */
  predicate Apart(s: Rotation, nodes: seq<NodeFields>)
    requires Linked(s, nodes) && s.up[s.node].At?
  {
    s.up[s.node].n != s.node && nodes[s.node].parent !in {At(s.node), s.up[s.node]}
  }

  lemma {:induction false} SameColors(at: seq<Word>, words: seq<Word>, words': seq<Word>, x: nat, y: nat, moved: Ref)
    requires x < |words| && y < |words| && Known(moved, |words|)
    requires View(at, words') == RotatedParents(x, y, moved, View(at, words))
    ensures |words'| == |words| && forall i :: 0 <= i < |words| ==> ColorOf(words'[i]) == ColorOf(words[i])
  {
    var nodes, nodes' := View(at, words), View(at, words');
    assert |nodes'| == |words'| && |nodes| == |words|;
    forall i | 0 <= i < |words| ensures ColorOf(words'[i]) == ColorOf(words[i]) {
      assert nodes'[i].color == nodes[i].color;
    }
  }

  lemma {:induction false} FourSteps(s: Rotation, nodes: seq<NodeFields>)
    requires Linked(s, nodes) && AllKnown(nodes, |nodes|) && s.pc == 0 && s.up[s.node].At?
    ensures var done := ExecuteNodes(Rotate, 4, s, nodes);
      var y := s.up[s.node].n;
      && done.0.pc == 4 && done.1 == RotatedParents(s.node, y, s.down[y], nodes)
      && (Apart(s, nodes) ==> LinksRotated(s, done.0, s.node, y, nodes[s.node].parent))
  {
    var (s1, m1) := Rotate(s, nodes);
    var nodes1 := OnNodes(m1, nodes);
    assert Known(s1.parent, |nodes|) && Known(s1.child, |nodes|);
    var (s2, m2) := Rotate(s1, nodes1);
    var nodes2 := OnNodes(m2, nodes1);
    var (s3, m3) := Rotate(s2, nodes2);
    var nodes3 := OnNodes(m3, nodes2);
    var (s4, m4) := Rotate(s3, nodes3);
    calc {
      ExecuteNodes(Rotate, 4, s, nodes);
      ExecuteNodes(Rotate, 3, s1, nodes1);
      ExecuteNodes(Rotate, 2, s2, nodes2);
      ExecuteNodes(Rotate, 1, s3, nodes3);
      ExecuteNodes(Rotate, 0, s4, OnNodes(m4, nodes3));
      (s4, OnNodes(m4, nodes3));
    }
  }
}

/** The registered pool: four message slots for every node, then the allocated blocks. */
module Layout {

  const TASK_SIZE: nat := 40
  const HEADER: nat := 8

  /** A stretch of memory that a call hands to the network or to the caller. */
  datatype Span = Span(addr: int, length: int)

  ghost predicate Disjoint(a: Span, b: Span) {
    a.addr + a.length <= b.addr || b.addr + b.length <= a.addr
  }

  ghost predicate Inside(a: Span, b: Span) {
    b.addr <= a.addr && a.addr + a.length <= b.addr + b.length
  }

  datatype Call = PostSend(peer: nat, dataSize: nat) | PostRecv(peer: nat) | Malloc(length: nat)

  /** `cur[p]` is the receive slot that comes next for peer `p`. */
  datatype State = State(base: int, cur: seq<nat>, taken: nat)

  function Nodes(s: State): nat {
    |s.cur|
  }

  predicate Valid(s: State) {
    forall p :: 0 <= p < |s.cur| ==> s.cur[p] < 3
  }

  predicate Legal(c: Call, nodes: nat) {
    match c
    case PostSend(p, size) => p < nodes && HEADER + size <= TASK_SIZE
    case PostRecv(p) => p < nodes
    case Malloc(length) => length > 0
  }

  /** Which calls the callers make: messages of at most 32 bytes of data, and blocks that are not empty. */
  lemma {:induction false} LegalInNumbers(nodes: nat, p: nat, n: nat)
    ensures Legal(PostSend(p, n), nodes) <==> p < nodes && n <= 32
    ensures Legal(PostRecv(p), nodes) <==> p < nodes
    ensures Legal(Malloc(n), nodes) <==> n != 0
  {
  }

  function SendAddr(base: int, p: nat): int {
    base + p * 4 * TASK_SIZE
  }

  function RecvAddr(base: int, p: nat, slot: nat): int {
    SendAddr(base, p) + TASK_SIZE + slot * TASK_SIZE
  }

  /** The stretch that a call uses. */
  function Used(c: Call, s: State): Span
    requires Valid(s) && Legal(c, Nodes(s))
  {
    match c
    case PostSend(p, size) => Span(SendAddr(s.base, p), HEADER + size)
    case PostRecv(p) => Span(RecvAddr(s.base, p, s.cur[p]), TASK_SIZE)
    case Malloc(length) => Span(s.base + Nodes(s) * 4 * TASK_SIZE + s.taken, length)
  }

  function After(c: Call, s: State): (s': State)
    requires Valid(s) && Legal(c, Nodes(s))
    ensures Valid(s') && Nodes(s') == Nodes(s)
  {
    match c
    case PostSend(_, _) => s
    case PostRecv(p) => s.(cur := s.cur[p := (s.cur[p] + 1) % 3])
    case Malloc(length) => s.(taken := s.taken + length)
  }

  // ----- the calls, in place -----

  /** The part of a transport that the message calls use. */
  class Region {
    const base: int
    const peer: nat
    var sendAddr: int
    var recvAddr: int
    var curRecv: nat

    ghost predicate Valid()
      reads this
    {
      sendAddr == SendAddr(base, peer) && recvAddr == RecvAddr(base, peer, 0) && curRecv < 3
    }

    constructor (base: int, peer: nat)
      ensures Valid() && curRecv == 0 && this.base == base && this.peer == peer
    {
      this.base, this.peer := base, peer;
      curRecv := 0;
      sendAddr := base + peer * 4 * TASK_SIZE;
      recvAddr := base + peer * 4 * TASK_SIZE + TASK_SIZE;
    }

    /** `hmp_send_task_create`. */
    method SendTask(dataSize: nat) returns (span: Span)
      requires Valid()
      ensures span == Span(SendAddr(base, peer), HEADER + dataSize)
    {
      span := Span(sendAddr, HEADER + dataSize);
    }

    /** `hmp_recv_task_create`. */
    method RecvTask() returns (span: Span)
      requires Valid()
      modifies this`curRecv
      ensures Valid() && span == Span(RecvAddr(base, peer, old(curRecv)), TASK_SIZE)
      ensures curRecv == (old(curRecv) + 1) % 3
    {
      span := Span(recvAddr + curRecv * TASK_SIZE, TASK_SIZE);
      curRecv := (curRecv + 1) % 3;
    }

    /** `hmp_pre_post_recv`: the first two of the three receive slots are posted before a connection is there. */
    method PrePostRecv() returns (spans: seq<Span>)
      requires Valid() && curRecv == 0
      modifies this`curRecv
      ensures Valid() && curRecv == 2
      ensures spans == [Span(base + 160 * peer + 40, 40), Span(base + 160 * peer + 80, 40)]
    {
      spans := [];
      var i := 0;
      while i < 2
        invariant 0 <= i <= 2 && Valid() && curRecv == i == |spans|
        invariant forall j :: 0 <= j < i ==> spans[j] == Span(RecvAddr(base, peer, j), 40)
      {
        var span := RecvTask();
        spans := spans + [span];
        i := i + 1;
      }
    }
  }

  class Mempool {
    const base: int
    const nodes: nat
    var allocSize: nat

    constructor (base: int, nodes: nat)
      ensures allocSize == 0 && this.base == base && this.nodes == nodes
    {
      this.base, this.nodes := base, nodes;
      allocSize := 0;
    }

    /** `hmp_malloc`: there is no check against the pool's size. */
    method Malloc(length: nat) returns (span: Span)
      requires length > 0
      modifies this
      ensures span == Span(base + nodes * 4 * TASK_SIZE + old(allocSize), length)
      ensures allocSize == old(allocSize) + length
    {
      var addr := base + nodes * 4 * TASK_SIZE;
      span := Span(addr + allocSize, length);
      allocSize := allocSize + length;
    }
  }

  // ----- runs -----

  ghost predicate LegalRun(calls: seq<Call>, nodes: nat) {
    forall i :: 0 <= i < |calls| ==> Legal(calls[i], nodes)
  }

  /** The state before the `i`th call. */
  ghost function At(calls: seq<Call>, s: State, i: nat): (r: State)
    requires Valid(s) && LegalRun(calls, Nodes(s)) && i <= |calls|
    ensures Valid(r) && Nodes(r) == Nodes(s) && r.base == s.base
  {
    if i == 0 then s else After(calls[i - 1], At(calls, s, i - 1))
  }

  ghost function UsedAt(calls: seq<Call>, s: State, i: nat): Span
    requires Valid(s) && LegalRun(calls, Nodes(s)) && i < |calls|
  {
    Used(calls[i], At(calls, s, i))
  }

  /** How many of the calls from `i` on and before `j` post a receive for peer `p`. */
  ghost function Receives(calls: seq<Call>, p: nat, i: nat, j: nat): nat
    requires i <= j <= |calls|
    decreases j - i
  {
    if i == j then 0 else Receives(calls, p, i, j - 1) + (if calls[j - 1] == PostRecv(p) then 1 else 0)
  }

  lemma {:induction false} NextSlot(c: nat)
    ensures (c % 3 + 1) % 3 == (c + 1) % 3
  {
  }

  lemma {:induction false} SlotAt(calls: seq<Call>, s: State, p: nat, i: nat, j: nat)
    requires Valid(s) && LegalRun(calls, Nodes(s)) && i <= j <= |calls| && p < Nodes(s)
    ensures At(calls, s, j).cur[p] == (At(calls, s, i).cur[p] + Receives(calls, p, i, j)) % 3
    decreases j - i
  {
    if i < j {
      SlotAt(calls, s, p, i, j - 1);
      assert At(calls, s, j) == After(calls[j - 1], At(calls, s, j - 1));
      NextSlot(At(calls, s, i).cur[p] + Receives(calls, p, i, j - 1));
    }
  }

  lemma {:induction false} TakenGrows(calls: seq<Call>, s: State, i: nat, j: nat)
    requires Valid(s) && LegalRun(calls, Nodes(s)) && i <= j <= |calls|
    ensures At(calls, s, i).taken <= At(calls, s, j).taken
    decreases j - i
  {
    if i < j {
      TakenGrows(calls, s, i, j - 1);
    }
  }

  /** The stretch of the pool that belongs to peer `p`. */
  ghost function PeerSpan(base: int, p: nat): Span {
    Span(SendAddr(base, p), 4 * TASK_SIZE)
  }

  lemma {:induction false} PeersDisjoint(base: int, p: nat, q: nat)
    requires p != q
    ensures Disjoint(PeerSpan(base, p), PeerSpan(base, q))
  {
    if p < q {
      assert q * 4 * TASK_SIZE >= (p + 1) * 4 * TASK_SIZE;
    } else {
      assert p * 4 * TASK_SIZE >= (q + 1) * 4 * TASK_SIZE;
    }
  }

  lemma {:induction false} PeersBeforeBlocks(base: int, p: nat, nodes: nat)
    requires p < nodes
    ensures SendAddr(base, p) + 4 * TASK_SIZE <= base + nodes * 4 * TASK_SIZE
  {
    assert nodes * 4 * TASK_SIZE >= (p + 1) * 4 * TASK_SIZE;
  }

  /** Whose slots a message call uses. */
  function Peer(c: Call): nat
    requires !c.Malloc?
  {
    c.peer
  }

  lemma {:induction false} UsedInPeer(c: Call, s: State)
    requires Valid(s) && Legal(c, Nodes(s)) && !c.Malloc?
    ensures Inside(Used(c, s), PeerSpan(s.base, Peer(c)))
  {
  }

  /** The same for two messages with one peer. */
  lemma {:induction false} SamePeer(calls: seq<Call>, s: State, i: nat, j: nat)
    requires Valid(s) && LegalRun(calls, Nodes(s)) && i < j < |calls|
    requires !calls[i].Malloc? && !calls[j].Malloc? && Peer(calls[i]) == Peer(calls[j])
    ensures Disjoint(UsedAt(calls, s, i), UsedAt(calls, s, j)) <==>
      !(calls[i].PostSend? && calls[j].PostSend?) &&
      !(calls[i].PostRecv? && calls[j].PostRecv? && Receives(calls, Peer(calls[i]), i, j) % 3 == 0)
  {
    var p := Peer(calls[i]);
    var u, v := At(calls, s, i).cur[p], At(calls, s, j).cur[p];
    if calls[i].PostRecv? && calls[j].PostRecv? {
      SlotAt(calls, s, p, i, j);
      SlotsApart(u, Receives(calls, p, i, j));
    }
  }

  lemma {:induction false} SlotsApart(c: nat, k: nat)
    requires c < 3
    ensures (c + k) % 3 == c <==> k % 3 == 0
  {
  }

  /** Two calls of a run use the same memory only if both post a send to the same peer, or both
      post a receive for the same peer with a multiple of three receives from one to the other. */
  lemma {:induction false} RunDisjoint(calls: seq<Call>, s: State, i: nat, j: nat)
    requires Valid(s) && LegalRun(calls, Nodes(s)) && i < j < |calls|
    ensures Disjoint(UsedAt(calls, s, i), UsedAt(calls, s, j)) <==>
      !(calls[i].PostSend? && calls[j].PostSend? && calls[i].peer == calls[j].peer) &&
      !(calls[i].PostRecv? && calls[i] == calls[j] && Receives(calls, calls[i].peer, i, j) % 3 == 0)
  {
    var a, b := At(calls, s, i), At(calls, s, j);
    TakenGrows(calls, s, i + 1, j);
    if calls[i].Malloc? && calls[j].Malloc? {
    } else if calls[i].Malloc? {
      UsedInPeer(calls[j], b);
      PeersBeforeBlocks(s.base, Peer(calls[j]), Nodes(s));
    } else if calls[j].Malloc? {
      UsedInPeer(calls[i], a);
      PeersBeforeBlocks(s.base, Peer(calls[i]), Nodes(s));
    } else if Peer(calls[i]) != Peer(calls[j]) {
      UsedInPeer(calls[i], a);
      UsedInPeer(calls[j], b);
      PeersDisjoint(s.base, Peer(calls[i]), Peer(calls[j]));
    } else {
      SamePeer(calls, s, i, j);
    }
  }

  /** Three receives in a row for one peer use three different slots. */
  lemma {:induction false} ThreeReceivesDiffer(calls: seq<Call>, s: State, i: nat, j: nat)
    requires Valid(s) && LegalRun(calls, Nodes(s)) && i < j < |calls|
    requires calls[i].PostRecv? && calls[i] == calls[j] && Receives(calls, calls[i].peer, i, j) <= 2
    ensures Disjoint(UsedAt(calls, s, i), UsedAt(calls, s, j))
  {
    ReceivesAtLeastOne(calls, calls[i].peer, i, j);
    RunDisjoint(calls, s, i, j);
  }

  lemma {:induction false} ReceivesAtLeastOne(calls: seq<Call>, p: nat, i: nat, j: nat)
    requires i < j <= |calls| && calls[i] == PostRecv(p)
    ensures Receives(calls, p, i, j) >= 1
    decreases j - i
  {
    if i + 1 < j {
      ReceivesAtLeastOne(calls, p, i, j - 1);
    } else {
      assert Receives(calls, p, i, i) == 0;
    }
  }

  /** Message slots lie inside any pool with room for all of them; a block lies inside exactly
      when the slots and everything allocated so far fit, which `hmp_malloc` does not check. */
  lemma {:induction false} InsidePool(c: Call, s: State, size: nat)
    requires Valid(s) && Legal(c, Nodes(s)) && Nodes(s) * 4 * TASK_SIZE <= size
    ensures Inside(Used(c, s), Span(s.base, size)) <==>
      !c.Malloc? || Nodes(s) * 4 * TASK_SIZE + After(c, s).taken <= size
  {
    if !c.Malloc? {
      UsedInPeer(c, s);
      PeersBeforeBlocks(s.base, Peer(c), Nodes(s));
    }
  }

  /** A message keeps to its send slot exactly when it carries at most 32 bytes of data. */
  lemma {:induction false} SendFits(base: int, p: nat, dataSize: nat)
    ensures dataSize <= 32 <==>
      Disjoint(Span(SendAddr(base, p), HEADER + dataSize), Span(RecvAddr(base, p, 0), TASK_SIZE))
  {
  }

  // ----- where everything is, in numbers -----

  /** The bytes that the `Malloc` calls before the `i`th call took. */
  ghost function Allocated(calls: seq<Call>, i: nat): nat
    requires i <= |calls|
  {
    if i == 0 then 0 else Allocated(calls, i - 1) + (if calls[i - 1].Malloc? then calls[i - 1].length else 0)
  }

  lemma {:induction false} TakenAt(calls: seq<Call>, s: State, i: nat)
    requires Valid(s) && LegalRun(calls, Nodes(s)) && i <= |calls|
    ensures At(calls, s, i).taken == s.taken + Allocated(calls, i)
  {
    if i > 0 {
      TakenAt(calls, s, i - 1);
    }
  }

  /** In a run from the beginning, peer `p` has the 160 bytes from `160 * p` on: first the send slot of 40 bytes, then
      three receive slots of 40 bytes, which are posted in order, the first one first and round again. */
  lemma {:induction false} ReceivePlaces(calls: seq<Call>, s: State, i: nat)
    requires Valid(s) && LegalRun(calls, Nodes(s)) && i < |calls| && calls[i].PostRecv?
    requires s.cur[calls[i].peer] == 0
    ensures var p := calls[i].peer;
      UsedAt(calls, s, i) == Span(s.base + 160 * p + 40 + 40 * (Receives(calls, p, 0, i) % 3), 40)
  {
    var p := calls[i].peer;
    SlotAt(calls, s, p, 0, i);
    assert At(calls, s, 0) == s;
    RecvPlace(p, At(calls, s, i));
  }

  /** A message takes 8 bytes more than its data. The blocks follow from `160 * nodes` on, one behind the other. */
  lemma {:induction false} OtherPlaces(calls: seq<Call>, s: State, i: nat)
    requires Valid(s) && LegalRun(calls, Nodes(s)) && i < |calls| && s.taken == 0
    ensures calls[i].PostSend? ==> UsedAt(calls, s, i) == Span(s.base + 160 * calls[i].peer, 8 + calls[i].dataSize)
    ensures calls[i].Malloc? ==>
      UsedAt(calls, s, i) == Span(s.base + 160 * |s.cur| + Allocated(calls, i), calls[i].length)
  {
    TakenAt(calls, s, i);
    if !calls[i].PostRecv? {
      OtherPlace(calls[i], At(calls, s, i));
    }
  }

  lemma {:induction false} RecvPlace(p: nat, r: State)
    requires Valid(r) && p < Nodes(r)
    ensures Used(PostRecv(p), r) == Span(r.base + 160 * p + 40 + 40 * r.cur[p], 40)
  {
  }

  lemma {:induction false} OtherPlace(c: Call, r: State)
    requires Valid(r) && Legal(c, Nodes(r)) && !c.PostRecv?
    ensures c.PostSend? ==> Used(c, r) == Span(r.base + 160 * c.peer, 8 + c.dataSize)
    ensures c.Malloc? ==> Used(c, r) == Span(r.base + 160 * Nodes(r) + r.taken, c.length)
  {
  }

  // ----- the same runs on the objects -----

  /** The regions of all peers, in order, over one pool. */
  ghost predicate Installed(pool: Mempool, regions: seq<Region>)
    reads regions
  {
    && |regions| == pool.nodes
    && (forall p :: 0 <= p < |regions| ==> regions[p].base == pool.base && regions[p].peer == p && regions[p].Valid())
    && forall p, q :: 0 <= p < q < |regions| ==> regions[p] != regions[q]
  }

  ghost function Snapshot(pool: Mempool, regions: seq<Region>): State
    reads pool, regions
  {
    State(pool.base, seq(|regions|, p requires 0 <= p < |regions| reads regions => regions[p].curRecv), pool.allocSize)
  }

  method Perform(pool: Mempool, regions: seq<Region>, c: Call) returns (span: Span)
    requires Installed(pool, regions) && Legal(c, pool.nodes)
    modifies pool, regions
    ensures Installed(pool, regions) && Valid(old(Snapshot(pool, regions)))
    ensures span == Used(c, old(Snapshot(pool, regions)))
    ensures Snapshot(pool, regions) == After(c, old(Snapshot(pool, regions)))
  {
    match c {
      case PostSend(p, size) => span := regions[p].SendTask(size);
      case PostRecv(p) => span := regions[p].RecvTask();
      case Malloc(length) => span := pool.Malloc(length);
    }
  }

  /** The objects hand out exactly the stretches that the specification gives. */
  method Run(pool: Mempool, regions: seq<Region>, calls: seq<Call>) returns (spans: seq<Span>)
    requires Installed(pool, regions) && LegalRun(calls, pool.nodes)
    modifies pool, regions
    ensures Valid(old(Snapshot(pool, regions))) && |spans| == |calls|
    ensures forall i :: 0 <= i < |calls| ==> spans[i] == UsedAt(calls, old(Snapshot(pool, regions)), i)
  {
    ghost var s := Snapshot(pool, regions);
    spans := [];
    var i := 0;
    while i < |calls|
      invariant 0 <= i == |spans| <= |calls| && Installed(pool, regions) && Snapshot(pool, regions) == At(calls, s, i)
      invariant forall j :: 0 <= j < i ==> spans[j] == UsedAt(calls, s, j)
    {
      var span := Perform(pool, regions, calls[i]);
      spans := spans + [span];
      i := i + 1;
    }
  }
}

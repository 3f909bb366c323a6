/** What the steps do to the state of each transport and to the stored memory, said of the steps
    and of runs alone. */
module TransportStates {
  import opened Wire
  import opened Handshake
  import opened Delivery

  /** The state of the transport for `c` at node `x`, if there is one. */
  datatype Seen = Absent | Present(state: TransState)

  function StateOf(s: Cluster, x: nat, c: Conn): Seen
    requires x < |s.nodes|
  {
    if c in s.nodes[x].trans then Present(s.nodes[x].trans[c].state) else Absent
  }

  /** The request for `c` can be answered. */
  predicate Answerable(s: Cluster, c: Conn)
    requires c.b < |s.nodes|
  {
    LinkOf(s, c).phase == Requested && s.nodes[c.b].pc != MemInit && s.nodes[c.b].pc != Listen
  }

  /** The five ways to a state: a new transport of the dialling node is INIT, one of an answered request is
      CONNECTING, the write after dialling makes it CONNECTING, the message of the peer
      CONNECTED, and a connection error ERROR. Every other step leaves it. */
  ghost predicate StateRule(s: Cluster, act: Action, s': Cluster, x: nat, c: Conn)
    requires c.a < c.b < |s.nodes| == |s'.nodes| && (x == c.a || x == c.b)
  {
    StateOf(s', x, c) ==
      if act == Main(x) && x == c.a && s.nodes[x].pc == Create(c.b) then Present(Init)
      else if act == Main(x) && x == c.a && s.nodes[x].pc == Mark(c.b) then Present(Connecting)
      else if act == ConnectRequest(c) && x == c.b && Answerable(s, c) then Present(Connecting)
      else if Handles(s, act, x, c) then Present(Connected)
      else if act == ConnectError(x, c) && StateOf(s, x, c).Present? then Present(Failed)
      else StateOf(s, x, c)
  }

  lemma {:induction false} MainState(cfg: Config, s: Cluster, y: nat, x: nat, c: Conn)
    requires Shaped(cfg, s) && c.a < c.b < |s.nodes| && InStep(s, c) && InRange(s, Main(y)) && (x == c.a || x == c.b)
    ensures StateRule(s, Main(y), Next(cfg, s, Main(y)), x, c)
  {
    if y < |s.nodes| {
      MainSees(cfg, s, y, c);
      MainSeenState(cfg, s, MainStep(cfg, s, y), y, x, c);
    }
  }

  lemma {:induction false} MainSeenState(cfg: Config, s: Cluster, s': Cluster, y: nat, x: nat, c: Conn)
    requires Shaped(cfg, s) && c.a < c.b < |s.nodes| && InStep(s, c) && InRange(s, Main(y)) && (x == c.a || x == c.b)
    requires y < |s.nodes| && MainSeen(cfg, s, s', y, c)
    ensures StateRule(s, Main(y), s', x, c)
  {
  }

  lemma {:induction false} RequestState(cfg: Config, s: Cluster, d: Conn, x: nat, c: Conn)
    requires Shaped(cfg, s) && c.a < c.b < |s.nodes| && InStep(s, c) && (x == c.a || x == c.b)
    ensures StateRule(s, ConnectRequest(d), Next(cfg, s, ConnectRequest(d)), x, c)
  {
  }

  lemma {:induction false} ReceiveState(cfg: Config, s: Cluster, y: nat, d: Conn, slot: seq<Byte>, x: nat, c: Conn)
    requires Shaped(cfg, s) && c.a < c.b < |s.nodes| && (x == c.a || x == c.b)
    requires CanReceive(s, y, d, slot) ==> TypeField(slot) == TypeCode(INIT)
    ensures StateRule(s, Receive(y, d, slot), Next(cfg, s, Receive(y, d, slot)), x, c)
  {
  }

  lemma {:induction false} OtherState(cfg: Config, s: Cluster, act: Action, x: nat, c: Conn)
    requires Shaped(cfg, s) && c.a < c.b < |s.nodes| && (x == c.a || x == c.b)
    requires act.RouteResolved? || act.Established? || act.ConnectError?
    ensures StateRule(s, act, Next(cfg, s, act), x, c)
  {
  }

  /** In every reachable state every step follows the rule. */
  lemma {:induction false} StateStep(cfg: Config, s: Cluster, act: Action, x: nat, c: Conn)
    requires Proper(cfg) && Reached(cfg, s) && Between(cfg, c) && (x == c.a || x == c.b)
    ensures StateRule(s, act, Next(cfg, s, act), x, c)
  {
    assert InStep(s, c);
    ActsInRange(cfg, s, act);
    match act
    case Main(y) => MainState(cfg, s, y, x, c);
    case ConnectRequest(d) => RequestState(cfg, s, d, x, c);
    case Receive(y, d, slot) =>
      if CanReceive(s, y, d, slot) {
        InitArrives(cfg, s, y, d, slot);
      }
      ReceiveState(cfg, s, y, d, slot, x, c);
    case _ => OtherState(cfg, s, act, x, c);
  }

  // ----- errors -----

  /** No step of the run handles a message at `x`'s end of `c` or writes CONNECTING there. */
  predicate Quiet(cfg: Config, s: Cluster, run: seq<Action>, x: nat, c: Conn)
    requires Shaped(cfg, s)
    decreases |run|
  {
    run != [] ==>
      !Handles(s, run[0], x, c) && !MarksNow(s, run[0], x, c) && Quiet(cfg, Next(cfg, s, run[0]), run[1..], x, c)
  }

  lemma {:induction false} FailedStep(cfg: Config, s: Cluster, act: Action, x: nat, c: Conn)
    requires Proper(cfg) && Reached(cfg, s) && Between(cfg, c) && (x == c.a || x == c.b)
    requires StateOf(s, x, c) == Present(Failed) && !Handles(s, act, x, c) && !MarksNow(s, act, x, c)
    ensures Reached(cfg, Next(cfg, s, act)) && StateOf(Next(cfg, s, act), x, c) == Present(Failed)
  {
    StateStep(cfg, s, act, x, c);
    NextReached(cfg, s, act);
    assert InStep(s, c);
  }

  lemma {:induction false} FailedStays(cfg: Config, s: Cluster, run: seq<Action>, x: nat, c: Conn)
    requires Proper(cfg) && Reached(cfg, s) && Between(cfg, c) && (x == c.a || x == c.b)
    requires StateOf(s, x, c) == Present(Failed) && Quiet(cfg, s, run, x, c)
    ensures StateOf(Run(cfg, s, run), x, c) == Present(Failed)
    decreases |run|
  {
    if run != [] {
      FailedStep(cfg, s, run[0], x, c);
      FailedStays(cfg, Next(cfg, s, run[0]), run[1..], x, c);
    }
  }

  /** A connection error puts an existing transport into the error state, and it stays there until its
      message is handled or CONNECTING is written. */
  lemma {:induction false} FailedAfterError(cfg: Config, run: seq<Action>, more: seq<Action>, x: nat, c: Conn)
    requires Proper(cfg) && Between(cfg, c) && (x == c.a || x == c.b)
    requires var s := Run(cfg, Start(cfg), run);
      StateOf(s, x, c).Present? && Quiet(cfg, Next(cfg, s, ConnectError(x, c)), more, x, c)
    ensures StateOf(Run(cfg, Start(cfg), run + [ConnectError(x, c)] + more), x, c) == Present(Failed)
  {
    var s := Run(cfg, Start(cfg), run);
    StartReached(cfg);
    RunReached(cfg, Start(cfg), run);
    StateStep(cfg, s, ConnectError(x, c), x, c);
    NextReached(cfg, s, ConnectError(x, c));
    FailedStays(cfg, Next(cfg, s, ConnectError(x, c)), more, x, c);
    RunThrough(cfg, Start(cfg), run, ConnectError(x, c), more);
  }

  /** Node 0 created its transport to node 1. */
  lemma {:induction false} CreatedSteps(cfg: Config) returns (run: seq<Action>)
    requires Proper(cfg) && |cfg.mrs| == 2
    ensures var s := Run(cfg, Start(cfg), run); StateOf(s, 0, Conn(0, 1)) == Present(Init) && s.nodes[0].pc == Issue(1)
  {
    run := [];
    RunExtended(cfg, Start(cfg), run, Main(0));
    run := run + [Main(0)];
    RunExtended(cfg, Start(cfg), run, Main(0));
    run := run + [Main(0)];
    RunExtended(cfg, Start(cfg), run, Main(0));
    run := run + [Main(0)];
    RunExtended(cfg, Start(cfg), run, Main(0));
    run := run + [Main(0)];
  }

  // ----- the stored memory -----

  /** A node's own entry: its base and key once the memory is there, and never its length. */
  ghost predicate OwnOk(cfg: Config, s: Cluster, x: nat)
    requires x < |s.nodes| && x < |cfg.mrs| && x < |s.nodes[x].infos|
  {
    s.nodes[x].infos[x] ==
      if s.nodes[x].pc == MemInit then MrInfo(0, 0, 0) else MrInfo(cfg.mrs[x].addr, 0, cfg.mrs[x].rkey)
  }

  /** The entry of node `j` at node `x` after a step: what the message of `j` brings, or the old one. */
  ghost predicate EntryRule(cfg: Config, s: Cluster, act: Action, s': Cluster, x: nat, c: Conn)
    requires c.a < c.b < |s.nodes| == |s'.nodes| && (x == c.a || x == c.b)
    requires |s.nodes[x].infos| == |s'.nodes[x].infos| == |cfg.mrs| == |s.nodes|
  {
    var j := Other(c, x);
    s'.nodes[x].infos[j] == if Handles(s, act, x, c) then cfg.mrs[j] else s.nodes[x].infos[j]
  }

  lemma {:induction false} MainEntries(cfg: Config, s: Cluster, y: nat, x: nat, c: Conn)
    requires Shaped(cfg, s) && c.a < c.b < |s.nodes| && (x == c.a || x == c.b)
    ensures EntryRule(cfg, s, Main(y), Next(cfg, s, Main(y)), x, c)
    ensures OwnOk(cfg, s, x) ==> OwnOk(cfg, Next(cfg, s, Main(y)), x)
  {
    if y < |s.nodes| {
      MainSees(cfg, s, y, c);
    }
  }

  lemma {:induction false} ReceiveEntries(cfg: Config, s: Cluster, y: nat, d: Conn, slot: seq<Byte>, x: nat, c: Conn)
    requires Shaped(cfg, s) && c.a < c.b < |s.nodes| && (x == c.a || x == c.b)
    requires CanReceive(s, y, d, slot) ==> TypeField(slot) == TypeCode(INIT) && d.a < d.b < |s.nodes|
    requires CanReceive(s, y, d, slot) ==>
      s.nodes[y].trans[d].nodeId == Other(d, y) && MrFields(slot) == cfg.mrs[Other(d, y)]
    ensures EntryRule(cfg, s, Receive(y, d, slot), Next(cfg, s, Receive(y, d, slot)), x, c)
    ensures OwnOk(cfg, s, x) ==> OwnOk(cfg, Next(cfg, s, Receive(y, d, slot)), x)
  {
  }

  lemma {:induction false} OtherEntries(cfg: Config, s: Cluster, act: Action, x: nat, c: Conn)
    requires Shaped(cfg, s) && c.a < c.b < |s.nodes| && (x == c.a || x == c.b) && !act.Main? && !act.Receive?
    ensures EntryRule(cfg, s, act, Next(cfg, s, act), x, c)
    ensures OwnOk(cfg, s, x) ==> OwnOk(cfg, Next(cfg, s, act), x)
  {
  }

  /** What arrives is numbered by, and holds the memory of, the other end. */
  lemma {:induction false} Arrives(cfg: Config, s: Cluster, y: nat, d: Conn, slot: seq<Byte>)
    requires Proper(cfg) && Inv(cfg, s) && CanReceive(s, y, d, slot)
    ensures TypeField(slot) == TypeCode(INIT) && d.a < d.b < |s.nodes|
    ensures s.nodes[y].trans[d].nodeId == Other(d, y) && MrFields(slot) == cfg.mrs[Other(d, y)]
  {
    assert LinkOk(cfg, d, s.links[d]) && NodeOk(cfg, s.nodes[y], y) && TransOk(cfg, s.nodes[y], y, d);
    InitMessageRead(cfg.mrs[Other(d, y)], slot);
  }

  lemma {:induction false} EntryStep(cfg: Config, s: Cluster, act: Action, x: nat, c: Conn)
    requires Proper(cfg) && Reached(cfg, s) && Between(cfg, c) && (x == c.a || x == c.b)
    ensures EntryRule(cfg, s, act, Next(cfg, s, act), x, c)
    ensures OwnOk(cfg, s, x) ==> OwnOk(cfg, Next(cfg, s, act), x)
  {
    match act
    case Main(y) => MainEntries(cfg, s, y, x, c);
    case Receive(y, d, slot) =>
      if CanReceive(s, y, d, slot) {
        Arrives(cfg, s, y, d, slot);
      }
      ReceiveEntries(cfg, s, y, d, slot, x, c);
    case _ => OtherEntries(cfg, s, act, x, c);
  }

  lemma {:induction false} EntryRun(cfg: Config, s: Cluster, run: seq<Action>, x: nat, c: Conn)
    requires Proper(cfg) && Reached(cfg, s) && Between(cfg, c) && (x == c.a || x == c.b) && OwnOk(cfg, s, x)
    ensures var r, j := Run(cfg, s, run), Other(c, x);
      && OwnOk(cfg, r, x)
      && r.nodes[x].infos[j] == if Delivered(cfg, s, run, x, c) > 0 then cfg.mrs[j] else s.nodes[x].infos[j]
    decreases |run|
  {
    if run != [] {
      EntryStep(cfg, s, run[0], x, c);
      NextReached(cfg, s, run[0]);
      EntryRun(cfg, Next(cfg, s, run[0]), run[1..], x, c);
    }
  }

  /** In every run, a node's entry for itself holds its base and key as soon as its memory is there, and length 0;
      its entry for a peer is empty until the peer's message is handled and what the peer registered afterwards. */
  lemma {:induction false} StoredMemory(cfg: Config, run: seq<Action>, x: nat, c: Conn)
    requires Proper(cfg) && Between(cfg, c) && (x == c.a || x == c.b)
    ensures var nd, j := Run(cfg, Start(cfg), run).nodes[x], Other(c, x);
      && nd.infos[x] == (if nd.pc == MemInit then MrInfo(0, 0, 0) else MrInfo(cfg.mrs[x].addr, 0, cfg.mrs[x].rkey))
      && nd.infos[j] == (if Delivered(cfg, Start(cfg), run, x, c) > 0 then cfg.mrs[j] else MrInfo(0, 0, 0))
  {
    StartReached(cfg);
    EntryRun(cfg, Start(cfg), run, x, c);
  }

  // ----- strangers -----

  /** A request from an address that no earlier node has: the transport keeps node number 0 and stays out of
      the table, and the first message over it is stored as the memory of node 0. */
  lemma {:induction false} Stranger(nd: Node, x: nat, c: Conn, addrs: seq<string>, from: string, slot: seq<Byte>)
    requires x <= |addrs| && (forall i :: 0 <= i < x ==> addrs[i] != from) && |nd.infos| > 0
    requires |slot| == 40 && TypeField(slot) == 0
    ensures var nd1 := OnConnectRequest(nd, x, c, addrs, from);
      && nd1 == nd.(trans := nd.trans[c := Transport(0, Connecting)])
      && OnReceive(nd1, c, slot).infos == nd.infos[0 := MrFields(slot)]
      && OnReceive(nd1, c, slot).connect == nd.connect
  {
  }

  /** A message of another type than the first one changes nothing. */
  lemma {:induction false} OtherMessage(nd: Node, c: Conn, t: MsgType, data: seq<Byte>, slot: seq<Byte>)
    requires c in nd.trans && nd.trans[c].nodeId < |nd.infos| && |slot| == 40 && Arrived(slot, Message(t, data))
    requires t != INIT
    ensures OnReceive(nd, c, slot) == nd
  {
    PrefixPart(Message(t, data), slot, 0, 4);
    MessageParts(t, data);
    TypeCodesFit(t);
    NumberOfBytes(TypeCode(t), 4);
    assert slot[..4] == slot[0..4] && Message(t, data)[..4] == Message(t, data)[0..4];
  }
}

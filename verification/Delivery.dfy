/** How often the memory message is delivered, and what a late write of CONNECTING costs. */
module Delivery {
  import opened Wire
  import opened Handshake

  // ----- how far a node's main thread is -----

  predicate Created(nd: Node, j: nat) {
    match nd.pc
    case MemInit | Listen | Clear => false
    case Create(i) => i > j
    case Issue(i) => i >= j
    case Mark(i) => i >= j
  }

  predicate Issued(nd: Node, j: nat) {
    match nd.pc
    case MemInit | Listen | Clear => false
    case Create(i) => i > j
    case Issue(i) => i > j
    case Mark(i) => i >= j
  }

  predicate Marked(nd: Node, j: nat) {
    match nd.pc
    case MemInit | Listen | Clear => false
    case Create(i) => i > j
    case Issue(i) => i > j
    case Mark(i) => i > j
  }

  /** The two ends of `c` and the network agree on how far the connection is. */
  ghost predicate InStep(s: Cluster, c: Conn)
    requires c.a < |s.nodes| && c.b < |s.nodes|
  {
    var l := LinkOf(s, c);
    && (l.phase == Idle <==> !Issued(s.nodes[c.a], c.b))
    && (c in s.nodes[c.a].trans <==> Created(s.nodes[c.a], c.b))
    && (c in s.nodes[c.b].trans <==> l.phase == Accepted)
    && (l.phase != Accepted ==> !l.eventA && !l.eventB && l.toA == [] && l.toB == [])
  }

  /** The main thread of the acting node is within the configuration. */
  predicate InRange(s: Cluster, act: Action) {
    act.Main? && act.x < |s.nodes| && (s.nodes[act.x].pc.Issue? || s.nodes[act.x].pc.Mark?) ==>
      act.x < s.nodes[act.x].pc.i < |s.nodes|
  }

  ghost predicate Reached(cfg: Config, s: Cluster) {
    Inv(cfg, s) && forall c :: Between(cfg, c) ==> InStep(s, c)
  }

  lemma {:induction false} StartReached(cfg: Config)
    requires Proper(cfg)
    ensures Reached(cfg, Start(cfg))
  {
    StartInv(cfg);
  }

  lemma {:induction false} ActsInRange(cfg: Config, s: Cluster, act: Action)
    requires Inv(cfg, s)
    ensures InRange(s, act)
  {
    if act.Main? && act.x < |s.nodes| {
      assert NodeOk(cfg, s.nodes[act.x], act.x);
    }
  }

  /** What a step of the main thread of node `y` changes for `c`. */
  ghost predicate MainSeen(cfg: Config, s: Cluster, s': Cluster, y: nat, c: Conn)
    requires Shaped(cfg, s) && y < |s.nodes|
  {
    && |s'.nodes| == |s.nodes|
    && (forall x :: 0 <= x < |s.nodes| ==> s'.nodes[x] == if x == y then MainNode(cfg, s.nodes[y], y) else s.nodes[x])
    && LinkOf(s', c) ==
       if s.nodes[y].pc == Issue(c.b) && y == c.a then LinkOf(s, c).(phase := Resolving) else LinkOf(s, c)
  }

  lemma {:induction false} MainSees(cfg: Config, s: Cluster, y: nat, c: Conn)
    requires Shaped(cfg, s) && y < |s.nodes|
    ensures MainSeen(cfg, s, MainStep(cfg, s, y), y, c)
  {
  }

  lemma {:induction false} MainSeenInStep(cfg: Config, s: Cluster, s': Cluster, y: nat, c: Conn)
    requires Shaped(cfg, s) && c.a < c.b < |s.nodes| && InStep(s, c) && InRange(s, Main(y)) && y < |s.nodes|
    requires MainSeen(cfg, s, s', y, c)
    ensures InStep(s', c)
  {
  }

  lemma {:induction false} MainInStep(cfg: Config, s: Cluster, x: nat, c: Conn)
    requires Shaped(cfg, s) && c.a < c.b < |s.nodes| && InStep(s, c) && InRange(s, Main(x)) && x < |s.nodes|
    ensures InStep(Next(cfg, s, Main(x)), c)
  {
    MainSees(cfg, s, x, c);
    MainSeenInStep(cfg, s, MainStep(cfg, s, x), x, c);
  }

  lemma {:induction false} RequestInStep(cfg: Config, s: Cluster, d: Conn, c: Conn)
    requires Shaped(cfg, s) && c.a < c.b < |s.nodes| && InStep(s, c)
    ensures InStep(Next(cfg, s, ConnectRequest(d)), c)
  {
    if d != c {
      assert LinkOf(Next(cfg, s, ConnectRequest(d)), c) == LinkOf(s, c);
    }
  }

  /** What handling a message or an error changes for `c`. */
  ghost predicate ReceiveSeen(s: Cluster, s': Cluster, act: Action, c: Conn) {
    && |s'.nodes| == |s.nodes|
    && (forall x :: 0 <= x < |s.nodes| ==>
         s'.nodes[x].pc == s.nodes[x].pc && s'.nodes[x].trans.Keys == s.nodes[x].trans.Keys)
    && LinkOf(s', c) ==
       if act.Receive? && act.c == c && CanReceive(s, act.x, c, act.slot) then
         WithTo(LinkOf(s, c), c, act.x, To(LinkOf(s, c), c, act.x)[1..])
       else LinkOf(s, c)
  }

  lemma {:induction false} ReceiveSees(cfg: Config, s: Cluster, act: Action, c: Conn)
    requires Shaped(cfg, s) && (act.Receive? || act.ConnectError?)
    ensures ReceiveSeen(s, Next(cfg, s, act), act, c)
  {
  }

  lemma {:induction false} ReceiveSeenInStep(s: Cluster, s': Cluster, act: Action, c: Conn)
    requires c.a < c.b < |s.nodes| && InStep(s, c) && ReceiveSeen(s, s', act, c)
    ensures InStep(s', c)
  {
    assert s'.nodes[c.a].pc == s.nodes[c.a].pc && s'.nodes[c.b].pc == s.nodes[c.b].pc;
  }

  lemma {:induction false} ReceiveInStep(cfg: Config, s: Cluster, act: Action, c: Conn)
    requires Shaped(cfg, s) && c.a < c.b < |s.nodes| && InStep(s, c) && (act.Receive? || act.ConnectError?)
    ensures InStep(Next(cfg, s, act), c)
  {
    ReceiveSees(cfg, s, act, c);
    ReceiveSeenInStep(s, Next(cfg, s, act), act, c);
  }

  lemma {:induction false} NextInStep(cfg: Config, s: Cluster, act: Action, c: Conn)
    requires Shaped(cfg, s) && c.a < c.b < |s.nodes| && InStep(s, c) && InRange(s, act)
    ensures InStep(Next(cfg, s, act), c)
  {
    match act
    case Main(x) =>
      if x < |s.nodes| {
        MainInStep(cfg, s, x, c);
      }
    case ConnectRequest(d) => RequestInStep(cfg, s, d, c);
    case Receive(_, _, _) => ReceiveInStep(cfg, s, act, c);
    case ConnectError(_, _) => ReceiveInStep(cfg, s, act, c);
    case _ =>
      if act.c != c {
        assert LinkOf(Next(cfg, s, act), c) == LinkOf(s, c);
      }
  }

  lemma {:induction false} NextReached(cfg: Config, s: Cluster, act: Action)
    requires Proper(cfg) && Reached(cfg, s)
    ensures Reached(cfg, Next(cfg, s, act))
  {
    NextInv(cfg, s, act);
    ActsInRange(cfg, s, act);
    forall c | Between(cfg, c) ensures InStep(Next(cfg, s, act), c) {
      NextInStep(cfg, s, act, c);
    }
  }

  lemma {:induction false} RunReached(cfg: Config, s: Cluster, run: seq<Action>)
    requires Proper(cfg) && Reached(cfg, s)
    ensures Reached(cfg, Run(cfg, s, run))
    decreases |run|
  {
    if run != [] {
      NextReached(cfg, s, run[0]);
      RunReached(cfg, Next(cfg, s, run[0]), run[1..]);
    }
  }

  // ----- one message for each end -----

  /** The step handles a message at `x`'s end of `c`. */
  predicate Handles(s: Cluster, act: Action, x: nat, c: Conn) {
    act.Receive? && act.x == x && act.c == c && CanReceive(s, x, c, act.slot)
  }

  function Delivered(cfg: Config, s: Cluster, run: seq<Action>, x: nat, c: Conn): nat
    requires Shaped(cfg, s)
    decreases |run|
  {
    if run == [] then 0
    else (if Handles(s, run[0], x, c) then 1 else 0) + Delivered(cfg, Next(cfg, s, run[0]), run[1..], x, c)
  }

  /** What is still to reach `x`'s end: an established event that the other end has not handled
      yet, or a message under way. */
  function Outstanding(s: Cluster, x: nat, c: Conn): nat {
    var l := LinkOf(s, c);
    (if (if x == c.a then l.eventB else l.eventA) then 1 else 0) + |To(l, c, x)|
  }

  function Answered(s: Cluster, c: Conn): nat {
    if LinkOf(s, c).phase == Accepted then 1 else 0
  }

  /** What one step adds to and takes from the messages for `x`'s end. */
  ghost predicate Conserved(s: Cluster, act: Action, s': Cluster, x: nat, c: Conn) {
    Outstanding(s', x, c) + (if Handles(s, act, x, c) then 1 else 0) + Answered(s, c) ==
    Outstanding(s, x, c) + Answered(s', c)
  }

  lemma {:induction false} MainConserves(cfg: Config, s: Cluster, y: nat, x: nat, c: Conn)
    requires Shaped(cfg, s) && c.a < c.b < |s.nodes| && InStep(s, c) && InRange(s, Main(y))
    ensures Conserved(s, Main(y), Next(cfg, s, Main(y)), x, c)
  {
    if y < |s.nodes| && s.nodes[y].pc.Issue? {
      assert c == Conn(y, s.nodes[y].pc.i) ==> !Issued(s.nodes[c.a], c.b);
    } else {
      assert LinkOf(Next(cfg, s, Main(y)), c) == LinkOf(s, c);
    }
  }

  lemma {:induction false} RequestConserves(cfg: Config, s: Cluster, d: Conn, x: nat, c: Conn)
    requires Shaped(cfg, s) && c.a < c.b < |s.nodes| && InStep(s, c) && (x == c.a || x == c.b)
    ensures Conserved(s, ConnectRequest(d), Next(cfg, s, ConnectRequest(d)), x, c)
  {
    if d != c {
      assert LinkOf(Next(cfg, s, ConnectRequest(d)), c) == LinkOf(s, c);
    }
  }

  lemma {:induction false} EventConserves(cfg: Config, s: Cluster, act: Action, x: nat, c: Conn)
    requires Shaped(cfg, s) && c.a < c.b && (x == c.a || x == c.b) && (act.Established? || act.RouteResolved?)
    ensures Conserved(s, act, Next(cfg, s, act), x, c)
  {
    if act.c != c {
      assert LinkOf(Next(cfg, s, act), c) == LinkOf(s, c);
    }
  }

  lemma {:induction false} StepConserves(cfg: Config, s: Cluster, act: Action, x: nat, c: Conn)
    requires Reached(cfg, s) && Between(cfg, c) && (x == c.a || x == c.b)
    ensures Conserved(s, act, Next(cfg, s, act), x, c)
  {
    assert InStep(s, c);
    ActsInRange(cfg, s, act);
    if act.Main? {
      MainConserves(cfg, s, act.x, x, c);
    } else if act.Receive? || act.ConnectError? {
      ReceiveConserves(cfg, s, act, x, c);
    } else if act.ConnectRequest? {
      RequestConserves(cfg, s, act.c, x, c);
    } else {
      EventConserves(cfg, s, act, x, c);
    }
  }

  lemma {:induction false} ReceiveConserves(cfg: Config, s: Cluster, act: Action, x: nat, c: Conn)
    requires Shaped(cfg, s) && c.a < c.b < |s.nodes| && (x == c.a || x == c.b) && (act.Receive? || act.ConnectError?)
    ensures Conserved(s, act, Next(cfg, s, act), x, c)
  {
    ReceiveSees(cfg, s, act, c);
    ReceiveSeenConserves(s, Next(cfg, s, act), act, x, c);
  }

  lemma {:induction false} ReceiveSeenConserves(s: Cluster, s': Cluster, act: Action, x: nat, c: Conn)
    requires c.a < c.b < |s.nodes| && (x == c.a || x == c.b) && (act.Receive? || act.ConnectError?)
    requires ReceiveSeen(s, s', act, c)
    ensures Conserved(s, act, s', x, c)
  {
  }

  lemma {:induction false} RunConserves(cfg: Config, s: Cluster, run: seq<Action>, x: nat, c: Conn)
    requires Proper(cfg) && Reached(cfg, s) && Between(cfg, c) && (x == c.a || x == c.b)
    ensures var s' := Run(cfg, s, run);
      Outstanding(s', x, c) + Delivered(cfg, s, run, x, c) + Answered(s, c) == Outstanding(s, x, c) + Answered(s', c)
    decreases |run|
  {
    if run != [] {
      StepConserves(cfg, s, run[0], x, c);
      NextReached(cfg, s, run[0]);
      RunConserves(cfg, Next(cfg, s, run[0]), run[1..], x, c);
    }
  }

  /** In every run, exactly one message is for each end of an answered connection: it is still
      to be sent, under way or delivered. The two receives that are posted beforehand suffice. */
  lemma {:induction false} OneMessage(cfg: Config, run: seq<Action>, x: nat, c: Conn)
    requires Proper(cfg) && Between(cfg, c) && (x == c.a || x == c.b)
    ensures var s := Run(cfg, Start(cfg), run);
      Outstanding(s, x, c) + Delivered(cfg, Start(cfg), run, x, c) == if LinkOf(s, c).phase == Accepted then 1 else 0
  {
    StartReached(cfg);
    RunConserves(cfg, Start(cfg), run, x, c);
  }

  /** In every run, whatever message is under way to an end can be handled there, whatever the
      slot held behind it: the end has a transport, numbered by a node of the cluster. */
  lemma {:induction false} MessageHasTransport(cfg: Config, run: seq<Action>, x: nat, c: Conn, slot: seq<Byte>)
    requires Proper(cfg) && (x == c.a || x == c.b)
    requires var q := To(LinkOf(Run(cfg, Start(cfg), run), c), c, x); q != [] && |slot| == 40 && Arrived(slot, q[0])
    ensures x < |cfg.mrs| && CanReceive(Run(cfg, Start(cfg), run), x, c, slot)
  {
    var s := Run(cfg, Start(cfg), run);
    StartReached(cfg);
    RunReached(cfg, Start(cfg), run);
    assert LinkOk(cfg, c, s.links[c]);
    assert InStep(s, c) && NodeOk(cfg, s.nodes[x], x);
    assert TransOk(cfg, s.nodes[x], x, c) by { EndsHaveTransports(s, c); }
  }

  lemma {:induction false} EndsHaveTransports(s: Cluster, c: Conn)
    requires c.a < |s.nodes| && c.b < |s.nodes| && InStep(s, c) && LinkOf(s, c).phase != Idle
    ensures c in s.nodes[c.a].trans && (LinkOf(s, c).phase == Accepted ==> c in s.nodes[c.b].trans)
  {
  }

  // ----- when an end is connected -----

  predicate IsConnected(s: Cluster, x: nat, c: Conn) {
    x < |s.nodes| && c in s.nodes[x].trans && s.nodes[x].trans[c].state == Connected
  }

  /** The main thread of the dialling end is about to write CONNECTING. */
  predicate MarksNow(s: Cluster, act: Action, x: nat, c: Conn) {
    x < |s.nodes| && act == Main(x) && x == c.a && s.nodes[x].pc == Mark(c.b)
  }

  ghost predicate ConnectedRule(s: Cluster, act: Action, s': Cluster, x: nat, c: Conn) {
    IsConnected(s', x, c) <==>
      Handles(s, act, x, c) || (IsConnected(s, x, c) && !MarksNow(s, act, x, c) && act != ConnectError(x, c))
  }

  lemma {:induction false} MainConnects(cfg: Config, s: Cluster, y: nat, x: nat, c: Conn)
    requires Shaped(cfg, s) && c.a < c.b < |s.nodes| && InStep(s, c) && InRange(s, Main(y)) && (x == c.a || x == c.b)
    ensures ConnectedRule(s, Main(y), Next(cfg, s, Main(y)), x, c)
  {
    if y < |s.nodes| {
      MainSees(cfg, s, y, c);
      MainSeenConnects(cfg, s, MainStep(cfg, s, y), y, x, c);
    }
  }

  lemma {:induction false} MainSeenConnects(cfg: Config, s: Cluster, s': Cluster, y: nat, x: nat, c: Conn)
    requires Shaped(cfg, s) && c.a < c.b < |s.nodes| && InStep(s, c) && InRange(s, Main(y)) && (x == c.a || x == c.b)
    requires y < |s.nodes| && MainSeen(cfg, s, s', y, c)
    ensures ConnectedRule(s, Main(y), s', x, c)
  {
  }

  lemma {:induction false} RequestConnects(cfg: Config, s: Cluster, d: Conn, x: nat, c: Conn)
    requires Shaped(cfg, s) && c.a < c.b < |s.nodes| && InStep(s, c) && (x == c.a || x == c.b)
    ensures ConnectedRule(s, ConnectRequest(d), Next(cfg, s, ConnectRequest(d)), x, c)
  {
  }

  /** What arrives is the message of the other end. */
  lemma {:induction false} InitArrives(cfg: Config, s: Cluster, x: nat, c: Conn, slot: seq<Byte>)
    requires Proper(cfg) && Inv(cfg, s) && CanReceive(s, x, c, slot)
    ensures TypeField(slot) == TypeCode(INIT)
  {
    assert LinkOk(cfg, c, s.links[c]);
    InitMessageRead(cfg.mrs[Other(c, x)], slot);
  }

  lemma {:induction false} ReceiveConnects(cfg: Config, s: Cluster, y: nat, d: Conn, slot: seq<Byte>, x: nat, c: Conn)
    requires Shaped(cfg, s) && c.a < c.b < |s.nodes| && (x == c.a || x == c.b)
    requires CanReceive(s, y, d, slot) ==> TypeField(slot) == TypeCode(INIT)
    ensures ConnectedRule(s, Receive(y, d, slot), Next(cfg, s, Receive(y, d, slot)), x, c)
  {
  }

  /** A step connects an end exactly by handling its message, and disconnects it exactly by the
      write of CONNECTING or an error. */
  lemma {:induction false} ConnectedStep(cfg: Config, s: Cluster, act: Action, x: nat, c: Conn)
    requires Proper(cfg) && Reached(cfg, s) && Between(cfg, c) && (x == c.a || x == c.b)
    ensures ConnectedRule(s, act, Next(cfg, s, act), x, c)
  {
    assert InStep(s, c);
    ActsInRange(cfg, s, act);
    match act
    case Main(y) => MainConnects(cfg, s, y, x, c);
    case ConnectRequest(d) => RequestConnects(cfg, s, d, x, c);
    case Receive(y, d, slot) =>
      if CanReceive(s, y, d, slot) {
        InitArrives(cfg, s, y, d, slot);
      }
      ReceiveConnects(cfg, s, y, d, slot, x, c);
    case _ => OtherConnects(cfg, s, act, x, c);
  }

  lemma {:induction false} OtherConnects(cfg: Config, s: Cluster, act: Action, x: nat, c: Conn)
    requires Shaped(cfg, s) && Between(cfg, c) && (act.RouteResolved? || act.Established? || act.ConnectError?)
    ensures ConnectedRule(s, act, Next(cfg, s, act), x, c)
  {
  }

  /** The connection was answered and nothing is left to reach `x`'s end. */
  ghost predicate Settled(s: Cluster, x: nat, c: Conn) {
    Answered(s, c) == 1 && Outstanding(s, x, c) == 0
  }

  lemma {:induction false} NeverAgain(cfg: Config, s: Cluster, run: seq<Action>, x: nat, c: Conn)
    requires Proper(cfg) && Reached(cfg, s) && Between(cfg, c) && (x == c.a || x == c.b)
    requires Settled(s, x, c) && !IsConnected(s, x, c)
    ensures !IsConnected(Run(cfg, s, run), x, c)
    decreases |run|
  {
    if run != [] {
      SettledStep(cfg, s, run[0], x, c);
      NeverAgain(cfg, Next(cfg, s, run[0]), run[1..], x, c);
    }
  }

  /** An end that has its message and is not connected never will be, however the run goes on. */
  lemma {:induction false} StuckForever(cfg: Config, run: seq<Action>, more: seq<Action>, x: nat, c: Conn)
    requires Proper(cfg) && Between(cfg, c) && (x == c.a || x == c.b)
    requires Delivered(cfg, Start(cfg), run, x, c) == 1 && !IsConnected(Run(cfg, Start(cfg), run), x, c)
    ensures !IsConnected(Run(cfg, Start(cfg), run + more), x, c)
  {
    var s := Run(cfg, Start(cfg), run);
    StartReached(cfg);
    RunReached(cfg, Start(cfg), run);
    OneMessage(cfg, run, x, c);
    RunAppended(cfg, Start(cfg), run, more);
    NeverAgain(cfg, s, more, x, c);
  }

  ghost predicate NoError(run: seq<Action>, x: nat, c: Conn) {
    forall k :: 0 <= k < |run| ==> run[k] != ConnectError(x, c)
  }

  lemma {:induction false} MarkedStep(cfg: Config, s: Cluster, act: Action, c: Conn)
    requires Shaped(cfg, s) && c.a < c.b < |s.nodes| && InRange(s, act)
    ensures Marked(Next(cfg, s, act).nodes[c.a], c.b) <==> Marked(s.nodes[c.a], c.b) || MarksNow(s, act, c.a, c)
    ensures Marked(s.nodes[c.a], c.b) ==> !MarksNow(s, act, c.a, c)
  {
    if act.Main? && act.x < |s.nodes| {
      MainSees(cfg, s, act.x, c);
    }
  }

  /** One step of an end whose message was handled. */
  lemma {:induction false} SettledStep(cfg: Config, s: Cluster, act: Action, x: nat, c: Conn)
    requires Proper(cfg) && Reached(cfg, s) && Between(cfg, c) && (x == c.a || x == c.b) && Settled(s, x, c)
    ensures var s' := Next(cfg, s, act);
      && Reached(cfg, s') && Settled(s', x, c)
      && (IsConnected(s', x, c) <==> IsConnected(s, x, c) && !MarksNow(s, act, x, c) && act != ConnectError(x, c))
  {
    StepConserves(cfg, s, act, x, c);
    ConnectedStep(cfg, s, act, x, c);
    NextReached(cfg, s, act);
    SettledFacts(s, act, Next(cfg, s, act), x, c);
  }

  lemma {:induction false} SettledFacts(s: Cluster, act: Action, s': Cluster, x: nat, c: Conn)
    requires Settled(s, x, c) && Conserved(s, act, s', x, c) && ConnectedRule(s, act, s', x, c)
    ensures Settled(s', x, c)
    ensures IsConnected(s', x, c) <==> IsConnected(s, x, c) && !MarksNow(s, act, x, c) && act != ConnectError(x, c)
  {
    assert Handles(s, act, x, c) ==> To(LinkOf(s, c), c, x) != [];
  }

  lemma {:induction false} NoErrorFirst(run: seq<Action>, x: nat, c: Conn)
    requires run != [] && NoError(run, x, c)
    ensures run[0] != ConnectError(x, c) && NoError(run[1..], x, c)
  {
  }

  /** A settled end, with `m` for whether CONNECTING was written before its message was handled. */
  ghost predicate Holds(s: Cluster, x: nat, c: Conn, m: bool)
    requires c.a < |s.nodes|
  {
    && Settled(s, x, c)
    && (m ==> Marked(s.nodes[c.a], c.b))
    && (IsConnected(s, x, c) <==> x == c.b || (Marked(s.nodes[c.a], c.b) ==> m))
  }

  lemma {:induction false} HoldsStep(cfg: Config, s: Cluster, act: Action, x: nat, c: Conn, m: bool)
    requires Proper(cfg) && Reached(cfg, s) && Between(cfg, c) && (x == c.a || x == c.b)
    requires Holds(s, x, c, m) && act != ConnectError(x, c)
    ensures Reached(cfg, Next(cfg, s, act)) && Holds(Next(cfg, s, act), x, c, m)
  {
    SettledStep(cfg, s, act, x, c);
    ActsInRange(cfg, s, act);
    MarkedStep(cfg, s, act, c);
  }

  lemma {:induction false} AfterMessage(cfg: Config, s: Cluster, run: seq<Action>, x: nat, c: Conn, m: bool)
    requires Proper(cfg) && Reached(cfg, s) && Between(cfg, c) && (x == c.a || x == c.b)
    requires Holds(s, x, c, m) && NoError(run, x, c)
    ensures Holds(Run(cfg, s, run), x, c, m)
    decreases |run|
  {
    if run != [] {
      NoErrorFirst(run, x, c);
      HoldsStep(cfg, s, run[0], x, c, m);
      AfterMessage(cfg, Next(cfg, s, run[0]), run[1..], x, c, m);
    }
  }

  /** The step that handles the message. */
  lemma {:induction false} HandlingStep(cfg: Config, s: Cluster, act: Action, x: nat, c: Conn)
    requires Proper(cfg) && Reached(cfg, s) && Between(cfg, c) && (x == c.a || x == c.b)
    requires Handles(s, act, x, c) && Outstanding(s, x, c) <= Answered(s, c)
    ensures var s' := Next(cfg, s, act);
      && Reached(cfg, s') && Holds(s', x, c, Marked(s.nodes[c.a], c.b))
      && IsConnected(s', x, c) && s'.nodes[x].pc == s.nodes[x].pc
  {
    var s' := Next(cfg, s, act);
    StepConserves(cfg, s, act, x, c);
    ConnectedStep(cfg, s, act, x, c);
    NextReached(cfg, s, act);
    SamePlace(cfg, s, act);
    HandlingFacts(s, act, s', x, c);
  }

  lemma {:induction false} SamePlace(cfg: Config, s: Cluster, act: Action)
    requires Shaped(cfg, s) && act.Receive?
    ensures var s' := Next(cfg, s, act);
      |s'.nodes| == |s.nodes| && forall y :: 0 <= y < |s.nodes| ==> s'.nodes[y].pc == s.nodes[y].pc
  {
  }

  lemma {:induction false} HandlingFacts(s: Cluster, act: Action, s': Cluster, x: nat, c: Conn)
    requires c.a < c.b < |s.nodes| == |s'.nodes| && (x == c.a || x == c.b)
    requires Handles(s, act, x, c) && Outstanding(s, x, c) <= Answered(s, c)
    requires Conserved(s, act, s', x, c) && ConnectedRule(s, act, s', x, c)
    requires forall y :: 0 <= y < |s.nodes| ==> s'.nodes[y].pc == s.nodes[y].pc
    ensures Holds(s', x, c, Marked(s.nodes[c.a], c.b)) && IsConnected(s', x, c) && s'.nodes[x].pc == s.nodes[x].pc
  {
    assert Marked(s'.nodes[c.a], c.b) == Marked(s.nodes[c.a], c.b);
    assert Outstanding(s, x, c) >= 1;
  }

  /** When no error hits an end after its message was handled, it stays connected exactly if it
      is the accepting end, or the main thread wrote CONNECTING before the message was handled,
      or has not written it yet. */
  lemma {:induction false} ConnectedExactly(cfg: Config, before: seq<Action>, act: Action, after: seq<Action>, x: nat,
                                            c: Conn)
    requires Proper(cfg) && Between(cfg, c) && (x == c.a || x == c.b)
    requires Handles(Run(cfg, Start(cfg), before), act, x, c) && NoError(after, x, c)
    ensures var s, s' := Run(cfg, Start(cfg), before), Run(cfg, Start(cfg), before + [act] + after);
      IsConnected(s', x, c) <==> x == c.b || Marked(s.nodes[c.a], c.b) || !Marked(s'.nodes[c.a], c.b)
  {
    var s := Run(cfg, Start(cfg), before);
    StartReached(cfg);
    RunReached(cfg, Start(cfg), before);
    OneMessage(cfg, before, x, c);
    HandlingStep(cfg, s, act, x, c);
    AfterMessage(cfg, Next(cfg, s, act), after, x, c, Marked(s.nodes[c.a], c.b));
    RunThrough(cfg, Start(cfg), before, act, after);
  }

  /** Node 1 up to its answer, then its established event. */
  lemma {:induction false} AnswererSteps(cfg: Config, c: Conn, dial: seq<Action>) returns (run: seq<Action>)
    requires Proper(cfg) && |cfg.mrs| == 2 && c == Conn(0, 1)
    requires dial == [Main(0), Main(0), Main(0), Main(0), Main(0), RouteResolved(c)]
    ensures var s := Run(cfg, Start(cfg), run);
      && s.nodes[0].pc == Mark(1) && c in s.nodes[0].trans && To(LinkOf(s, c), c, 0) == [InitMessage(cfg.mrs[1])]
  {
    var _ := DialerSteps(cfg, c, dial);
    var s0 := Start(cfg);
    run := ListenerSteps(cfg, c, dial);
    RunExtended(cfg, s0, run, ConnectRequest(c));
    run := run + [ConnectRequest(c)];
    RunExtended(cfg, s0, run, Established(1, c));
    run := run + [Established(1, c)];
  }

  lemma {:induction false} HandledBy(cfg: Config, before: seq<Action>, act: Action, c: Conn)
    requires Proper(cfg) && Between(cfg, c) && Handles(Run(cfg, Start(cfg), before), act, c.a, c)
    ensures var s, s' := Run(cfg, Start(cfg), before), Run(cfg, Start(cfg), before + [act]);
      Reached(cfg, s') && Settled(s', c.a, c) && IsConnected(s', c.a, c) && s'.nodes[c.a].pc == s.nodes[c.a].pc
  {
    var s := Run(cfg, Start(cfg), before);
    StartReached(cfg);
    RunReached(cfg, Start(cfg), before);
    OneMessage(cfg, before, c.a, c);
    HandlingStep(cfg, s, act, c.a, c);
    RunExtended(cfg, Start(cfg), before, act);
  }

  /** A message from node 1 is handled by node 0 once its transport is there. */
  lemma {:induction false} FirstMessage(cfg: Config, before: seq<Action>, c: Conn) returns (slot: seq<Byte>)
    requires Proper(cfg) && |cfg.mrs| == 2 && c == Conn(0, 1)
    requires var s := Run(cfg, Start(cfg), before);
      c in s.nodes[0].trans && To(LinkOf(s, c), c, 0) == [InitMessage(cfg.mrs[1])]
    ensures Handles(Run(cfg, Start(cfg), before), Receive(0, c, slot), 0, c)
  {
    slot := InitMessage(cfg.mrs[1]) + [0, 0, 0, 0, 0, 0, 0, 0, 0, 0, 0, 0];
    var s := Run(cfg, Start(cfg), before);
    StartInv(cfg);
    RunInv(cfg, Start(cfg), before);
    assert NodeOk(cfg, s.nodes[0], 0) && TransOk(cfg, s.nodes[0], 0, c);
  }

  /** A run that connects the dialling end before it marks. */
  lemma {:induction false} DialerConnects(cfg: Config) returns (run: seq<Action>)
    requires Proper(cfg) && |cfg.mrs| == 2
    ensures var s := Run(cfg, Start(cfg), run);
      LateMarkAhead(cfg, s, Conn(0, 1)) && IsConnected(s, 0, Conn(0, 1))
  {
    var c := Conn(0, 1);
    var before := AnswererSteps(cfg, c, [Main(0), Main(0), Main(0), Main(0), Main(0), RouteResolved(c)]);
    var slot := FirstMessage(cfg, before, c);
    run := before + [Receive(0, c, slot)];
    HandledBy(cfg, before, Receive(0, c, slot), c);
  }

  /** It can happen in any cluster of two: the dialling end is connected, the late write of
      CONNECTING takes that back, and no continuation connects it again. */
  lemma {:induction false} LateMark(cfg: Config, more: seq<Action>) returns (run: seq<Action>)
    requires Proper(cfg) && |cfg.mrs| == 2
    ensures IsConnected(Run(cfg, Start(cfg), run), 0, Conn(0, 1))
    ensures !IsConnected(Run(cfg, Start(cfg), run + [Main(0)] + more), 0, Conn(0, 1))
  {
    run := DialerConnects(cfg);
    MarkedTooLate(cfg, run, more, Conn(0, 1));
  }

  lemma {:induction false} MarkedTooLate(cfg: Config, run: seq<Action>, more: seq<Action>, c: Conn)
    requires Proper(cfg) && Between(cfg, c)
    requires LateMarkAhead(cfg, Run(cfg, Start(cfg), run), c)
    ensures !IsConnected(Run(cfg, Start(cfg), run + [Main(c.a)] + more), c.a, c)
  {
    LateMarkStep(cfg, Run(cfg, Start(cfg), run), more, c);
    RunThrough(cfg, Start(cfg), run, Main(c.a), more);
  }

  /** The dialling end has its message, and the main thread writes CONNECTING next. */
  ghost predicate LateMarkAhead(cfg: Config, s: Cluster, c: Conn) {
    Reached(cfg, s) && Between(cfg, c) && Settled(s, c.a, c) && s.nodes[c.a].pc == Mark(c.b)
  }

  lemma {:induction false} RunThrough(cfg: Config, s: Cluster, run: seq<Action>, act: Action, more: seq<Action>)
    requires Shaped(cfg, s)
    ensures Run(cfg, s, run + [act] + more) == Run(cfg, Next(cfg, Run(cfg, s, run), act), more)
  {
    RunExtended(cfg, s, run, act);
    RunAppended(cfg, s, run + [act], more);
  }

  lemma {:induction false} LateMarkStep(cfg: Config, s: Cluster, more: seq<Action>, c: Conn)
    requires Proper(cfg) && LateMarkAhead(cfg, s, c)
    ensures !IsConnected(Run(cfg, Next(cfg, s, Main(c.a)), more), c.a, c)
  {
    SettledStep(cfg, s, Main(c.a), c.a, c);
    NeverAgain(cfg, Next(cfg, s, Main(c.a)), more, c.a, c);
  }
}

/** A start-up that succeeds: in every cluster there is a run after which both ends of every
    connection are connected and in the tables of their nodes. */
module Startup {
  import opened Wire
  import opened Handshake
  import opened Delivery
  import opened Tables

  // ----- what runs without errors keep -----

  predicate Cleared(nd: Node) {
    nd.pc.Create? || nd.pc.Issue? || nd.pc.Mark?
  }

  /** Every transport is kept in its table. */
  ghost predicate AllKept(cfg: Config, s: Cluster) {
    Reached(cfg, s) && forall c :: Between(cfg, c) ==> Kept(s, c, false)
  }

  /** And every node has cleared its table. */
  ghost predicate Ready(cfg: Config, s: Cluster) {
    AllKept(cfg, s) && forall x :: 0 <= x < |s.nodes| ==> Cleared(s.nodes[x])
  }

  lemma {:induction false} KeptStep(cfg: Config, s: Cluster, act: Action)
    requires Proper(cfg) && AllKept(cfg, s) && (act.Main? || forall x :: 0 <= x < |s.nodes| ==> Cleared(s.nodes[x]))
    ensures AllKept(cfg, Next(cfg, s, act))
  {
    NextReached(cfg, s, act);
    forall c | Between(cfg, c) ensures Kept(Next(cfg, s, act), c, false) {
      NextKept(cfg, s, act, c, false);
    }
  }

  lemma {:induction false} ClearedStep(cfg: Config, s: Cluster, act: Action, x: nat)
    requires Shaped(cfg, s) && x < |s.nodes| && Cleared(s.nodes[x])
    ensures Cleared(Next(cfg, s, act).nodes[x])
  {
  }

  lemma {:induction false} ReadyStep(cfg: Config, s: Cluster, act: Action)
    requires Proper(cfg) && Ready(cfg, s)
    ensures Ready(cfg, Next(cfg, s, act))
  {
    KeptStep(cfg, s, act);
    forall x | 0 <= x < |s.nodes| ensures Cleared(Next(cfg, s, act).nodes[x]) {
      ClearedStep(cfg, s, act, x);
    }
  }

  /** Both ends of `c` are connected, and CONNECTING will not be written any more. */
  ghost predicate Joined(s: Cluster, c: Conn)
    requires c.a < |s.nodes|
  {
    IsConnected(s, c.a, c) && IsConnected(s, c.b, c) && Marked(s.nodes[c.a], c.b)
  }

  lemma {:induction false} JoinedStep(cfg: Config, s: Cluster, act: Action, c: Conn)
    requires Proper(cfg) && Reached(cfg, s) && Between(cfg, c) && Joined(s, c) && !act.ConnectError?
    ensures Joined(Next(cfg, s, act), c)
  {
    ConnectedStep(cfg, s, act, c.a, c);
    ConnectedStep(cfg, s, act, c.b, c);
    ActsInRange(cfg, s, act);
    MarkedStep(cfg, s, act, c);
  }

  lemma {:induction false} PlaceStep(cfg: Config, s: Cluster, act: Action, x: nat)
    requires Shaped(cfg, s) && x < |s.nodes| && act != Main(x)
    ensures Next(cfg, s, act).nodes[x].pc == s.nodes[x].pc
  {
  }

  predicate NoErrors(run: seq<Action>) {
    forall k :: 0 <= k < |run| ==> !run[k].ConnectError?
  }

  /** Only the main thread of node `a` goes on. */
  predicate OnlyBy(run: seq<Action>, a: nat) {
    forall k :: 0 <= k < |run| ==> run[k].Main? ==> run[k].x == a
  }

  lemma {:induction false} NoErrorsRest(run: seq<Action>)
    requires run != [] && NoErrors(run)
    ensures !run[0].ConnectError? && NoErrors(run[1..])
  {
  }

  lemma {:induction false} OnlyByRest(run: seq<Action>, a: nat)
    requires run != [] && OnlyBy(run, a)
    ensures (run[0].Main? ==> run[0].x == a) && OnlyBy(run[1..], a)
  {
  }

  lemma {:induction false} ReadyRun(cfg: Config, s: Cluster, run: seq<Action>)
    requires Proper(cfg) && Ready(cfg, s)
    ensures Ready(cfg, Run(cfg, s, run))
    decreases |run|
  {
    if run != [] {
      ReadyStep(cfg, s, run[0]);
      ReadyRun(cfg, Next(cfg, s, run[0]), run[1..]);
    }
  }

  lemma {:induction false} JoinedRun(cfg: Config, s: Cluster, run: seq<Action>, c: Conn)
    requires Proper(cfg) && Reached(cfg, s) && Between(cfg, c) && Joined(s, c) && NoErrors(run)
    ensures Joined(Run(cfg, s, run), c)
    decreases |run|
  {
    if run != [] {
      NoErrorsRest(run);
      JoinedStep(cfg, s, run[0], c);
      NextReached(cfg, s, run[0]);
      JoinedRun(cfg, Next(cfg, s, run[0]), run[1..], c);
    }
  }

  lemma {:induction false} PlaceRun(cfg: Config, s: Cluster, run: seq<Action>, a: nat, x: nat)
    requires Shaped(cfg, s) && x < |s.nodes| && x != a && OnlyBy(run, a)
    ensures Run(cfg, s, run).nodes[x].pc == s.nodes[x].pc
    decreases |run|
  {
    if run != [] {
      OnlyByRest(run, a);
      PlaceStep(cfg, s, run[0], x);
      PlaceRun(cfg, Next(cfg, s, run[0]), run[1..], a, x);
    }
  }

  // ----- one connection -----

  /** Where the dialling node and the network are in connecting `c`. */
  ghost predicate Stage(s: Cluster, c: Conn, pc: Pc, link: Link) {
    c.a < c.b < |s.nodes| && s.nodes[c.a].pc == pc && LinkOf(s, c) == link
  }

  lemma {:induction false} MainStage(cfg: Config, s: Cluster, c: Conn, pc: Pc, link: Link)
    requires Shaped(cfg, s) && Stage(s, c, pc, link) && pc in {Create(c.b), Issue(c.b), Mark(c.b)}
    ensures Stage(Next(cfg, s, Main(c.a)), c,
                  if pc == Create(c.b) then Issue(c.b) else if pc == Issue(c.b) then Mark(c.b) else Create(c.b + 1),
                  if pc == Issue(c.b) then link.(phase := Resolving) else link)
  {
    MainSees(cfg, s, c.a, c);
  }

  lemma {:induction false} RouteStage(cfg: Config, s: Cluster, c: Conn, pc: Pc, link: Link)
    requires Shaped(cfg, s) && Stage(s, c, pc, link) && link.phase == Resolving
    ensures Stage(Next(cfg, s, RouteResolved(c)), c, pc, link.(phase := Requested))
  {
  }

  lemma {:induction false} RequestStage(cfg: Config, s: Cluster, c: Conn, pc: Pc, link: Link)
    requires Shaped(cfg, s) && Stage(s, c, pc, link) && link.phase == Requested && Listens(s.nodes[c.b])
    ensures Stage(Next(cfg, s, ConnectRequest(c)), c, pc, link.(phase := Accepted, eventA := true, eventB := true))
  {
  }

  lemma {:induction false} EstablishedStage(cfg: Config, s: Cluster, x: nat, c: Conn, pc: Pc, link: Link)
    requires Shaped(cfg, s) && Stage(s, c, pc, link) && (if x == c.a then link.eventA else x == c.b && link.eventB)
    ensures var message := InitMessage(cfg.mrs[x]);
      Stage(Next(cfg, s, Established(x, c)), c, pc,
            if x == c.a then link.(eventA := false, toB := link.toB + [message])
            else link.(eventB := false, toA := link.toA + [message]))
  {
  }

  lemma {:induction false} ThreeSteps(cfg: Config, s: Cluster, x: Action, y: Action, z: Action)
    requires Shaped(cfg, s)
    ensures Run(cfg, s, [x, y, z]) == Next(cfg, Next(cfg, Next(cfg, s, x), y), z)
  {
    assert [x, y, z][1..] == [y, z] && [y, z][1..] == [z];
    assert Run(cfg, Next(cfg, s, x), [y, z]) == Run(cfg, Next(cfg, Next(cfg, s, x), y), [z]);
  }

  function DialSteps(c: Conn): seq<Action> {
    [Main(c.a), Main(c.a), Main(c.a)]
  }

  /** The main thread creates the transport, issues the connection and writes CONNECTING. */
  lemma {:induction false} Dial(cfg: Config, s: Cluster, c: Conn)
    requires Shaped(cfg, s) && Stage(s, c, Create(c.b), Link(Idle, false, false, [], []))
    ensures Stage(Run(cfg, s, DialSteps(c)), c, Create(c.b + 1), Link(Resolving, false, false, [], []))
  {
    MainStage(cfg, s, c, Create(c.b), Link(Idle, false, false, [], []));
    var s1 := Next(cfg, s, Main(c.a));
    MainStage(cfg, s1, c, Issue(c.b), Link(Idle, false, false, [], []));
    var s2 := Next(cfg, s1, Main(c.a));
    MainStage(cfg, s2, c, Mark(c.b), Link(Resolving, false, false, [], []));
    ThreeSteps(cfg, s, Main(c.a), Main(c.a), Main(c.a));
  }

  function AnswerSteps(c: Conn): seq<Action> {
    [RouteResolved(c), ConnectRequest(c), Established(c.a, c)]
  }

  /** The request arrives and is answered, and the dialling end handles its established event. */
  lemma {:induction false} Answer(cfg: Config, s: Cluster, c: Conn, pc: Pc)
    requires Shaped(cfg, s) && Stage(s, c, pc, Link(Resolving, false, false, [], [])) && Listens(s.nodes[c.b])
    ensures Stage(Run(cfg, s, AnswerSteps(c)), c, pc, Link(Accepted, false, true, [], [InitMessage(cfg.mrs[c.a])]))
  {
    RouteStage(cfg, s, c, pc, Link(Resolving, false, false, [], []));
    var s1 := Next(cfg, s, RouteResolved(c));
    PlaceStep(cfg, s, RouteResolved(c), c.b);
    RequestStage(cfg, s1, c, pc, Link(Requested, false, false, [], []));
    var s2 := Next(cfg, s1, ConnectRequest(c));
    EstablishedStage(cfg, s2, c.a, c, pc, Link(Accepted, true, true, [], []));
    ThreeSteps(cfg, s, RouteResolved(c), ConnectRequest(c), Established(c.a, c));
  }

  /** A receive slot after the message arrived. */
  function Slot(mr: MrInfo): (s: seq<Byte>)
    ensures |s| == 40 && Arrived(s, InitMessage(mr))
  {
    InitMessage(mr) + [0, 0, 0, 0, 0, 0, 0, 0, 0, 0, 0, 0]
  }

  function Handling(cfg: Config, x: nat, c: Conn): Action
    requires Between(cfg, c)
  {
    Receive(x, c, Slot(if x == c.a then cfg.mrs[c.b] else cfg.mrs[c.a]))
  }

  lemma {:induction false} CanHandle(cfg: Config, s: Cluster, x: nat, c: Conn)
    requires Proper(cfg) && Reached(cfg, s) && Between(cfg, c) && (x == c.a || x == c.b)
    requires To(LinkOf(s, c), c, x) == [InitMessage(cfg.mrs[Other(c, x)])]
    ensures Handles(s, Handling(cfg, x, c), x, c)
  {
    assert InStep(s, c) && NodeOk(cfg, s.nodes[x], x);
    EndsHaveTransports(s, c);
    assert TransOk(cfg, s.nodes[x], x, c);
  }

  lemma {:induction false} HandledFacts(s: Cluster, act: Action, r: Cluster, x: nat, c: Conn)
    requires c.a < c.b < |s.nodes| && (x == c.a || x == c.b) && Handles(s, act, x, c) && ReceiveSeen(s, r, act, c)
    requires ConnectedRule(s, act, r, x, c) && ConnectedRule(s, act, r, Other(c, x), c)
    ensures IsConnected(r, x, c) && (IsConnected(s, Other(c, x), c) ==> IsConnected(r, Other(c, x), c))
    ensures Stage(r, c, s.nodes[c.a].pc, WithTo(LinkOf(s, c), c, x, To(LinkOf(s, c), c, x)[1..]))
  {
  }

  /** A message under way is handled and connects its end. */
  lemma {:induction false} Handle(cfg: Config, s: Cluster, act: Action, x: nat, c: Conn)
    requires Proper(cfg) && Reached(cfg, s) && Between(cfg, c) && (x == c.a || x == c.b) && Handles(s, act, x, c)
    ensures var r := Next(cfg, s, act);
      && IsConnected(r, x, c) && (IsConnected(s, Other(c, x), c) ==> IsConnected(r, Other(c, x), c))
      && Stage(r, c, s.nodes[c.a].pc, WithTo(LinkOf(s, c), c, x, To(LinkOf(s, c), c, x)[1..]))
  {
    ReceiveSees(cfg, s, act, c);
    ConnectedStep(cfg, s, act, x, c);
    ConnectedStep(cfg, s, act, Other(c, x), c);
    HandledFacts(s, act, Next(cfg, s, act), x, c);
  }

  function ExchangeSteps(cfg: Config, c: Conn): seq<Action>
    requires Between(cfg, c)
  {
    [Established(c.b, c), Handling(cfg, c.b, c), Handling(cfg, c.a, c)]
  }

  /** The accepting end handles its established event, and both ends their messages. */
  lemma {:induction false} Exchange(cfg: Config, s: Cluster, c: Conn, pc: Pc)
    requires Proper(cfg) && Reached(cfg, s) && Between(cfg, c)
    requires Stage(s, c, pc, Link(Accepted, false, true, [], [InitMessage(cfg.mrs[c.a])]))
    ensures var r := Run(cfg, s, ExchangeSteps(cfg, c));
      c.b < |r.nodes| && r.nodes[c.a].pc == pc && IsConnected(r, c.a, c) && IsConnected(r, c.b, c)
  {
    var first, second, third := Established(c.b, c), Handling(cfg, c.b, c), Handling(cfg, c.a, c);
    EstablishedStage(cfg, s, c.b, c, pc, Link(Accepted, false, true, [], [InitMessage(cfg.mrs[c.a])]));
    var s1 := Next(cfg, s, first);
    NextReached(cfg, s, first);
    CanHandle(cfg, s1, c.b, c);
    Handle(cfg, s1, second, c.b, c);
    var s2 := Next(cfg, s1, second);
    NextReached(cfg, s1, second);
    CanHandle(cfg, s2, c.a, c);
    Handle(cfg, s2, third, c.a, c);
    ThreeSteps(cfg, s, first, second, third);
  }

  function ConnectSteps(cfg: Config, c: Conn): seq<Action>
    requires Between(cfg, c)
  {
    DialSteps(c) + AnswerSteps(c) + ExchangeSteps(cfg, c)
  }

  lemma {:induction false} ConnectStepsShape(cfg: Config, c: Conn)
    requires Between(cfg, c)
    ensures OnlyBy(ConnectSteps(cfg, c), c.a) && NoErrors(ConnectSteps(cfg, c))
  {
  }

  lemma {:induction false} InThreeParts(cfg: Config, s: Cluster, x: seq<Action>, y: seq<Action>, z: seq<Action>)
    requires Shaped(cfg, s)
    ensures Run(cfg, s, x + y + z) == Run(cfg, Run(cfg, Run(cfg, s, x), y), z)
  {
    RunAppended(cfg, s, x + y, z);
    RunAppended(cfg, s, x, y);
  }

  /** The dialling part, up to the message of the dialling end. */
  lemma {:induction false} FirstHalf(cfg: Config, s: Cluster, c: Conn)
    requires Proper(cfg) && Ready(cfg, s) && Between(cfg, c) && s.nodes[c.a].pc == Create(c.b)
    ensures var r := Run(cfg, Run(cfg, s, DialSteps(c)), AnswerSteps(c));
      Reached(cfg, r) && Stage(r, c, Create(c.b + 1), Link(Accepted, false, true, [], [InitMessage(cfg.mrs[c.a])]))
  {
    assert InStep(s, c);
    Dial(cfg, s, c);
    ReadyRun(cfg, s, DialSteps(c));
    var s1 := Run(cfg, s, DialSteps(c));
    assert Cleared(s1.nodes[c.b]);
    Answer(cfg, s1, c, Create(c.b + 1));
    ReadyRun(cfg, s1, AnswerSteps(c));
  }

  /** The steps that connect `c`, when it is next for its dialling node. */
  lemma {:induction false} Connect(cfg: Config, s: Cluster, c: Conn)
    requires Proper(cfg) && Ready(cfg, s) && Between(cfg, c) && s.nodes[c.a].pc == Create(c.b)
    ensures var r := Run(cfg, s, ConnectSteps(cfg, c)); r.nodes[c.a].pc == Create(c.b + 1) && Joined(r, c)
  {
    FirstHalf(cfg, s, c);
    Exchange(cfg, Run(cfg, Run(cfg, s, DialSteps(c)), AnswerSteps(c)), c, Create(c.b + 1));
    InThreeParts(cfg, s, DialSteps(c), AnswerSteps(c), ExchangeSteps(cfg, c));
  }

  // ----- all connections -----

  /** The nodes from `a` on have not connected to any yet. */
  ghost predicate Waiting(s: Cluster, a: nat) {
    forall x :: a <= x < |s.nodes| ==> s.nodes[x].pc == Create(x + 1)
  }

  /** Node `a` goes on with node `b`, and the nodes after it wait. */
  ghost predicate Turn(cfg: Config, s: Cluster, a: nat, b: nat) {
    Ready(cfg, s) && a < b <= |cfg.mrs| && s.nodes[a].pc == Create(b) && Waiting(s, a + 1)
  }

  /** Node `a` is connected to the nodes from `lo` on and before `hi`. */
  ghost predicate JoinedTo(s: Cluster, a: nat, lo: nat, hi: nat)
    requires a < lo && hi <= |s.nodes|
  {
    forall c: Conn :: c.a == a && lo <= c.b < hi ==> Joined(s, c)
  }

  lemma {:induction false} ConnectOne(cfg: Config, s: Cluster, a: nat, b: nat) returns (run: seq<Action>)
    requires Proper(cfg) && Turn(cfg, s, a, b) && b < |cfg.mrs|
    ensures NoErrors(run) && Turn(cfg, Run(cfg, s, run), a, b + 1) && Joined(Run(cfg, s, run), Conn(a, b))
  {
    var c := Conn(a, b);
    run := ConnectSteps(cfg, c);
    Connect(cfg, s, c);
    ConnectStepsShape(cfg, c);
    ReadyRun(cfg, s, run);
    StillWaiting(cfg, s, run, a);
  }

  lemma {:induction false} StillWaiting(cfg: Config, s: Cluster, run: seq<Action>, a: nat)
    requires Shaped(cfg, s) && Waiting(s, a + 1) && OnlyBy(run, a)
    ensures Waiting(Run(cfg, s, run), a + 1)
  {
    forall x | a + 1 <= x < |s.nodes| ensures Run(cfg, s, run).nodes[x].pc == Create(x + 1) {
      PlaceRun(cfg, s, run, a, x);
    }
  }

  lemma {:induction false} JoinedToRun(cfg: Config, s: Cluster, run: seq<Action>, a: nat, lo: nat, hi: nat)
    requires Proper(cfg) && Reached(cfg, s) && a < lo && hi <= |cfg.mrs| && JoinedTo(s, a, lo, hi) && NoErrors(run)
    ensures JoinedTo(Run(cfg, s, run), a, lo, hi)
  {
    forall c: Conn | c.a == a && lo <= c.b < hi ensures Joined(Run(cfg, s, run), c) {
      JoinedRun(cfg, s, run, c);
    }
  }

  /** Node `a` connects to the nodes after it and before `b`. */
  lemma {:induction false} ConnectUpTo(cfg: Config, s: Cluster, a: nat, b: nat) returns (run: seq<Action>)
    requires Proper(cfg) && Turn(cfg, s, a, a + 1) && a < b <= |cfg.mrs|
    ensures NoErrors(run) && Turn(cfg, Run(cfg, s, run), a, b) && JoinedTo(Run(cfg, s, run), a, a + 1, b)
    decreases b
  {
    run := [];
    if b > a + 1 {
      var first := ConnectUpTo(cfg, s, a, b - 1);
      run := ConnectNext(cfg, s, first, a, b - 1);
    }
  }

  lemma {:induction false} ConnectNext(cfg: Config, s: Cluster, first: seq<Action>, a: nat, b: nat)
    returns (run: seq<Action>)
    requires Proper(cfg) && Shaped(cfg, s) && NoErrors(first) && a < b < |cfg.mrs|
    requires var s1 := Run(cfg, s, first); Turn(cfg, s1, a, b) && JoinedTo(s1, a, a + 1, b)
    ensures NoErrors(run) && Turn(cfg, Run(cfg, s, run), a, b + 1) && JoinedTo(Run(cfg, s, run), a, a + 1, b + 1)
  {
    var last := ConnectOne(cfg, Run(cfg, s, first), a, b);
    run := first + last;
    ThenConnected(cfg, s, first, last, a, b);
  }

  /** The connections that are there stay while the next one comes. */
  lemma {:induction false} ThenConnected(cfg: Config, s: Cluster, first: seq<Action>, last: seq<Action>, a: nat, b: nat)
    requires Proper(cfg) && Shaped(cfg, s) && NoErrors(first) && NoErrors(last) && a < b < |cfg.mrs|
    requires var s1 := Run(cfg, s, first); Turn(cfg, s1, a, b) && JoinedTo(s1, a, a + 1, b)
    requires var s2 := Run(cfg, Run(cfg, s, first), last); Turn(cfg, s2, a, b + 1) && Joined(s2, Conn(a, b))
    ensures var r := Run(cfg, s, first + last); Turn(cfg, r, a, b + 1) && JoinedTo(r, a, a + 1, b + 1)
    ensures NoErrors(first + last)
  {
    JoinedToRun(cfg, Run(cfg, s, first), last, a, a + 1, b);
    RunAppended(cfg, s, first, last);
    OneMore(Run(cfg, s, first + last), a, a + 1, b);
  }

  lemma {:induction false} OneMore(r: Cluster, a: nat, lo: nat, hi: nat)
    requires a < lo <= hi < |r.nodes| && JoinedTo(r, a, lo, hi) && Joined(r, Conn(a, hi))
    ensures JoinedTo(r, a, lo, hi + 1)
  {
    forall c: Conn | c.a == a && lo <= c.b < hi + 1 ensures Joined(r, c) {
      assert c.b == hi ==> c == Conn(a, hi);
    }
  }

  /** The nodes before `a` are connected to all after them. */
  ghost predicate AllJoined(cfg: Config, s: Cluster, a: nat) {
    |s.nodes| == |cfg.mrs| && forall c :: Between(cfg, c) && c.a < a ==> Joined(s, c)
  }

  lemma {:induction false} AllJoinedRun(cfg: Config, s: Cluster, run: seq<Action>, a: nat)
    requires Proper(cfg) && Reached(cfg, s) && AllJoined(cfg, s, a) && NoErrors(run)
    ensures AllJoined(cfg, Run(cfg, s, run), a)
  {
    forall c | Between(cfg, c) && c.a < a ensures Joined(Run(cfg, s, run), c) {
      JoinedRun(cfg, s, run, c);
    }
  }

  /** The nodes before `a` connect, one after the other. */
  lemma {:induction false} ConnectNodes(cfg: Config, s: Cluster, a: nat) returns (run: seq<Action>)
    requires Proper(cfg) && Ready(cfg, s) && a <= |cfg.mrs| && Waiting(s, 0)
    ensures NoErrors(run)
    ensures var r := Run(cfg, s, run); Ready(cfg, r) && Waiting(r, a) && AllJoined(cfg, r, a)
  {
    run := [];
    if a > 0 {
      var first := ConnectNodes(cfg, s, a - 1);
      var last := ConnectUpTo(cfg, Run(cfg, s, first), a - 1, |cfg.mrs|);
      run := first + last;
      ThenNode(cfg, s, first, last, a - 1);
    }
  }

  lemma {:induction false} ThenNode(cfg: Config, s: Cluster, first: seq<Action>, last: seq<Action>, a: nat)
    requires Proper(cfg) && Shaped(cfg, s) && NoErrors(first) && NoErrors(last) && a < |cfg.mrs|
    requires Reached(cfg, Run(cfg, s, first)) && AllJoined(cfg, Run(cfg, s, first), a)
    requires var s2 := Run(cfg, Run(cfg, s, first), last);
      Turn(cfg, s2, a, |cfg.mrs|) && JoinedTo(s2, a, a + 1, |cfg.mrs|)
    ensures NoErrors(first + last)
    ensures var r := Run(cfg, s, first + last); Ready(cfg, r) && Waiting(r, a + 1) && AllJoined(cfg, r, a + 1)
  {
    AllJoinedRun(cfg, Run(cfg, s, first), last, a);
    RunAppended(cfg, s, first, last);
  }

  // ----- the beginning -----

  /** The nodes before `x` have cleared their tables, the others have not begun. */
  ghost predicate Begun(cfg: Config, s: Cluster, x: nat) {
    && AllKept(cfg, s)
    && forall y :: 0 <= y < |s.nodes| ==> s.nodes[y].pc == if y < x then Create(y + 1) else MemInit
  }

  lemma {:induction false} BeginOne(cfg: Config, s: Cluster, x: nat) returns (r: Cluster)
    requires Proper(cfg) && Begun(cfg, s, x) && x < |s.nodes|
    ensures r == Run(cfg, s, [Main(x), Main(x), Main(x)]) && Begun(cfg, r, x + 1)
  {
    var s1 := Next(cfg, s, Main(x));
    KeptStep(cfg, s, Main(x));
    var s2 := Next(cfg, s1, Main(x));
    KeptStep(cfg, s1, Main(x));
    r := Next(cfg, s2, Main(x));
    KeptStep(cfg, s2, Main(x));
    ThreeSteps(cfg, s, Main(x), Main(x), Main(x));
  }

  lemma {:induction false} BeginAll(cfg: Config, s: Cluster, x: nat) returns (run: seq<Action>)
    requires Proper(cfg) && Begun(cfg, s, x) && x <= |s.nodes|
    ensures Begun(cfg, Run(cfg, s, run), |s.nodes|)
    decreases |s.nodes| - x
  {
    run := [];
    if x < |s.nodes| {
      var first := [Main(x), Main(x), Main(x)];
      var s1 := BeginOne(cfg, s, x);
      var rest := BeginAll(cfg, s1, x + 1);
      run := first + rest;
      RunAppended(cfg, s, first, rest);
    }
  }

  /** In every cluster, of any size, some run connects both ends of every connection, and each node
      finds the transports for all others in its table. */
  lemma {:induction false} AllConnect(cfg: Config) returns (run: seq<Action>)
    requires Proper(cfg)
    ensures var s := Run(cfg, Start(cfg), run);
      forall c, x :: Between(cfg, c) && (x == c.a || x == c.b) ==> IsConnected(s, x, c) && InTable(s.nodes[x], x, c)
  {
    StartReached(cfg);
    assert Begun(cfg, Start(cfg), 0);
    var first := BeginAll(cfg, Start(cfg), 0);
    var s1 := Run(cfg, Start(cfg), first);
    assert Ready(cfg, s1);
    var rest := ConnectNodes(cfg, s1, |cfg.mrs|);
    run := first + rest;
    RunAppended(cfg, Start(cfg), first, rest);
    var s := Run(cfg, s1, rest);
    forall c, x | Between(cfg, c) && (x == c.a || x == c.b) ensures IsConnected(s, x, c) && InTable(s.nodes[x], x, c) {
      assert Joined(s, c) && Kept(s, c, false) && Cleared(s.nodes[x]);
    }
  }
}

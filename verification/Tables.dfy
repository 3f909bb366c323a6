/** The tables of transports: which transports a node finds in `connect_trans`. */
module Tables {
  import opened Wire
  import opened Handshake
  import opened Delivery

  predicate InTable(nd: Node, x: nat, c: Conn) {
    Other(c, x) in nd.connect && nd.connect[Other(c, x)] == c
  }

  // ----- a table holds transports, each at its peer's place -----

  ghost predicate TableOk(nd: Node, x: nat) {
    forall j :: j in nd.connect ==> nd.connect[j] in nd.trans && Other(nd.connect[j], x) == j
  }

  ghost predicate TablesOk(s: Cluster) {
    forall x :: 0 <= x < |s.nodes| ==> TableOk(s.nodes[x], x)
  }

  lemma {:induction false} StartTables(cfg: Config)
    ensures TablesOk(Start(cfg))
  {
  }

  lemma {:induction false} TableKept(s: Cluster, x: nat, nd: Node)
    requires TablesOk(s) && x < |s.nodes|
    requires nd.connect == s.nodes[x].connect && nd.trans.Keys == s.nodes[x].trans.Keys
    ensures TablesOk(WithNode(s, x, nd))
  {
    assert TableOk(s.nodes[x], x);
  }

  lemma {:induction false} TableAdded(s: Cluster, x: nat, nd: Node, c: Conn, t: Transport)
    requires TablesOk(s) && x < |s.nodes|
    requires nd.connect == s.nodes[x].connect[Other(c, x) := c] && nd.trans == s.nodes[x].trans[c := t]
    ensures TablesOk(WithNode(s, x, nd))
  {
    assert TableOk(s.nodes[x], x);
  }

  lemma {:induction false} MainTables(cfg: Config, s: Cluster, x: nat)
    requires Shaped(cfg, s) && TablesOk(s) && x < |s.nodes|
    ensures TablesOk(MainStep(cfg, s, x))
  {
    var nd := s.nodes[x];
    match nd.pc
    case Clear => assert TableOk(OnClear(nd, x), x);
    case Create(i) =>
      if x < i < |s.nodes| {
        TableAdded(s, x, OnCreate(nd, x, i), Conn(x, i), Transport(i, Init));
      } else {
        TableKept(s, x, nd);
      }
    case _ => TableKept(s, x, MainNode(cfg, nd, x));
  }

  lemma {:induction false} RequestTables(cfg: Config, s: Cluster, c: Conn)
    requires Proper(cfg) && Inv(cfg, s) && TablesOk(s)
    ensures TablesOk(Next(cfg, s, ConnectRequest(c)))
  {
    if LinkOf(s, c).phase == Requested && c.a < |s.nodes| && c.b < |s.nodes| && Listens(s.nodes[c.b]) {
      LookupFinds(cfg, c.b, c.a);
      var nd := OnConnectRequest(s.nodes[c.b], c.b, c, cfg.addrs, cfg.seen[c.a]);
      TableAdded(s, c.b, nd, c, Transport(c.a, Connecting));
    }
  }

  lemma {:induction false} NextTables(cfg: Config, s: Cluster, act: Action)
    requires Proper(cfg) && Inv(cfg, s) && TablesOk(s)
    ensures TablesOk(Next(cfg, s, act))
  {
    match act
    case Main(x) =>
      if x < |s.nodes| {
        MainTables(cfg, s, x);
      }
    case ConnectRequest(c) => RequestTables(cfg, s, c);
    case _ => OtherTables(cfg, s, act);
  }

  lemma {:induction false} OtherTables(cfg: Config, s: Cluster, act: Action)
    requires Shaped(cfg, s) && TablesOk(s) && !act.Main? && !act.ConnectRequest?
    ensures TablesOk(Next(cfg, s, act))
  {
    if (act.Receive? || act.ConnectError?) && Next(cfg, s, act) != s {
      TableKept(s, act.x, Next(cfg, s, act).nodes[act.x]);
    }
  }

  lemma {:induction false} RunTables(cfg: Config, s: Cluster, run: seq<Action>)
    requires Proper(cfg) && Inv(cfg, s) && TablesOk(s)
    ensures TablesOk(Run(cfg, s, run))
    decreases |run|
  {
    if run != [] {
      NextInv(cfg, s, run[0]);
      NextTables(cfg, s, run[0]);
      RunTables(cfg, Next(cfg, s, run[0]), run[1..]);
    }
  }

  // ----- which transports a table lacks -----

  /** The step answers the request for `c` after the accepting node started to listen and before it
      clears its table. */
  predicate AnswersEarly(s: Cluster, act: Action, c: Conn) {
    && act == ConnectRequest(c) && LinkOf(s, c).phase == Requested
    && c.a < |s.nodes| && c.b < |s.nodes| && s.nodes[c.b].pc == Clear
  }

  /** Some step of the run does. */
  predicate AnsweredEarly(cfg: Config, s: Cluster, run: seq<Action>, c: Conn)
    requires Shaped(cfg, s)
    decreases |run|
  {
    run != [] && (AnswersEarly(s, run[0], c) || AnsweredEarly(cfg, Next(cfg, s, run[0]), run[1..], c))
  }

  /** The dialling end has its transport in the table. The accepting end has it there until the
      table is cleared, and afterwards unless the request was answered early. */
  ghost predicate Kept(s: Cluster, c: Conn, early: bool)
    requires c.a < |s.nodes| && c.b < |s.nodes|
  {
    var a, b := s.nodes[c.a], s.nodes[c.b];
    && (c in a.trans ==> InTable(a, c.a, c))
    && (early ==> c in b.trans)
    && (c in b.trans ==> Listens(b) && (InTable(b, c.b, c) <==> b.pc == Clear || !early) && (b.pc == Clear ==> early))
  }

  lemma {:induction false} MainSeenKept(cfg: Config, s: Cluster, s': Cluster, y: nat, c: Conn, early: bool)
    requires Shaped(cfg, s) && c.a < c.b < |s.nodes| && InStep(s, c) && InRange(s, Main(y)) && y < |s.nodes|
    requires Kept(s, c, early)
    requires MainSeen(cfg, s, s', y, c)
    ensures Kept(s', c, early)
  {
  }

  lemma {:induction false} MainKept(cfg: Config, s: Cluster, x: nat, c: Conn, early: bool)
    requires Shaped(cfg, s) && c.a < c.b < |s.nodes| && InStep(s, c) && InRange(s, Main(x)) && x < |s.nodes|
    requires Kept(s, c, early)
    ensures Kept(MainStep(cfg, s, x), c, early)
  {
    MainSees(cfg, s, x, c);
    MainSeenKept(cfg, s, MainStep(cfg, s, x), x, c, early);
  }

  /** What a connect request for `d`, from a node that the lookup finds, changes for `c`. */
  ghost predicate RequestSeen(s: Cluster, s': Cluster, d: Conn, c: Conn) {
    && |s'.nodes| == |s.nodes|
    && (if LinkOf(s, d).phase == Requested && d.a < d.b < |s.nodes| && Listens(s.nodes[d.b]) then
         var nd := s.nodes[d.b];
         && s'.nodes ==
            s.nodes[d.b := nd.(trans := nd.trans[d := Transport(d.a, Connecting)], connect := nd.connect[d.a := d])]
         && LinkOf(s', c) ==
            if c == d then LinkOf(s, c).(phase := Accepted, eventA := true, eventB := true) else LinkOf(s, c)
       else s' == s)
  }

  lemma {:induction false} RequestSees(cfg: Config, s: Cluster, d: Conn, c: Conn)
    requires Proper(cfg) && Inv(cfg, s)
    ensures RequestSeen(s, Next(cfg, s, ConnectRequest(d)), d, c)
  {
    if LinkOf(s, d).phase == Requested {
      assert LinkOk(cfg, d, s.links[d]);
      LookupFinds(cfg, d.b, d.a);
    }
  }

  lemma {:induction false} RequestSeenKept(s: Cluster, s': Cluster, d: Conn, c: Conn, early: bool)
    requires c.a < c.b < |s.nodes| && InStep(s, c) && Kept(s, c, early) && RequestSeen(s, s', d, c)
    ensures Kept(s', c, early || AnswersEarly(s, ConnectRequest(d), c))
  {
  }

  lemma {:induction false} RequestKept(cfg: Config, s: Cluster, d: Conn, c: Conn, early: bool)
    requires Proper(cfg) && Inv(cfg, s) && Between(cfg, c) && InStep(s, c) && Kept(s, c, early)
    ensures Kept(Next(cfg, s, ConnectRequest(d)), c, early || AnswersEarly(s, ConnectRequest(d), c))
  {
    RequestSees(cfg, s, d, c);
    RequestSeenKept(s, Next(cfg, s, ConnectRequest(d)), d, c, early);
  }

  lemma {:induction false} OtherKept(cfg: Config, s: Cluster, act: Action, c: Conn, early: bool)
    requires Shaped(cfg, s) && c.a < c.b < |s.nodes| && !act.Main? && !act.ConnectRequest? && Kept(s, c, early)
    ensures Kept(Next(cfg, s, act), c, early)
  {
  }

  lemma {:induction false} NextKept(cfg: Config, s: Cluster, act: Action, c: Conn, early: bool)
    requires Proper(cfg) && Reached(cfg, s) && Between(cfg, c) && Kept(s, c, early)
    ensures Kept(Next(cfg, s, act), c, early || AnswersEarly(s, act, c))
  {
    assert InStep(s, c);
    ActsInRange(cfg, s, act);
    match act
    case Main(x) =>
      if x < |s.nodes| {
        MainKept(cfg, s, x, c, early);
      }
    case ConnectRequest(d) => RequestKept(cfg, s, d, c, early);
    case _ => OtherKept(cfg, s, act, c, early);
  }

  lemma {:induction false} RunKept(cfg: Config, s: Cluster, run: seq<Action>, c: Conn, early: bool)
    requires Proper(cfg) && Reached(cfg, s) && Between(cfg, c) && Kept(s, c, early)
    ensures Kept(Run(cfg, s, run), c, early || AnsweredEarly(cfg, s, run, c))
    decreases |run|
  {
    if run != [] {
      NextKept(cfg, s, run[0], c, early);
      NextReached(cfg, s, run[0]);
      RunKept(cfg, Next(cfg, s, run[0]), run[1..], c, early || AnswersEarly(s, run[0], c));
    }
  }

  /** In every run, a dialling node finds its transport in the table, and an accepting node does
      exactly if its table is not cleared yet or no step of the run answered the request early. */
  lemma {:induction false} TransportFound(cfg: Config, run: seq<Action>, x: nat, c: Conn)
    requires Proper(cfg) && Between(cfg, c) && (x == c.a || x == c.b)
    requires c in Run(cfg, Start(cfg), run).nodes[x].trans
    ensures var nd := Run(cfg, Start(cfg), run).nodes[x];
      InTable(nd, x, c) <==> x == c.a || nd.pc == Clear || !AnsweredEarly(cfg, Start(cfg), run, c)
  {
    StartReached(cfg);
    RunKept(cfg, Start(cfg), run, c, false);
  }

  /** It can happen in any cluster of two: the request arrives between the start of listening
      and the clearing, and the accepted transport is lost from the table although it is there. */
  lemma {:induction false} LostTransport(cfg: Config) returns (run: seq<Action>)
    requires Proper(cfg) && |cfg.mrs| == 2
    ensures var nd := Run(cfg, Start(cfg), run).nodes[1];
      Conn(0, 1) in nd.trans && nd.pc != Clear && !InTable(nd, 1, Conn(0, 1))
  {
    var c := Conn(0, 1);
    var dial := [Main(0), Main(0), Main(0), Main(0), Main(0), RouteResolved(c)];
    var _ := DialerSteps(cfg, c, dial);
    run := ListenerSteps(cfg, c, dial);
    RunExtended(cfg, Start(cfg), run, ConnectRequest(c));
    run := run + [ConnectRequest(c)];
    LookupFinds(cfg, 1, 0);
    RunExtended(cfg, Start(cfg), run, Main(1));
    run := run + [Main(1)];
  }
}

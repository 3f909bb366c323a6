/** The start-up of the cluster: every node connects to the nodes after it and accepts the
    nodes before it, and each end of a connection sends its registered memory to the other.
    Handlers are atomic; a run is any sequence of main-thread and event-thread steps. */
module Handshake {
  import opened Wire

  /** The connection that node `a` opens to node `b`. */
  datatype Conn = Conn(a: nat, b: nat)

  function Other(c: Conn, x: nat): nat {
    if x == c.a then c.b else c.a
  }

  datatype TransState = Init | Listening | Connecting | Connected | Failed

  datatype Transport = Transport(nodeId: nat, state: TransState)

  /** Where the main thread is in `hmp_node_init`; `Create`, `Issue` and `Mark` are the parts of
      the turn of its loop for peer `i`. */
  datatype Pc = MemInit | Listen | Clear | Create(i: nat) | Issue(i: nat) | Mark(i: nat)

  datatype Node = Node(pc: Pc, infos: seq<MrInfo>, trans: map<Conn, Transport>, connect: map<nat, Conn>)

  /** The shared configuration. `seen[a]` is the address that node `a`'s connections come from. */
  datatype Config = Config(addrs: seq<string>, seen: seq<string>, mrs: seq<MrInfo>)

  predicate Proper(cfg: Config) {
    && |cfg.addrs| == |cfg.mrs|
    && cfg.seen == cfg.addrs
    && (forall i, j :: 0 <= i < j < |cfg.addrs| ==> cfg.addrs[i] != cfg.addrs[j])
    && forall i :: 0 <= i < |cfg.mrs| ==> Wire.Fits(cfg.mrs[i])
  }

  // ----- handlers of one node -----

  /** The search over the configuration: the first of `limit` addresses that equals `a`. */
  function Lookup(addrs: seq<string>, limit: nat, a: string): (r: nat)
    requires limit <= |addrs|
    ensures r <= limit && (r < limit ==> addrs[r] == a) && forall i :: 0 <= i < r ==> addrs[i] != a
  {
    if limit == 0 then 0
    else
      var r := Lookup(addrs, limit - 1, a);
      if r < limit - 1 then r else if addrs[limit - 1] == a then limit - 1 else limit
  }

  /** `hmp_mem_init` fills in the node's own address and key, not the length. */
  function OnMemInit(nd: Node, x: nat, mr: MrInfo): Node
    requires x < |nd.infos|
  {
    nd.(pc := Listen, infos := nd.infos[x := MrInfo(mr.addr, nd.infos[x].length, mr.rkey)])
  }

  /** The `memset` of the table of transports. */
  function OnClear(nd: Node, x: nat): Node {
    nd.(pc := Create(x + 1), connect := map[])
  }

  function OnCreate(nd: Node, x: nat, i: nat): Node {
    nd.(pc := Issue(i), trans := nd.trans[Conn(x, i) := Transport(i, Init)], connect := nd.connect[i := Conn(x, i)])
  }

  /** The write of CONNECTING after the connection was issued. */
  function OnMark(nd: Node, x: nat, i: nat): Node {
    var c := Conn(x, i);
    nd.(pc := Create(i + 1),
        trans := if c in nd.trans then nd.trans[c := nd.trans[c].(state := Connecting)] else nd.trans)
  }

  /** `on_cm_connect_request`. A request from an unknown address keeps node number 0 and
      stays out of the table. */
  function OnConnectRequest(nd: Node, x: nat, c: Conn, addrs: seq<string>, from: string): Node
    requires x <= |addrs|
  {
    var i := Lookup(addrs, x, from);
    if i < x then nd.(trans := nd.trans[c := Transport(i, Connecting)], connect := nd.connect[i := c])
    else nd.(trans := nd.trans[c := Transport(0, Connecting)])
  }

  /** `hmp_wc_success_handler` for a receive, with `hmp_handle_mr_msg`. */
  function OnReceive(nd: Node, c: Conn, slot: seq<Byte>): Node
    requires c in nd.trans && nd.trans[c].nodeId < |nd.infos| && |slot| == 40
  {
    if TypeField(slot) == TypeCode(INIT) then
      nd.(infos := nd.infos[nd.trans[c].nodeId := MrFields(slot)],
          trans := nd.trans[c := nd.trans[c].(state := Connected)])
    else nd
  }

  function OnError(nd: Node, c: Conn): Node
    requires c in nd.trans
  {
    nd.(trans := nd.trans[c := nd.trans[c].(state := Failed)])
  }

  // ----- the cluster -----

  datatype Phase = Idle | Resolving | Requested | Accepted

  /** A connection in the network, with the established events and messages under way to
      either end. */
  datatype Link = Link(phase: Phase, eventA: bool, eventB: bool, toA: seq<seq<Byte>>, toB: seq<seq<Byte>>)

  datatype Cluster = Cluster(nodes: seq<Node>, links: map<Conn, Link>)

  function LinkOf(s: Cluster, c: Conn): Link {
    if c in s.links then s.links[c] else Link(Idle, false, false, [], [])
  }

  function To(l: Link, c: Conn, x: nat): seq<seq<Byte>> {
    if x == c.a then l.toA else l.toB
  }

  function WithTo(l: Link, c: Conn, x: nat, q: seq<seq<Byte>>): Link {
    if x == c.a then l.(toA := q) else l.(toB := q)
  }

  datatype Action =
    | Main(x: nat)
    | RouteResolved(c: Conn)
    | ConnectRequest(c: Conn)
    | Established(x: nat, c: Conn)
    | Receive(x: nat, c: Conn, slot: seq<Byte>)
    | ConnectError(x: nat, c: Conn)

  function Start(cfg: Config): Cluster {
    var zero := MrInfo(0, 0, 0);
    var infos := seq(|cfg.mrs|, _ => zero);
    Cluster(seq(|cfg.mrs|, _ => Node(MemInit, infos, map[], map[])), map[])
  }

  predicate Shaped(cfg: Config, s: Cluster) {
    && |s.nodes| == |cfg.mrs| == |cfg.addrs| == |cfg.seen|
    && forall x :: 0 <= x < |s.nodes| ==> |s.nodes[x].infos| == |s.nodes|
  }

  function WithNode(s: Cluster, x: nat, nd: Node): Cluster
    requires x < |s.nodes|
  {
    s.(nodes := s.nodes[x := nd])
  }

  function WithLink(s: Cluster, c: Conn, l: Link): Cluster {
    s.(links := s.links[c := l])
  }

  /** What the next step of its main thread does to node `x`. */
  function MainNode(cfg: Config, nd: Node, x: nat): Node
    requires |nd.infos| == |cfg.mrs| && x < |cfg.mrs|
  {
    match nd.pc
    case MemInit => OnMemInit(nd, x, cfg.mrs[x])
    case Listen => nd.(pc := Clear)
    case Clear => OnClear(nd, x)
    case Create(i) => if x < i < |cfg.mrs| then OnCreate(nd, x, i) else nd
    case Issue(i) => nd.(pc := Mark(i))
    case Mark(i) => OnMark(nd, x, i)
  }

  /** The step of the main thread; to issue a connection also concerns the network. */
  function MainStep(cfg: Config, s: Cluster, x: nat): Cluster
    requires Shaped(cfg, s) && x < |s.nodes|
  {
    var nd := s.nodes[x];
    var s' := WithNode(s, x, MainNode(cfg, nd, x));
    if nd.pc.Issue? then
      var c := Conn(x, nd.pc.i);
      WithLink(s', c, LinkOf(s, c).(phase := Resolving))
    else s'
  }

  predicate Listens(nd: Node) {
    nd.pc != MemInit && nd.pc != Listen
  }

  /** A message is under way to `x`'s end, and `slot` is what the receive slot holds afterwards. */
  predicate CanReceive(s: Cluster, x: nat, c: Conn, slot: seq<Byte>) {
    && x < |s.nodes| && (x == c.a || x == c.b)
    && To(LinkOf(s, c), c, x) != [] && |slot| == 40 && Arrived(slot, To(LinkOf(s, c), c, x)[0])
    && c in s.nodes[x].trans && s.nodes[x].trans[c].nodeId < |s.nodes|
  }

  /** One step; an action that is not possible changes nothing. */
  function Next(cfg: Config, s: Cluster, act: Action): (s': Cluster)
    requires Shaped(cfg, s)
    ensures Shaped(cfg, s')
  {
    match act
    case Main(x) => if x < |s.nodes| then MainStep(cfg, s, x) else s
    case RouteResolved(c) =>
      var l := LinkOf(s, c);
      if l.phase == Resolving then WithLink(s, c, l.(phase := Requested)) else s
    case ConnectRequest(c) =>
      var l := LinkOf(s, c);
      if l.phase == Requested && c.a < |s.nodes| && c.b < |s.nodes| && Listens(s.nodes[c.b]) then
        WithLink(WithNode(s, c.b, OnConnectRequest(s.nodes[c.b], c.b, c, cfg.addrs, cfg.seen[c.a])),
                 c, l.(phase := Accepted, eventA := true, eventB := true))
      else s
    case Established(x, c) =>
      var l := LinkOf(s, c);
      if ((x == c.a && l.eventA) || (x == c.b && l.eventB)) && x < |s.nodes| then
        var y := Other(c, x);
        var l' := WithTo(l, c, y, To(l, c, y) + [InitMessage(cfg.mrs[x])]);
        WithLink(s, c, if x == c.a then l'.(eventA := false) else l'.(eventB := false))
      else s
    case Receive(x, c, slot) =>
      var l := LinkOf(s, c);
      if CanReceive(s, x, c, slot) then
        WithLink(WithNode(s, x, OnReceive(s.nodes[x], c, slot)), c, WithTo(l, c, x, To(l, c, x)[1..]))
      else s
    case ConnectError(x, c) =>
      if x < |s.nodes| && c in s.nodes[x].trans then WithNode(s, x, OnError(s.nodes[x], c)) else s
  }

  function Run(cfg: Config, s: Cluster, run: seq<Action>): (r: Cluster)
    requires Shaped(cfg, s)
    ensures Shaped(cfg, r)
    decreases |run|
  {
    if run == [] then s else Run(cfg, Next(cfg, s, run[0]), run[1..])
  }

  // ----- the invariant -----

  predicate Between(cfg: Config, c: Conn) {
    c.a < c.b < |cfg.mrs|
  }

  /** One transport of node `x`: it is numbered by the other end, and when it is connected the
      node holds what the other end registered. */
  predicate TransOk(cfg: Config, nd: Node, x: nat, c: Conn)
    requires c in nd.trans && |nd.infos| == |cfg.mrs|
  {
    && Between(cfg, c) && (x == c.a || x == c.b)
    && nd.trans[c].nodeId == Other(c, x)
    && (nd.trans[c].state == Connected ==> nd.infos[Other(c, x)] == cfg.mrs[Other(c, x)])
  }

  ghost predicate NodeOk(cfg: Config, nd: Node, x: nat) {
    && |nd.infos| == |cfg.mrs|
    && (nd.pc.Issue? || nd.pc.Mark? ==> x < nd.pc.i < |cfg.mrs|)
    && (forall c :: c in nd.trans ==> TransOk(cfg, nd, x, c))
  }

  /** Only proper connections are under way, and every message on one is the sender's. */
  predicate LinkOk(cfg: Config, c: Conn, l: Link) {
    && Between(cfg, c)
    && (forall i :: 0 <= i < |l.toA| ==> l.toA[i] == InitMessage(cfg.mrs[c.b]))
    && (forall i :: 0 <= i < |l.toB| ==> l.toB[i] == InitMessage(cfg.mrs[c.a]))
  }

  ghost predicate Inv(cfg: Config, s: Cluster) {
    && Shaped(cfg, s)
    && (forall x :: 0 <= x < |s.nodes| ==> NodeOk(cfg, s.nodes[x], x))
    && (forall c :: c in s.links ==> LinkOk(cfg, c, s.links[c]))
  }

  lemma {:induction false} LookupFinds(cfg: Config, limit: nat, a: nat)
    requires Proper(cfg) && a < limit <= |cfg.addrs|
    ensures Lookup(cfg.addrs, limit, cfg.addrs[a]) == a
  {
  }

  lemma {:induction false} StartInv(cfg: Config)
    requires Proper(cfg)
    ensures Inv(cfg, Start(cfg))
  {
  }

  /** A step that replaces one node keeps the invariant if the new node is fine. */
  lemma {:induction false} NodeReplaced(cfg: Config, s: Cluster, x: nat, nd: Node)
    requires Inv(cfg, s) && x < |s.nodes| && NodeOk(cfg, nd, x)
    ensures Inv(cfg, WithNode(s, x, nd))
  {
  }

  lemma {:induction false} LinkReplaced(cfg: Config, s: Cluster, c: Conn, l: Link)
    requires Inv(cfg, s) && LinkOk(cfg, c, l)
    ensures Inv(cfg, WithLink(s, c, l))
  {
  }

  lemma {:induction false} ReceiveOk(cfg: Config, nd: Node, x: nat, c: Conn, slot: seq<Byte>)
    requires Proper(cfg) && NodeOk(cfg, nd, x) && c in nd.trans && |slot| == 40
    requires TransOk(cfg, nd, x, c) ==> Arrived(slot, InitMessage(cfg.mrs[Other(c, x)]))
    ensures nd.trans[c].nodeId < |nd.infos| && NodeOk(cfg, OnReceive(nd, c, slot), x)
  {
    assert TransOk(cfg, nd, x, c);
    var j := Other(c, x);
    InitMessageRead(cfg.mrs[j], slot);
    var nd' := OnReceive(nd, c, slot);
    forall d | d in nd'.trans ensures TransOk(cfg, nd', x, d) {
      assert TransOk(cfg, nd, x, d);
    }
  }

  /** The steps of the main thread leave every transport properly numbered and filled. */
  lemma {:induction false} MainNodeOk(cfg: Config, nd: Node, x: nat)
    requires Proper(cfg) && NodeOk(cfg, nd, x) && x < |cfg.mrs|
    ensures NodeOk(cfg, MainNode(cfg, nd, x), x)
  {
    var nd' := MainNode(cfg, nd, x);
    forall d | d in nd'.trans ensures TransOk(cfg, nd', x, d) {
      assert d in nd.trans ==> TransOk(cfg, nd, x, d);
    }
  }

  lemma {:induction false} RequestNodeOk(cfg: Config, nd: Node, c: Conn)
    requires Proper(cfg) && Between(cfg, c) && NodeOk(cfg, nd, c.b)
    ensures NodeOk(cfg, OnConnectRequest(nd, c.b, c, cfg.addrs, cfg.seen[c.a]), c.b)
  {
    LookupFinds(cfg, c.b, c.a);
    var nd' := OnConnectRequest(nd, c.b, c, cfg.addrs, cfg.seen[c.a]);
    forall d | d in nd'.trans ensures TransOk(cfg, nd', c.b, d) {
      assert d in nd.trans ==> TransOk(cfg, nd, c.b, d);
    }
  }

  lemma {:induction false} ErrorNodeOk(cfg: Config, nd: Node, x: nat, c: Conn)
    requires NodeOk(cfg, nd, x) && c in nd.trans
    ensures NodeOk(cfg, OnError(nd, c), x)
  {
    forall d | d in nd.trans ensures TransOk(cfg, OnError(nd, c), x, d) {
      assert TransOk(cfg, nd, x, d);
    }
  }

  lemma {:induction false} MainStepInv(cfg: Config, s: Cluster, x: nat)
    requires Proper(cfg) && Inv(cfg, s) && x < |s.nodes|
    ensures Inv(cfg, MainStep(cfg, s, x))
  {
    var nd := s.nodes[x];
    assert NodeOk(cfg, nd, x);
    MainNodeOk(cfg, nd, x);
    NodeReplaced(cfg, s, x, MainNode(cfg, nd, x));
    if nd.pc.Issue? {
      var c := Conn(x, nd.pc.i);
      assert c in s.links ==> LinkOk(cfg, c, s.links[c]);
      LinkReplaced(cfg, WithNode(s, x, MainNode(cfg, nd, x)), c, LinkOf(s, c).(phase := Resolving));
    }
  }

  lemma {:induction false} NextInv(cfg: Config, s: Cluster, act: Action)
    requires Proper(cfg) && Inv(cfg, s)
    ensures Inv(cfg, Next(cfg, s, act))
  {
    match act
    case Main(x) =>
      if x < |s.nodes| {
        MainStepInv(cfg, s, x);
      }
    case RouteResolved(c) =>
    case ConnectRequest(c) =>
      var l := LinkOf(s, c);
      if l.phase == Requested && c.a < |s.nodes| && c.b < |s.nodes| && Listens(s.nodes[c.b]) {
        RequestNodeOk(cfg, s.nodes[c.b], c);
        var nd := OnConnectRequest(s.nodes[c.b], c.b, c, cfg.addrs, cfg.seen[c.a]);
        NodeReplaced(cfg, s, c.b, nd);
        LinkReplaced(cfg, WithNode(s, c.b, nd), c, l.(phase := Accepted, eventA := true, eventB := true));
      }
    case Established(x, c) =>
      if Next(cfg, s, act) != s {
        EstablishedInv(cfg, s, x, c);
      }
    case Receive(x, c, slot) =>
      var l := LinkOf(s, c);
      if Next(cfg, s, act) != s && c in s.links {
        assert LinkOk(cfg, c, l);
        ReceiveOk(cfg, s.nodes[x], x, c, slot);
        var nd := OnReceive(s.nodes[x], c, slot);
        NodeReplaced(cfg, s, x, nd);
        LinkReplaced(cfg, WithNode(s, x, nd), c, WithTo(l, c, x, To(l, c, x)[1..]));
      }
    case ConnectError(x, c) =>
      if x < |s.nodes| && c in s.nodes[x].trans {
        ErrorNodeOk(cfg, s.nodes[x], x, c);
        NodeReplaced(cfg, s, x, OnError(s.nodes[x], c));
      }
  }

  lemma {:induction false} EstablishedInv(cfg: Config, s: Cluster, x: nat, c: Conn)
    requires Proper(cfg) && Inv(cfg, s)
    ensures Inv(cfg, Next(cfg, s, Established(x, c)))
  {
    var l := LinkOf(s, c);
    if c in s.links {
      assert LinkOk(cfg, c, l);
      if x < |s.nodes| && (x == c.a || x == c.b) {
        var y := Other(c, x);
        var l' := WithTo(l, c, y, To(l, c, y) + [InitMessage(cfg.mrs[x])]);
        LinkReplaced(cfg, s, c, if x == c.a then l'.(eventA := false) else l'.(eventB := false));
      }
    }
  }

  lemma {:induction false} RunInv(cfg: Config, s: Cluster, run: seq<Action>)
    requires Proper(cfg) && Inv(cfg, s)
    ensures Inv(cfg, Run(cfg, s, run))
    decreases |run|
  {
    if run != [] {
      NextInv(cfg, s, run[0]);
      RunInv(cfg, Next(cfg, s, run[0]), run[1..]);
    }
  }

  /** In every run, a node whose transport for a peer is connected holds the base, length and
      key that the peer registered. */
  lemma {:induction false} ConnectedHoldsRegistered(cfg: Config, run: seq<Action>, x: nat, c: Conn)
    requires Proper(cfg) && x < |cfg.mrs|
    requires var nd := Run(cfg, Start(cfg), run).nodes[x]; c in nd.trans && nd.trans[c].state == Connected
    ensures var nd := Run(cfg, Start(cfg), run).nodes[x];
      && Between(cfg, c) && (x == c.a || x == c.b)
      && nd.trans[c].nodeId == Other(c, x) && nd.infos[Other(c, x)] == cfg.mrs[Other(c, x)]
  {
    StartInv(cfg);
    RunInv(cfg, Start(cfg), run);
    assert TransOk(cfg, Run(cfg, Start(cfg), run).nodes[x], x, c);
  }

  // ----- runs in parts -----

  lemma {:induction false} RunExtended(cfg: Config, s: Cluster, run: seq<Action>, act: Action)
    requires Shaped(cfg, s)
    ensures Run(cfg, s, run + [act]) == Next(cfg, Run(cfg, s, run), act)
    decreases |run|
  {
    if run != [] {
      RunExtended(cfg, Next(cfg, s, run[0]), run[1..], act);
      assert (run + [act])[1..] == run[1..] + [act];
    } else {
      assert [act][1..] == [];
    }
  }

  /** Node 1 up to the start of listening. */
  lemma {:induction false} ListenerSteps(cfg: Config, c: Conn, dial: seq<Action>) returns (run: seq<Action>)
    requires Proper(cfg) && |cfg.mrs| == 2
    requires var s := Run(cfg, Start(cfg), dial); s.nodes[1] == Start(cfg).nodes[1]
    ensures var s, s' := Run(cfg, Start(cfg), dial), Run(cfg, Start(cfg), run);
      s'.nodes[1].pc == Clear && s'.nodes[0] == s.nodes[0] && LinkOf(s', c) == LinkOf(s, c)
  {
    run := dial;
    RunExtended(cfg, Start(cfg), run, Main(1));
    run := run + [Main(1)];
    RunExtended(cfg, Start(cfg), run, Main(1));
    run := run + [Main(1)];
  }

  /** Node 0 up to the request for `c`. */
  lemma {:induction false} DialerSteps(cfg: Config, c: Conn, dial: seq<Action>) returns (s: Cluster)
    requires Proper(cfg) && |cfg.mrs| == 2 && c == Conn(0, 1)
    requires dial == [Main(0), Main(0), Main(0), Main(0), Main(0), RouteResolved(c)]
    ensures s == Run(cfg, Start(cfg), dial) && LinkOf(s, c) == Link(Requested, false, false, [], [])
    ensures s.nodes[0].pc == Mark(1) && c in s.nodes[0].trans && s.nodes[1] == Start(cfg).nodes[1]
  {
    var s0 := Start(cfg);
    var run: seq<Action> := [];
    RunExtended(cfg, s0, run, Main(0));
    run := run + [Main(0)];
    RunExtended(cfg, s0, run, Main(0));
    run := run + [Main(0)];
    RunExtended(cfg, s0, run, Main(0));
    run := run + [Main(0)];
    RunExtended(cfg, s0, run, Main(0));
    run := run + [Main(0)];
    RunExtended(cfg, s0, run, Main(0));
    run := run + [Main(0)];
    RunExtended(cfg, s0, run, RouteResolved(c));
    run := run + [RouteResolved(c)];
    assert run == dial;
    s := Run(cfg, s0, run);
  }

  lemma {:induction false} RunAppended(cfg: Config, s: Cluster, run: seq<Action>, more: seq<Action>)
    requires Shaped(cfg, s)
    ensures Run(cfg, s, run + more) == Run(cfg, Run(cfg, s, run), more)
    decreases |run|
  {
    if run != [] {
      RunAppended(cfg, Next(cfg, s, run[0]), run[1..], more);
      assert (run + more)[1..] == run[1..] + more;
    } else {
      assert run + more == more;
    }
  }
}

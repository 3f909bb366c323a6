/** A node's handlers as they update its state in place, and the request that a read or write
    of a global address turns into. */
module HmpNode {
  import opened Wire
  import opened Handshake
  import opened Address
  import opened Delivery
  import opened Tables
  import Startup
  import opened TransportStates

  /** What becomes of a read or write of a global address. */
  datatype Outcome =
    | AssertionFails
    | LocalCopy(offset: int)
    | NoTransport
    | Spins
    | Refused
    | Posted(conn: Conn, remoteAddr: int, rkey: nat)

  /** `hmp_read` and `hmp_write` up to the posted work request. */
  function Request(nd: Node, x: nat, addr: Int64): Outcome
    requires forall c :: c in nd.trans ==> nd.trans[c].nodeId < |nd.infos|
  {
    match Split(addr, |nd.infos|)
    case AssertFails => AssertionFails
    case Place(id, offset) =>
      if id == x then LocalCopy(offset)
      else if id !in nd.connect || nd.connect[id] !in nd.trans then NoTransport
      else
        var t := nd.trans[nd.connect[id]];
        match t.state
        case Init | Listening | Connecting => Spins
        case Connected => Posted(nd.connect[id], offset, nd.infos[t.nodeId].rkey)
        case Failed => Refused
  }

  class HmpNode {
    const id: nat
    var pc: Pc
    var infos: seq<MrInfo>
    var trans: map<Conn, Transport>
    var connect: map<nat, Conn>

    function State(): Node
      reads this
    {
      Node(pc, infos, trans, connect)
    }

    constructor (id: nat, nodes: nat)
      ensures this.id == id && State() == Node(MemInit, seq(nodes, _ => MrInfo(0, 0, 0)), map[], map[])
    {
      this.id := id;
      pc, infos, trans, connect := MemInit, seq(nodes, _ => MrInfo(0, 0, 0)), map[], map[];
    }

    /** `hmp_mem_init`. */
    method InitMemory(mr: MrInfo)
      requires id < |infos|
      modifies this
      ensures State() == OnMemInit(old(State()), id, mr)
    {
      var info := infos[id];
      info := info.(addr := mr.addr);
      info := info.(rkey := mr.rkey);
      infos := infos[id := info];
      pc := Listen;
    }

    /** The `memset` in `hmp_node_init`. */
    method ClearTable()
      modifies this
      ensures State() == OnClear(old(State()), id)
    {
      connect := map[];
      pc := Create(id + 1);
    }

    /** The part of the loop turn for peer `i` that creates and numbers the transport. */
    method CreateTransport(i: nat)
      modifies this
      ensures State() == OnCreate(old(State()), id, i)
    {
      var t := Transport(0, Init);
      trans := trans[Conn(id, i) := t.(nodeId := i)];
      connect := connect[i := Conn(id, i)];
      pc := Issue(i);
    }

    method MarkConnecting(i: nat)
      modifies this
      ensures State() == OnMark(old(State()), id, i)
    {
      var c := Conn(id, i);
      if c in trans {
        trans := trans[c := trans[c].(state := Connecting)];
      }
      pc := Create(i + 1);
    }

    /** `on_cm_connect_request`: the new transport is numbered by a search over the nodes before this one. */
    method ConnectRequested(c: Conn, addrs: seq<string>, from: string)
      requires id <= |addrs|
      modifies this
      ensures State() == OnConnectRequest(old(State()), id, c, addrs, from)
    {
      var t := Transport(0, Init);
      var i := 0;
      while i < id && addrs[i] != from
        invariant 0 <= i <= id && forall j :: 0 <= j < i ==> addrs[j] != from
      {
        i := i + 1;
      }
      LookupIs(addrs, id, from, i);
      if i < id {
        connect := connect[i := c];
        t := t.(nodeId := i);
      }
      t := t.(state := Connecting);
      trans := trans[c := t];
    }

    /** `hmp_wc_success_handler` for a receive. */
    method Received(c: Conn, slot: seq<Byte>)
      requires c in trans && trans[c].nodeId < |infos| && |slot| == 40
      modifies this
      ensures State() == OnReceive(old(State()), c, slot)
    {
      if TypeField(slot) == TypeCode(INIT) {
        HandleMr(c, slot);
      }
    }

    /** `hmp_handle_mr_msg`. */
    method HandleMr(c: Conn, slot: seq<Byte>)
      requires c in trans && trans[c].nodeId < |infos| && |slot| == 40
      modifies this
      ensures State() == old(State()).(infos := old(infos)[old(trans)[c].nodeId := MrFields(slot)],
                                       trans := old(trans)[c := old(trans)[c].(state := Connected)])
    {
      var peer := trans[c].nodeId;
      var info := infos[peer];
      info := info.(addr := Number(slot[8..16]));
      info := info.(length := Number(slot[16..24]));
      info := info.(rkey := Number(slot[24..28]));
      infos := infos[peer := info];
      trans := trans[c := trans[c].(state := Connected)];
    }

    /** The next step of the main thread. */
    method MainTurn(cfg: Config)
      requires |infos| == |cfg.mrs| && id < |cfg.mrs|
      modifies this
      ensures State() == MainNode(cfg, old(State()), id)
    {
      match pc {
        case MemInit => InitMemory(cfg.mrs[id]);
        case Listen => pc := Clear;
        case Clear => ClearTable();
        case Create(i) =>
          if id < i < |cfg.mrs| {
            CreateTransport(i);
          }
        case Issue(i) => pc := Mark(i);
        case Mark(i) => MarkConnecting(i);
      }
    }

    method ConnectFailed(c: Conn)
      requires c in trans
      modifies this
      ensures State() == OnError(old(State()), c)
    {
      trans := trans[c := trans[c].(state := Failed)];
    }

    /** `hmp_read` and `hmp_write`. */
    method Access(addr: Int64) returns (r: Outcome)
      requires forall c :: c in trans ==> trans[c].nodeId < |infos|
      ensures r == Request(State(), id, addr)
    {
      var place := Split(addr, |infos|);
      if place.AssertFails? {
        return AssertionFails;
      }
      if place.id == id {
        return LocalCopy(place.offset);
      }
      if place.id !in connect || connect[place.id] !in trans {
        return NoTransport;
      }
      var c := connect[place.id];
      var t := trans[c];
      if t.state == Failed {
        return Refused;
      }
      if t.state != Connected {
        return Spins;
      }
      r := Posted(c, place.offset, infos[t.nodeId].rkey);
    }
  }

  lemma {:induction false} LookupIs(addrs: seq<string>, limit: nat, a: string, i: nat)
    requires limit <= |addrs| && i <= limit
    requires (forall j :: 0 <= j < i ==> addrs[j] != a) && (i < limit ==> addrs[i] == a)
    ensures Lookup(addrs, limit, a) == i
  {
  }

  // ----- requests over runs -----

  /** The connection between two nodes. */
  function ConnOf(x: nat, id: nat): Conn {
    if x < id then Conn(x, id) else Conn(id, x)
  }

  ghost predicate Numbered(nd: Node) {
    forall c :: c in nd.trans ==> nd.trans[c].nodeId < |nd.infos|
  }

  lemma {:induction false} NumberedAlways(cfg: Config, run: seq<Action>, x: nat)
    requires Proper(cfg) && x < |cfg.mrs|
    ensures var nd := Run(cfg, Start(cfg), run).nodes[x];
      Numbered(nd) && NodeOk(cfg, nd, x) && TableOk(nd, x)
  {
    StartInv(cfg);
    StartTables(cfg);
    RunInv(cfg, Start(cfg), run);
    RunTables(cfg, Start(cfg), run);
    var nd := Run(cfg, Start(cfg), run).nodes[x];
    assert NodeOk(cfg, nd, x) && TableOk(nd, x);
    forall c | c in nd.trans ensures nd.trans[c].nodeId < |nd.infos| {
      assert TransOk(cfg, nd, x, c);
    }
  }

  /** The states that come before CONNECTED. */
  predicate IsEarly(state: TransState) {
    state == Init || state == Listening || state == Connecting
  }

  /** What a request for offset `offset` of node `id` becomes at node `x`. A posted one goes over the
      connection with that node, to that offset, under the key that the node registered. */
  predicate Reaches(cfg: Config, nd: Node, x: nat, id: nat, offset: nat, r: Outcome)
    requires id < |cfg.mrs|
  {
    var c := ConnOf(x, id);
    && (r == LocalCopy(offset) <==> id == x)
    && (r == Posted(c, offset, cfg.mrs[id].rkey) <==>
         id != x && InTable(nd, x, c) && c in nd.trans && nd.trans[c].state == Connected)
    && (r.Posted? ==> r == Posted(c, offset, cfg.mrs[id].rkey))
    && (r == NoTransport <==> id != x && !InTable(nd, x, c))
    && (r == Spins <==> id != x && InTable(nd, x, c) && c in nd.trans && IsEarly(nd.trans[c].state))
    && (r == Refused <==> id != x && InTable(nd, x, c) && c in nd.trans && nd.trans[c].state == Failed)
    && r != AssertionFails
  }

  lemma {:induction false} NodeRequest(cfg: Config, nd: Node, x: nat, id: nat, offset: nat)
    requires x < |cfg.mrs| <= 8 && id < |cfg.mrs| && offset < OFFSETS
    requires Numbered(nd) && NodeOk(cfg, nd, x) && TableOk(nd, x)
    ensures Reaches(cfg, nd, x, id, offset, Request(nd, x, Global(id, offset)))
  {
    SplitGlobal(id, offset, |cfg.mrs|);
    if id in nd.connect {
      assert TransOk(cfg, nd, x, nd.connect[id]);
    }
  }

  /** In every run a request is posted exactly if the transport for the node is in the table and
      connected, and then it reaches that node. */
  lemma {:induction false} RequestReachesNode(cfg: Config, run: seq<Action>, x: nat, id: nat, offset: nat)
    requires Proper(cfg) && x < |cfg.mrs| <= 8 && id < |cfg.mrs| && offset < OFFSETS
    ensures var nd := Run(cfg, Start(cfg), run).nodes[x];
      Numbered(nd) && Reaches(cfg, nd, x, id, offset, Request(nd, x, Global(id, offset)))
  {
    NumberedAlways(cfg, run, x);
    NodeRequest(cfg, Run(cfg, Start(cfg), run).nodes[x], x, id, offset);
  }

  /** The remote address is the bare offset: the base that the peer sent, which the node holds, is not
      added. So a posted request reaches the place at that offset of the peer's memory exactly
      if the memory starts at address 0, and any of that memory exactly if the offset happens
      to be an address in it. */
  lemma {:induction false} BaseIsNotAdded(cfg: Config, run: seq<Action>, x: nat, id: nat, offset: nat)
    requires Proper(cfg) && x < |cfg.mrs| <= 8 && id < |cfg.mrs| && offset < OFFSETS
    requires var nd := Run(cfg, Start(cfg), run).nodes[x]; Numbered(nd) && Request(nd, x, Global(id, offset)).Posted?
    ensures var nd, mr := Run(cfg, Start(cfg), run).nodes[x], cfg.mrs[id];
      var r := Request(nd, x, Global(id, offset));
      && nd.infos[id] == mr
      && (r.remoteAddr == mr.addr + offset <==> mr.addr == 0)
      && (mr.addr <= r.remoteAddr < mr.addr + mr.length <==> mr.addr <= offset < mr.addr + mr.length)
  {
    NumberedAlways(cfg, run, x);
    var nd := Run(cfg, Start(cfg), run).nodes[x];
    NodeRequest(cfg, nd, x, id, offset);
    assert TransOk(cfg, nd, x, ConnOf(x, id));
  }

  /** It can happen for every offset in any cluster of two: the request is posted, to the offset as
      an address of the peer. */
  lemma {:induction false} PostedAtOffset(cfg: Config, offset: nat) returns (run: seq<Action>)
    requires Proper(cfg) && |cfg.mrs| == 2 && offset < OFFSETS
    ensures var nd := Run(cfg, Start(cfg), run).nodes[0];
      && Numbered(nd) && Request(nd, 0, Global(1, offset)) == Posted(Conn(0, 1), offset, cfg.mrs[1].rkey)
      && (cfg.mrs[1].addr > 0 ==> Request(nd, 0, Global(1, offset)).remoteAddr != cfg.mrs[1].addr + offset)
  {
    run := DialerConnects(cfg);
    TransportFound(cfg, run, 0, Conn(0, 1));
    RequestReachesNode(cfg, run, 0, 1, offset);
  }

  /** After the run node `x` posts a request for offset `offset` of node `id`, to that node. */
  ghost predicate PostsTo(cfg: Config, run: seq<Action>, x: nat, id: nat, offset: nat)
    requires Proper(cfg) && x < |cfg.mrs| && id < |cfg.mrs|
  {
    var nd, addr := Run(cfg, Start(cfg), run).nodes[x], Global(id, offset);
    && -INT64 <= addr < INT64 && Numbered(nd)
    && Request(nd, x, addr) == Posted(ConnOf(x, id), offset, cfg.mrs[id].rkey)
  }

  /** In every cluster, up to the eight nodes that addresses allow, there is a run after which every node
      posts its requests to every other node. */
  lemma {:induction false} AllPosted(cfg: Config) returns (run: seq<Action>)
    requires Proper(cfg) && |cfg.mrs| <= 8
    ensures forall x, id, offset :: 0 <= x < |cfg.mrs| && 0 <= id < |cfg.mrs| && x != id && 0 <= offset < OFFSETS ==>
      PostsTo(cfg, run, x, id, offset)
  {
    run := Startup.AllConnect(cfg);
    forall x, id, offset | 0 <= x < |cfg.mrs| && 0 <= id < |cfg.mrs| && x != id && 0 <= offset < OFFSETS
      ensures PostsTo(cfg, run, x, id, offset)
    {
      RequestReachesNode(cfg, run, x, id, offset);
      SplitGlobal(id, offset, |cfg.mrs|);
      assert Between(cfg, ConnOf(x, id));
    }
  }

  /** After a connection error at an existing transport, a request to the other end is refused, or finds no
      transport if the table lacks it, until the message is handled or CONNECTING is written. */
  lemma {:induction false} RefusedAfterError(cfg: Config, run: seq<Action>, more: seq<Action>, x: nat, c: Conn,
                                             offset: nat)
    requires Proper(cfg) && |cfg.mrs| <= 8 && Between(cfg, c) && (x == c.a || x == c.b) && offset < OFFSETS
    requires var s := Run(cfg, Start(cfg), run);
      StateOf(s, x, c).Present? && Quiet(cfg, Next(cfg, s, ConnectError(x, c)), more, x, c)
    ensures var nd := Run(cfg, Start(cfg), run + [ConnectError(x, c)] + more).nodes[x];
      && Numbered(nd)
      && Request(nd, x, Global(Other(c, x), offset)) == if InTable(nd, x, c) then Refused else NoTransport
  {
    FailedAfterError(cfg, run, more, x, c);
    RequestReachesNode(cfg, run + [ConnectError(x, c)] + more, x, Other(c, x), offset);
    assert c == ConnOf(x, Other(c, x));
  }

  /** It can happen in any cluster of two. */
  lemma {:induction false} ErrorRefused(cfg: Config, offset: nat) returns (run: seq<Action>)
    requires Proper(cfg) && |cfg.mrs| == 2 && offset < OFFSETS
    ensures var nd := Run(cfg, Start(cfg), run).nodes[0];
      Numbered(nd) && Request(nd, 0, Global(1, offset)) == Refused
  {
    var c := Conn(0, 1);
    var created := CreatedSteps(cfg);
    run := created + [ConnectError(0, c)];
    RefusedAfterError(cfg, created, [], 0, c, offset);
    assert run + [] == run;
    FailedAfterError(cfg, created, [], 0, c);
    TransportFound(cfg, run, 0, c);
  }

  /** Once an end has its message and is not connected, no read or write is posted over it,
      however the run goes on. */
  lemma {:induction false} NeverPosted(cfg: Config, run: seq<Action>, more: seq<Action>, x: nat, c: Conn, addr: Int64)
    requires Proper(cfg) && Between(cfg, c) && (x == c.a || x == c.b)
    requires Delivered(cfg, Start(cfg), run, x, c) == 1 && !IsConnected(Run(cfg, Start(cfg), run), x, c)
    ensures var nd := Run(cfg, Start(cfg), run + more).nodes[x];
      && Numbered(nd)
      && (Request(nd, x, addr).Posted? ==> Request(nd, x, addr).conn != c)
  {
    StuckForever(cfg, run, more, x, c);
    NumberedAlways(cfg, run + more, x);
  }

  // ----- a cluster of nodes, driven by a run -----

  /** The nodes of a cluster, each at its place. */
  predicate Fleet(nodes: seq<HmpNode>) {
    && (forall x :: 0 <= x < |nodes| ==> nodes[x].id == x)
    && forall x, y :: 0 <= x < y < |nodes| ==> nodes[x] != nodes[y]
  }

  function States(nodes: seq<HmpNode>): seq<Node>
    reads nodes
  {
    seq(|nodes|, x requires 0 <= x < |nodes| reads nodes => nodes[x].State())
  }

  /** The turn of one main thread leaves the other nodes alone. */
  method TakeMain(cfg: Config, nodes: seq<HmpNode>, x: nat)
    requires Fleet(nodes) && x < |nodes| == |cfg.mrs| && |nodes[x].infos| == |nodes|
    modifies nodes
    ensures States(nodes) == old(States(nodes))[x := MainNode(cfg, old(nodes[x].State()), x)]
  {
    nodes[x].MainTurn(cfg);
  }

  method TakeRequest(cfg: Config, nodes: seq<HmpNode>, c: Conn)
    requires Fleet(nodes) && c.a < |nodes| == |cfg.addrs| == |cfg.seen| && c.b < |nodes|
    modifies nodes
    ensures States(nodes) ==
      old(States(nodes))[c.b := OnConnectRequest(old(nodes[c.b].State()), c.b, c, cfg.addrs, cfg.seen[c.a])]
  {
    nodes[c.b].ConnectRequested(c, cfg.addrs, cfg.seen[c.a]);
  }

  method TakeMessage(nodes: seq<HmpNode>, x: nat, c: Conn, slot: seq<Byte>)
    requires Fleet(nodes) && x < |nodes| && |slot| == 40
    requires c in nodes[x].trans && nodes[x].trans[c].nodeId < |nodes[x].infos|
    modifies nodes
    ensures States(nodes) == old(States(nodes))[x := OnReceive(old(nodes[x].State()), c, slot)]
  {
    nodes[x].Received(c, slot);
  }

  method TakeError(nodes: seq<HmpNode>, x: nat, c: Conn)
    requires Fleet(nodes) && x < |nodes| && c in nodes[x].trans
    modifies nodes
    ensures States(nodes) == old(States(nodes))[x := OnError(old(nodes[x].State()), c)]
  {
    nodes[x].ConnectFailed(c);
  }

  /** One step of a cluster of nodes, with the network as a value. */
  method Perform(cfg: Config, nodes: seq<HmpNode>, links: map<Conn, Link>, act: Action)
    returns (links': map<Conn, Link>)
    requires Fleet(nodes) && Shaped(cfg, Cluster(States(nodes), links))
    modifies nodes
    ensures Cluster(States(nodes), links') == Next(cfg, old(Cluster(States(nodes), links)), act)
  {
    var s := Cluster(States(nodes), links);
    links' := Next(cfg, s, act).links;
    match act {
      case Main(x) =>
        if x < |nodes| {
          TakeMain(cfg, nodes, x);
        }
      case ConnectRequest(c) =>
        if LinkOf(s, c).phase == Requested && c.a < |nodes| && c.b < |nodes| && Listens(s.nodes[c.b]) {
          TakeRequest(cfg, nodes, c);
        }
      case Receive(x, c, slot) =>
        if CanReceive(s, x, c, slot) {
          TakeMessage(nodes, x, c, slot);
        }
      case ConnectError(x, c) =>
        if x < |nodes| && c in s.nodes[x].trans {
          TakeError(nodes, x, c);
        }
      case _ =>
    }
  }

  method NewFleet(cfg: Config) returns (nodes: seq<HmpNode>)
    ensures Fleet(nodes) && fresh(nodes) && States(nodes) == Start(cfg).nodes
  {
    nodes := [];
    var x := 0;
    while x < |cfg.mrs|
      invariant 0 <= x == |nodes| <= |cfg.mrs| && fresh(nodes) && Fleet(nodes)
      invariant forall y :: 0 <= y < x ==> nodes[y].State() == Start(cfg).nodes[y]
    {
      var node := new HmpNode(x, |cfg.mrs|);
      nodes := nodes + [node];
      x := x + 1;
    }
  }

  /** The nodes after any run are as the step system says. */
  method RunAll(cfg: Config, run: seq<Action>) returns (nodes: seq<HmpNode>, links: map<Conn, Link>)
    requires Proper(cfg)
    ensures Fleet(nodes) && fresh(nodes) && Cluster(States(nodes), links) == Handshake.Run(cfg, Start(cfg), run)
  {
    nodes := NewFleet(cfg);
    links := map[];
    var i := 0;
    while i < |run|
      invariant 0 <= i <= |run| && Fleet(nodes) && fresh(nodes) && Shaped(cfg, Cluster(States(nodes), links))
      invariant Handshake.Run(cfg, Cluster(States(nodes), links), run[i..]) == Handshake.Run(cfg, Start(cfg), run)
    {
      links := Perform(cfg, nodes, links, run[i]);
      i := i + 1;
    }
  }

  /** A read or write on the nodes themselves, after any run. */
  method AccessAfter(cfg: Config, run: seq<Action>, x: nat, id: nat, offset: nat) returns (r: Outcome)
    requires Proper(cfg) && x < |cfg.mrs| <= 8 && id < |cfg.mrs| && offset < OFFSETS
    ensures Reaches(cfg, Handshake.Run(cfg, Start(cfg), run).nodes[x], x, id, offset, r)
  {
    var nodes, links := RunAll(cfg, run);
    RequestReachesNode(cfg, run, x, id, offset);
    assert nodes[x].State() == States(nodes)[x];
    SplitGlobal(id, offset, |cfg.mrs|);
    r := nodes[x].Access(Global(id, offset));
  }
}

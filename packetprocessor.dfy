/** The engine object. It builds one record per node of the graph, keeps the
    links between their ports, sets every node up (a bridge to ns-3 gets its
    pipe registered with the socket bound to its address, one socket per
    address), drives the selector over the records and finally closes the
    sockets. */
module PacketProcessing {
  import opened Wrappers
  import opened Channels
  import opened RNodes
  import opened Nodes
  import opened NodeStates
  import opened NodeSelector
  import opened BBSockets

  /** A value of the dictionary handed to `PacketProcessor`: an `RNode`, or
      an object of some other class. */
  datatype Given = GivenNode(node: AnyNode) | NotANode

  /** Distinct keys hold nodes that share no object. */
  predicate DistinctNodes(given: map<int, Given>) {
    forall j, k :: j in given && k in given && j != k && given[j].GivenNode? && given[k].GivenNode? ==>
      given[j].node.Repr() !! given[k].node.Repr()
  }

  /** A socket as the registry sees it: its bound address and the pipe of
      each node id it serves. */
  datatype SockVal = SockVal(address: Address, pipes: map<int, Channel>)

  /** No two sockets are bound to one address. */
  predicate DistinctAddresses(ss: seq<SockVal>) {
    forall i, j :: 0 <= i < j < |ss| ==> ss[i].address != ss[j].address
  }

  /** `register_socket(address, port, node_id)` on the list of sockets: the
      first socket bound to the address also serves the node through the
      pipe, and when there is none a new socket serving only that node is
      appended. */
  function Register(ss: seq<SockVal>, a: Address, id: int, pipe: Channel): seq<SockVal>
  {
    if ss == [] then [SockVal(a, map[id := pipe])]
    else if ss[0].address == a then [ss[0].(pipes := ss[0].pipes[id := pipe])] + ss[1..]
    else [ss[0]] + Register(ss[1..], a, id, pipe)
  }

  /** Registering with the socket at `i`, the first bound to the address. */
  lemma {:induction false} RegisterAt(ss: seq<SockVal>, a: Address, id: int, pipe: Channel, i: nat)
    requires i < |ss| && ss[i].address == a
    requires forall j :: 0 <= j < i ==> ss[j].address != a
    ensures Register(ss, a, id, pipe) == ss[i := ss[i].(pipes := ss[i].pipes[id := pipe])]
    decreases i
  {
    if i > 0 {
      RegisterAt(ss[1..], a, id, pipe, i - 1);
      assert ss[1..][i - 1 := ss[i].(pipes := ss[i].pipes[id := pipe])] == ss[i := ss[i].(pipes := ss[i].pipes[id := pipe])][1..];
    }
  }

  /** Registering at an address no socket is bound to. */
  lemma {:induction false} RegisterNew(ss: seq<SockVal>, a: Address, id: int, pipe: Channel)
    requires forall j :: 0 <= j < |ss| ==> ss[j].address != a
    ensures Register(ss, a, id, pipe) == ss + [SockVal(a, map[id := pipe])]
    decreases |ss|
  {
    if ss != [] {
      RegisterNew(ss[1..], a, id, pipe);
      assert [ss[0]] + (ss[1..] + [SockVal(a, map[id := pipe])]) == ss + [SockVal(a, map[id := pipe])];
    }
  }

  /** What registering promises: a socket is bound to the address and serves
      the node through the pipe; every other socket and every other node's
      pipe is kept; a socket is added only for a new address, so no address
      ever gets a second socket. */
  lemma RegisterServes(ss: seq<SockVal>, a: Address, id: int, pipe: Channel)
    requires DistinctAddresses(ss)
    ensures DistinctAddresses(Register(ss, a, id, pipe))
    ensures |Register(ss, a, id, pipe)| == |ss| || (|Register(ss, a, id, pipe)| == |ss| + 1 && forall j :: 0 <= j < |ss| ==> ss[j].address != a)
    ensures exists i :: 0 <= i < |Register(ss, a, id, pipe)| && Register(ss, a, id, pipe)[i].address == a
    ensures forall i :: 0 <= i < |Register(ss, a, id, pipe)| && Register(ss, a, id, pipe)[i].address == a ==>
      id in Register(ss, a, id, pipe)[i].pipes && Register(ss, a, id, pipe)[i].pipes[id] == pipe
    ensures forall i :: 0 <= i < |ss| ==> Register(ss, a, id, pipe)[i].address == ss[i].address
    ensures forall i, x :: 0 <= i < |ss| && x in ss[i].pipes && (x != id || ss[i].address != a) ==>
      x in Register(ss, a, id, pipe)[i].pipes && Register(ss, a, id, pipe)[i].pipes[x] == ss[i].pipes[x]
  {
    var r := Register(ss, a, id, pipe);
    if i :| 0 <= i < |ss| && ss[i].address == a {
      RegisterAt(ss, a, id, pipe, i);
      assert r[i].address == a;
    } else {
      RegisterNew(ss, a, id, pipe);
      assert r[|ss|].address == a;
    }
  }

  /** The address, node id and pipe a bridge to ns-3 registers in `setup`;
      other kinds register nothing. */
  function Bridge(n: AnyNode): Option<(Address, int, Channel)> {
    match n
    case NS3SrcNode(x) => Some(((x.host, x.port), x.id, x.pipe))
    case NS3SnkNode(x) => Some(((x.host, x.port), x.id, x.pipe))
    case _ => None
  }

  /** One turn of the loop of `setup`: `setup(register_socket)` on the node
      of record `k`, a bridge registering its pipe first. */
  function SetupStep(nodes: map<int, NodeState>, s: Sys, ss: seq<SockVal>, k: int): Result<(Sys, seq<SockVal>)>
    requires k in nodes && k in s
  {
    var s1 :- SetupAt(s, k);
    Ok((s1, Registered(ss, nodes[k].node)))
  }

  /** The sockets once node `n` has registered its pipe, if it is a bridge. */
  function Registered(ss: seq<SockVal>, n: AnyNode): seq<SockVal> {
    match Bridge(n)
    case Some((a, id, p)) => Register(ss, a, id, p)
    case None => ss
  }

  /** The records and the order of `self.nodes`: every record has a value,
      and the order names only records. */
  predicate Shaped(nodes: map<int, NodeState>, s: Sys, order: seq<int>) {
    s.Keys == nodes.Keys && forall i :: 0 <= i < |order| ==> order[i] in nodes
  }

  /** `setup` over the records `order[n..]`; the first exception ends it. */
  function SetupFrom(nodes: map<int, NodeState>, s: Sys, ss: seq<SockVal>, order: seq<int>, n: nat): (r: Result<(Sys, seq<SockVal>)>)
    requires n <= |order| && Shaped(nodes, s, order)
    ensures r.Ok? ==> SameShape(s, r.value.0)
    decreases |order| - n
  {
    if n == |order| then Ok((s, ss))
    else
      var (s1, ss1) :- SetupStep(nodes, s, ss, order[n]);
      SetupFrom(nodes, s1, ss1, order, n + 1)
  }

  /** A node of the order that refuses to be set up: a switch with an empty
      matcher. */
  predicate Refuses(s: Sys, k: int) {
    k in s && s[k].val.SwitchV? && "" in s[k].val.sw.matchers
  }

  /** Setting the records `order[n..]` up fails, with `RuntimeError`,
      exactly when one of them refuses. */
  lemma {:induction false} SetupFromFails(nodes: map<int, NodeState>, s: Sys, ss: seq<SockVal>, order: seq<int>, n: nat)
    requires NoDup(order) && n <= |order| && Shaped(nodes, s, order)
    ensures SetupFrom(nodes, s, ss, order, n).Err? <==> exists i :: n <= i < |order| && Refuses(s, order[i])
    ensures SetupFrom(nodes, s, ss, order, n).Err? ==> SetupFrom(nodes, s, ss, order, n).error == RuntimeError
    decreases |order| - n
  {
    if n < |order| {
      var k := order[n];
      SetupIdempotent(s[k].val);
      var st := SetupStep(nodes, s, ss, k);
      if st.Ok? {
        var (s1, ss1) := st.value;
        SetupFromFails(nodes, s1, ss1, order, n + 1);
        forall i | n < i < |order| ensures Refuses(s1, order[i]) == Refuses(s, order[i]) {
          assert order[i] != k;
        }
      }
    }
  }

  /** When setting the records `order[n..]` up succeeds, each of them holds
      its node's state after `setup` and every other record is unchanged. */
  lemma {:induction false} SetupFromValues(nodes: map<int, NodeState>, s: Sys, ss: seq<SockVal>, order: seq<int>, n: nat)
    requires NoDup(order) && n <= |order| && Shaped(nodes, s, order)
    requires SetupFrom(nodes, s, ss, order, n).Ok?
    ensures forall k :: k in s && k !in order[n..] ==> SetupFrom(nodes, s, ss, order, n).value.0[k] == s[k]
    ensures forall k :: k in s && k in order[n..] ==>
      SetupSpec(s[k].val) == Ok(SetupFrom(nodes, s, ss, order, n).value.0[k].val) &&
      SetupFrom(nodes, s, ss, order, n).value.0[k] == s[k].(val := SetupFrom(nodes, s, ss, order, n).value.0[k].val)
    decreases |order| - n
  {
    if n < |order| {
      var k := order[n];
      var (s1, ss1) := SetupStep(nodes, s, ss, k).value;
      SetupFromValues(nodes, s1, ss1, order, n + 1);
      assert k !in order[n + 1..];
      forall x ensures x in order[n..] <==> x == k || x in order[n + 1..] {
        assert order[n..][1..] == order[n + 1..];
      }
      SetupIdempotent(s[k].val);
    }
  }

  /** Setting up never binds a second socket to an address. */
  lemma {:induction false} SetupKeepsAddressesDistinct(nodes: map<int, NodeState>, s: Sys, ss: seq<SockVal>, order: seq<int>, n: nat)
    requires n <= |order| && Shaped(nodes, s, order)
    requires DistinctAddresses(ss)
    requires SetupFrom(nodes, s, ss, order, n).Ok?
    ensures DistinctAddresses(SetupFrom(nodes, s, ss, order, n).value.1)
    decreases |order| - n
  {
    if n < |order| {
      var k := order[n];
      var (s1, ss1) := SetupStep(nodes, s, ss, k).value;
      match Bridge(nodes[k].node) {
        case Some((a, id, p)) => RegisterServes(ss, a, id, p);
        case None =>
      }
      SetupKeepsAddressesDistinct(nodes, s1, ss1, order, n + 1);
    }
  }

  /** `ps = PrioritySelector(self)` and `sim_core(ps)`: the initial queue,
      then the selector's loop, here bounded by `fuel` turns. */
  function DriveSpec(links: Links, s: Sys, order: seq<int>, fuel: nat): Result<(Sys, seq<int>)>
    requires NoDup(order) && forall i :: 0 <= i < |order| ==> order[i] in s
  {
    var (s1, q1) :- InitSpec(s, order);
    InitQueueOk(s, order);
    Run(links, s1, q1, fuel)
  }

  /** `DriveSpec` builds the initial queue, exactly the ready keys of
      `pp.nodes` in their order, then runs the selector's loop on it; an
      exception while building it is raised. */
  lemma DriveSpecUnfold(links: Links, s: Sys, order: seq<int>, fuel: nat)
    requires NoDup(order) && forall i :: 0 <= i < |order| ==> order[i] in s
    ensures InitSpec(s, order).Err? ==> DriveSpec(links, s, order, fuel) == Err(InitSpec(s, order).error)
    ensures InitSpec(s, order).Err? <==> !AllAnswer(s, order)
    ensures InitSpec(s, order).Ok? ==> InitSpec(s, order).value.1 == ReadyKeys(s, order)
    ensures InitSpec(s, order).Ok? ==> QueueOk(InitSpec(s, order).value.0, InitSpec(s, order).value.1)
    ensures InitSpec(s, order).Ok? ==>
      DriveSpec(links, s, order, fuel) == Run(links, InitSpec(s, order).value.0, ReadyKeys(s, order), fuel)
  {
    InitSpecReady(s, order);
    if InitSpec(s, order).Ok? {
      InitQueueOk(s, order);
    }
  }

  /** The sockets as values. */
  function SocksAbs(bs: seq<BBSocket>): (r: seq<SockVal>)
    reads bs
    ensures |r| == |bs| && forall i :: 0 <= i < |bs| ==> r[i] == SockVal(bs[i].address, bs[i].pipes)
  {
    seq(|bs|, i requires 0 <= i < |bs| reads bs => SockVal(bs[i].address, bs[i].pipes))
  }

  /** The engine's own objects are never objects a record owns. */
  lemma OutsideRecords(nodes: map<int, NodeState>, o: object)
    requires o is BBSocket || o is TcpConn || o is PrioritySelector || o is PacketProcessor
    ensures o !in NodesRepr(nodes)
  {
    forall k | k in nodes ensures o !in Footprints(nodes)[k] {
    }
  }

  /** The engine and its sockets are not objects a node owns. */
  lemma OutsideNode(o: object, n: AnyNode)
    requires o is BBSocket || o is PacketProcessor
    ensures o !in n.Repr()
  {
  }

  class PacketProcessor {
    /** `self.nodes`, whose keys in dict order are `order`. */
    const nodes: map<int, NodeState>
    const order: seq<int>
    const links: Links
    var socks: seq<BBSocket>

    /** The records share no object, the order lists every key once, and the
        list of sockets holds no socket twice. */
    predicate Valid()
      reads this
    {
      Disjoint(nodes) && NoDup(order) &&
      (forall i :: 0 <= i < |order| ==> order[i] in nodes) &&
      (forall k :: k in nodes ==> k in order) &&
      (forall i, j :: 0 <= i < j < |socks| ==> socks[i] != socks[j])
    }

    /** The accepted connections of the sockets. */
    function Conns(): set<TcpConn>
      reads this, socks
    {
      set i | 0 <= i < |socks| && socks[i].conn.Some? :: socks[i].conn.value
    }

    /** The object the loop of `__init__` fills in. */
    constructor(nodes: map<int, NodeState>, order: seq<int>, links: Links)
      ensures this.nodes == nodes && this.order == order && this.links == links && socks == []
    {
      this.nodes := nodes;
      this.order := order;
      this.links := links;
      socks := [];
    }

    /** `register_socket(address, port, node_id)`, with `pipe` for the new
        pipe whose node end the bridge keeps: the for-else search for a
        socket bound to the address. */
    method RegisterSocket(address: Address, nodeId: int, pipe: Channel)
      requires Valid()
      modifies this, socks
      ensures Valid()
      ensures SocksAbs(socks) == Register(old(SocksAbs(socks)), address, nodeId, pipe)
      ensures old(socks) <= socks && forall i :: |old(socks)| <= i < |socks| ==> fresh(socks[i])
      ensures NodesAbs(nodes) == old(NodesAbs(nodes))
    {
      ghost var ss := SocksAbs(socks);
      var i := 0;
      while i < |socks|
        invariant 0 <= i <= |socks|
        invariant forall j :: 0 <= j < i ==> socks[j].address != address
      {
        if socks[i].address == address {
          AddPipe(i, nodeId, pipe);
          RegisterAt(ss, address, nodeId, pipe, i);
          return;
        }
        i := i + 1;
      }
      AppendSocket(address, nodeId, pipe);
      RegisterNew(ss, address, nodeId, pipe);
    }

    /** `bbsock.pipes[node_id] = pp_conn` on socket `i`. */
    method AddPipe(i: nat, nodeId: int, pipe: Channel)
      requires Valid() && i < |socks|
      modifies socks[i]
      ensures SocksAbs(socks) == old(SocksAbs(socks))[i := old(SocksAbs(socks))[i].(pipes := old(socks[i].pipes)[nodeId := pipe])]
      ensures NodesAbs(nodes) == old(NodesAbs(nodes))
    {
      ghost var s := NodesAbs(nodes);
      var b := socks[i];
      OutsideRecords(nodes, b);
      b.pipes := b.pipes[nodeId := pipe];
      forall k | k in nodes ensures nodes[k].Abs() == s[k] {
        InNodesRepr(nodes, k);
      }
      AbsFromPoints(nodes, s);
    }

    /** The else branch: a new socket bound to the address, serving only
        the node, is appended to `self.socks`. */
    method AppendSocket(address: Address, nodeId: int, pipe: Channel)
      requires Valid()
      modifies this
      ensures Valid() && |socks| == |old(socks)| + 1 && socks[..|old(socks)|] == old(socks) && fresh(socks[|old(socks)|])
      ensures SocksAbs(socks) == old(SocksAbs(socks)) + [SockVal(address, map[nodeId := pipe])]
      ensures NodesAbs(nodes) == old(NodesAbs(nodes))
    {
      ghost var ss := SocksAbs(socks);
      OutsideRecords(nodes, this);
      ghost var s := NodesAbs(nodes);
      NodesAllocated(nodes);
      var b := new BBSocket(address, nodeId, pipe);
      OutsideRecords(nodes, b);
      socks := socks + [b];
      assert forall i :: 0 <= i < |ss| ==> SocksAbs(socks)[i] == ss[i];
      assert NodesAbs(nodes) == s;
    }

    /** The `register_socket` call a bridge to ns-3 makes from its `setup`. */
    method RegisterBridge(n: AnyNode)
      requires Valid()
      modifies this, socks
      ensures Valid()
      ensures old(socks) <= socks && forall i :: |old(socks)| <= i < |socks| ==> fresh(socks[i])
      ensures SocksAbs(socks) == Registered(old(SocksAbs(socks)), n)
      ensures NodesAbs(nodes) == old(NodesAbs(nodes))
    {
      var b := Bridge(n);
      if b.Some? {
        var (a, id, p) := b.value;
        RegisterSocket(a, id, p);
      }
    }

    /** One turn of the loop of `setup`. */
    method SetupNode(k: int) returns (r: Result<()>)
      requires Valid() && k in nodes
      modifies this, socks, NodesRepr(nodes)
      ensures Valid()
      ensures old(socks) <= socks && forall i :: |old(socks)| <= i < |socks| ==> fresh(socks[i])
      ensures r.Ok? ==> SetupStep(nodes, old(NodesAbs(nodes)), old(SocksAbs(socks)), k) == Ok((NodesAbs(nodes), SocksAbs(socks)))
      ensures r.Err? ==> SetupStep(nodes, old(NodesAbs(nodes)), old(SocksAbs(socks)), k) == Err(r.error)
    {
      ghost var s0 := NodesAbs(nodes);
      ghost var ss0 := SocksAbs(socks);
      RegisterBridge(nodes[k].node);
      assert NodesAbs(nodes) == s0;
      ghost var ss := SocksAbs(socks);
      assert ss == Registered(ss0, nodes[k].node);
      forall i | 0 <= i < |socks| ensures socks[i] !in nodes[k].node.Repr() {
        OutsideNode(socks[i], nodes[k].node);
      }
      OutsideNode(this, nodes[k].node);
      InNodesRepr(nodes, k);
      r := SetupOf(nodes, k);
      assert forall i :: 0 <= i < |socks| ==> SocksAbs(socks)[i] == ss[i];
      assert SocksAbs(socks) == ss;
    }

    /** `setup`: every node's `setup`, in the order of `self.nodes`. */
    method Setup() returns (r: Result<()>)
      requires Valid()
      modifies this, socks, NodesRepr(nodes)
      ensures Valid()
      ensures r.Ok? ==> SetupFrom(nodes, old(NodesAbs(nodes)), old(SocksAbs(socks)), order, 0) == Ok((NodesAbs(nodes), SocksAbs(socks)))
      ensures r.Err? ==> SetupFrom(nodes, old(NodesAbs(nodes)), old(SocksAbs(socks)), order, 0) == Err(r.error)
    {
      ghost var goal := SetupFrom(nodes, NodesAbs(nodes), SocksAbs(socks), order, 0);
      var n := 0;
      r := Ok(());
      while n < |order| && r.Ok?
        invariant 0 <= n <= |order| && Valid()
        invariant r.Ok? ==> goal == SetupFrom(nodes, NodesAbs(nodes), SocksAbs(socks), order, n)
        invariant r.Err? ==> goal == Err(r.error)
        invariant old(socks) <= socks && forall i :: |old(socks)| <= i < |socks| ==> fresh(socks[i])
      {
        r := SetupTurn(n, goal);
        n := n + 1;
      }
    }

    /** The turn of the loop of `setup` on record `order[n]`, with `goal`
        the outcome of the whole loop. */
    method SetupTurn(n: nat, ghost goal: Result<(Sys, seq<SockVal>)>) returns (r: Result<()>)
      requires Valid() && n < |order|
      requires goal == SetupFrom(nodes, NodesAbs(nodes), SocksAbs(socks), order, n)
      modifies this, socks, NodesRepr(nodes)
      ensures Valid()
      ensures old(socks) <= socks && forall i :: |old(socks)| <= i < |socks| ==> fresh(socks[i])
      ensures r.Ok? ==> goal == SetupFrom(nodes, NodesAbs(nodes), SocksAbs(socks), order, n + 1)
      ensures r.Err? ==> goal == Err(r.error)
    {
      r := SetupNode(order[n]);
    }

    /** One turn of the last loop of `drive`: the socket's accepted
        connection, if any, is closed, and so is the listening socket. */
    method CloseSocket(b: BBSocket)
      requires Valid() && b in socks
      modifies b, if b.conn.Some? then {b.conn.value} else {}
      ensures !b.listening && b.conn == old(b.conn) && b.pipes == old(b.pipes)
      ensures b.conn.Some? ==> b.conn.value.closed
      ensures NodesAbs(nodes) == old(NodesAbs(nodes))
    {
      ghost var s := NodesAbs(nodes);
      OutsideRecords(nodes, b);
      if b.conn.Some? {
        var c := b.conn.value;
        OutsideRecords(nodes, c);
        c.closed := true;
      }
      b.listening := false;
      forall k | k in nodes ensures nodes[k].Abs() == s[k] {
        InNodesRepr(nodes, k);
      }
      AbsFromPoints(nodes, s);
    }

    /** The last loop of `drive`: every socket is closed together with its
        accepted connection. */
    method CloseSockets()
      requires Valid()
      modifies socks, Conns()
      ensures NodesAbs(nodes) == old(NodesAbs(nodes))
      ensures forall i :: 0 <= i < |socks| ==> !socks[i].listening && socks[i].conn == old(socks[i].conn)
      ensures forall i :: 0 <= i < |socks| && socks[i].conn.Some? ==> socks[i].conn.value.closed
      ensures SocksAbs(socks) == old(SocksAbs(socks))
    {
      ghost var ss := SocksAbs(socks);
      var i := 0;
      while i < |socks|
        invariant 0 <= i <= |socks|
        invariant NodesAbs(nodes) == old(NodesAbs(nodes))
        invariant forall j :: 0 <= j < |socks| ==> socks[j].conn == old(socks[j].conn) && socks[j].pipes == old(socks[j].pipes)
        invariant forall j :: 0 <= j < i ==> !socks[j].listening && (socks[j].conn.Some? ==> socks[j].conn.value.closed)
      {
        assert socks[i].conn.Some? ==> socks[i].conn.value in old(Conns());
        CloseSocket(socks[i]);
        i := i + 1;
      }
      assert forall j :: 0 <= j < |socks| ==> SocksAbs(socks)[j] == ss[j];
    }

    /** `ps = PrioritySelector(self)` and `sim_core(ps)`: the selector
        queues the records that are ready, then `gen_nodes` runs it for at
        most `fuel` turns. */
    method SimCore(fuel: nat) returns (r: Result<()>)
      requires Valid()
      modifies NodesRepr(nodes)
      ensures r.Ok? ==> DriveSpec(links, old(NodesAbs(nodes)), order, fuel).Ok?
      ensures r.Ok? ==> DriveSpec(links, old(NodesAbs(nodes)), order, fuel).value.0 == NodesAbs(nodes)
      ensures r.Err? ==> DriveSpec(links, old(NodesAbs(nodes)), order, fuel) == Err(r.error)
    {
      ghost var s0 := NodesAbs(nodes);
      NodesAllocated(nodes);
      var ps := new PrioritySelector();
      OutsideRecords(nodes, ps);
      assert NodesAbs(nodes) == s0;
      r := ps.Init(nodes, order);
      if r.Err? {
        DriveSpecUnfold(links, s0, order, fuel);
        return;
      }
      ghost var s1 := NodesAbs(nodes);
      ghost var q1 := ps.rdy;
      assert InitSpec(s0, order) == Ok((s1, q1));
      DriveSpecUnfold(links, s0, order, fuel);
      r := ps.GenNodes(links, nodes, fuel);
    }

    /** The loop of `drive` calling every node's `teardown`. */
    method Teardown()
      requires Valid()
      ensures unchanged(NodesRepr(nodes))
    {
      for i := 0 to |order| {
        TeardownAny(nodes[order[i]].node);
      }
    }

    /** `drive` with `fuel` bounding the selector's loop and without the
        socket process of the online branch: `sim_core`, then every node is
        torn down and every socket closed. An exception ends it at once. */
    method Drive(fuel: nat) returns (r: Result<()>)
      requires Valid()
      modifies NodesRepr(nodes), socks, Conns()
      ensures r.Ok? ==> DriveSpec(links, old(NodesAbs(nodes)), order, fuel).Ok?
      ensures r.Ok? ==> DriveSpec(links, old(NodesAbs(nodes)), order, fuel).value.0 == NodesAbs(nodes)
      ensures r.Err? ==> DriveSpec(links, old(NodesAbs(nodes)), order, fuel) == Err(r.error)
      ensures r.Ok? ==> forall i :: 0 <= i < |socks| ==> !socks[i].listening
      ensures r.Ok? ==> forall i :: 0 <= i < |socks| && socks[i].conn.Some? ==> socks[i].conn.value.closed
    {
      OutsideRecords(nodes, this);
      forall i | 0 <= i < |socks| ensures socks[i] !in NodesRepr(nodes) {
        OutsideRecords(nodes, socks[i]);
      }
      ghost var cs := Conns();
      r := SimCore(fuel);
      if r.Err? {
        return;
      }
      assert Conns() == cs;
      ghost var s1 := NodesAbs(nodes);
      NodesAllocated(nodes);
      Teardown();
      assert NodesAbs(nodes) == s1;
      CloseSockets();
    }
  }

  /** `PacketProcessor(nodes, links)`, with `order` the dict order of the
      keys of `given`. A value that is not an `RNode` raises `ValueError`;
      otherwise each key gets a new record of its node, with empty deques
      and lists, and there are no sockets yet. */
  method NewPacketProcessor(given: map<int, Given>, order: seq<int>, links: Links) returns (r: Result<PacketProcessor>)
    requires NoDup(order)
    requires forall i :: 0 <= i < |order| ==> order[i] in given
    requires forall k :: k in given ==> k in order
    requires DistinctNodes(given)
    ensures r.Err? <==> exists k :: k in given && given[k].NotANode?
    ensures r.Err? ==> r.error == ValueError
    ensures r.Ok? ==> fresh(r.value) && r.value.Valid()
    ensures r.Ok? ==> r.value.order == order && r.value.links == links && r.value.socks == []
    ensures r.Ok? ==> r.value.nodes.Keys == given.Keys
    ensures r.Ok? ==> forall k :: k in given ==>
      fresh(r.value.nodes[k]) && r.value.nodes[k].node == given[k].node &&
      r.value.nodes[k].inputs == Empties(Count(given[k].node.NrInputs())) &&
      r.value.nodes[k].outputs == Empties(Count(given[k].node.NrOutputs()))
  {
    var states: map<int, NodeState> := map[];
    var n := 0;
    while n < |order|
      invariant 0 <= n <= |order|
      invariant forall k :: k in states <==> k in order[..n]
      invariant forall k :: k in states ==>
        given[k].GivenNode? && states[k].node == given[k].node && fresh(states[k]) &&
        states[k].inputs == Empties(Count(given[k].node.NrInputs())) &&
        states[k].outputs == Empties(Count(given[k].node.NrOutputs()))
      invariant Disjoint(states)
    {
      var key := order[n];
      match given[key]
      case NotANode =>
        return Err(ValueError);
      case GivenNode(node) =>
        var ns := new NodeState(node);
        assert forall j :: 0 <= j < n ==> order[j] != key;
        assert key !in states;
        DisjointAdd(states, key, ns);
        states := states[key := ns];
        assert order[..n + 1] == order[..n] + [key];
      n := n + 1;
    }
    assert order[..n] == order;
    assert forall k :: k in states <==> k in given;
    var pp := new PacketProcessor(states, order, links);
    r := Ok(pp);
  }
}

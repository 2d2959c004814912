/** The engine's end of one ns-3 connection: a listening socket, the
    connection it accepted, the bytes received but not yet decoded, and the
    pipes to the bridge nodes keyed by engine node id. Incoming frames are
    decoded and routed to the pipes; packets from a pipe are framed and
    written to ns-3. */
module BBSockets {
  import opened Wrappers
  import opened Bytes
  import opened BBPackets
  import opened Channels
  import LApplication

  /** Every pipe queue with `m` appended. */
  function SendAll(qs: map<int, seq<ChanMsg>>, m: ChanMsg): (r: map<int, seq<ChanMsg>>)
    ensures r.Keys == qs.Keys
    ensures forall k :: k in qs ==> r[k] == qs[k] + [m]
  {
    map k | k in qs :: qs[k] + [m]
  }

  /** The packet a data frame becomes: the dissected data, stamped with the
      frame's delay. */
  function ToPacket(m: Msg, ether: seq<byte> -> Frame): BBPacket
    requires m.MsgSim2BB?
  {
    NewBBPacket(ether(m.data), m.delayNs)
  }

  /** The routing loop over decoded frames, given the pipe queues `qs`: a data
      frame is sent to the pipe of its engine node id (`KeyError` when there
      is none); an end-of-data frame is sent to every pipe and ends the loop
      with `EndOfDataError`; any other frame raises `NotImplementedError`.
      Returns the new queues and how the loop ended. */
  function Route(msgs: seq<Msg>, qs: map<int, seq<ChanMsg>>, ether: seq<byte> -> Frame)
    : (r: (map<int, seq<ChanMsg>>, Result<()>))
    ensures r.0.Keys == qs.Keys
  {
    if msgs == [] then (qs, Ok(()))
    else
      match msgs[0]
      case MsgSim2BB(_, nid, _, _) =>
        if nid !in qs then (qs, Err(KeyError))
        else Route(msgs[1..], qs[nid := qs[nid] + [PacketItem(ToPacket(msgs[0], ether))]], ether)
      case EodMsg => (SendAll(qs, EodItem), Err(EndOfData))
      case MsgBB2Sim(_, _, _, _) => (qs, Err(NotImplementedError))
  }

  /** `process_incoming` on a live connection that delivered `received`:
      the new input buffer, the new pipe queues and the outcome. An empty read
      raises `ConnectionResetError` and an undecodable buffer raises
      `NotImplementedError`, both before anything changes; otherwise the
      buffer becomes the undecoded remainder and the frames are routed. */
  function Incoming(buff: seq<byte>, received: seq<byte>, qs: map<int, seq<ChanMsg>>,
                    ether: seq<byte> -> Frame)
    : (r: (seq<byte>, map<int, seq<ChanMsg>>, Result<()>))
  {
    if received == [] then (buff, qs, Err(ConnectionResetError))
    else
      match Decode(Sim2BB, buff + received)
      case Err(e) => (buff, qs, Err(e))
      case Ok((msgs, rem)) =>
        var (qs', res) := Route(msgs, qs, ether);
        (rem, qs', res)
  }

  class BBSocket {
    /** The bound address of the listening socket. */
    const address: Address
    /** Whether the listening socket is still open. */
    var listening: bool
    var conn: Option<TcpConn>
    var connInBuff: seq<byte>
    var pipes: map<int, Channel>
    var terminated: bool

    /** No two node ids share a pipe: each registration creates its own. */
    predicate Valid()
      reads this
    {
      forall a, b :: a in pipes && b in pipes && a != b ==> pipes[a] != pipes[b]
    }

    /** The message queue towards each node. */
    function Queues(): (qs: map<int, seq<ChanMsg>>)
      reads this, pipes.Values
      ensures qs.Keys == pipes.Keys
    {
      map k | k in pipes :: pipes[k].toNode
    }

    /** A new socket serves the one node that registered it, through `pipe`. */
    constructor(address: Address, nodeId: int, pipe: Channel)
      ensures Valid()
      ensures this.address == address && listening
      ensures conn == None && connInBuff == [] && pipes == map[nodeId := pipe] && !terminated
    {
      this.address := address;
      listening := true;
      conn := None;
      connInBuff := [];
      pipes := map[nodeId := pipe];
      terminated := false;
    }

    /** `accept`: a second connection raises `RuntimeError`; otherwise the
        new connection is recorded and `('Connected', address)` is sent on
        the command pipe. */
    method Accept(newConn: TcpConn, cmd: Channel) returns (r: Result<()>)
      modifies this, cmd
      ensures old(conn).Some? ==> r == Err(RuntimeError) && unchanged(this) && unchanged(cmd)
      ensures old(conn).None? ==>
        r == Ok(()) && conn == Some(newConn) &&
        cmd.toSocket == old(cmd.toSocket) + [ConnectedItem(address)] &&
        cmd.toNode == old(cmd.toNode) && cmd.closed == old(cmd.closed)
      ensures connInBuff == old(connInBuff) && pipes == old(pipes) && terminated == old(terminated)
      ensures listening == old(listening)
    {
      if conn.Some? {
        return Err(RuntimeError);
      }
      conn := Some(newConn);
      cmd.toSocket := cmd.toSocket + [ConnectedItem(address)];
      return Ok(());
    }

    function IsTerminated(): (b: bool)
      reads this
      ensures b <==> terminated
    {
      terminated
    }

    /** `for pipe in self.pipes.values(): pipe.send(m)`, optionally closing
        each pipe after the send. */
    method Broadcast(m: ChanMsg, close: bool)
      requires Valid()
      modifies pipes.Values
      ensures Queues() == SendAll(old(Queues()), m)
      ensures forall k :: k in pipes ==> pipes[k].toSocket == old(pipes[k].toSocket)
      ensures forall k :: k in pipes ==> pipes[k].closed == (close || old(pipes[k].closed))
    {
      var ks := pipes.Keys;
      while ks != {}
        invariant ks <= pipes.Keys
        invariant forall k :: k in pipes ==>
          pipes[k].toNode == (if k in ks then old(pipes[k].toNode) else old(pipes[k].toNode) + [m])
        invariant forall k :: k in pipes ==> pipes[k].toSocket == old(pipes[k].toSocket)
        invariant forall k :: k in pipes ==>
          pipes[k].closed == (if k in ks then old(pipes[k].closed) else close || old(pipes[k].closed))
        decreases ks
      {
        var k := PickKey(ks);
        var ch := pipes[k];
        ch.toNode := ch.toNode + [m];
        if close {
          ch.closed := true;
        }
        ks := ks - {k};
      }
      assert forall k :: k in pipes ==> Queues()[k] == SendAll(old(Queues()), m)[k];
    }

    /** `process_incoming` with `received` standing for what one read of up
        to 1000 bytes returned and `ether` for the dissection of a payload.
        Nothing happens once terminated; reading with no connection raises
        `AttributeError`; otherwise the buffer and the pipe queues become
        what `Incoming` says. */
    method ProcessIncoming(received: seq<byte>, ether: seq<byte> -> Frame) returns (r: Result<()>)
      requires Valid() && |received| <= 1000
      modifies this, pipes.Values
      ensures Valid() && pipes == old(pipes) && conn == old(conn)
      ensures terminated == old(terminated) && listening == old(listening)
      ensures forall k :: k in pipes ==> pipes[k].toSocket == old(pipes[k].toSocket)
      ensures forall k :: k in pipes ==> pipes[k].closed == old(pipes[k].closed)
      ensures old(terminated) ==> r == Ok(()) && connInBuff == old(connInBuff) && Queues() == old(Queues())
      ensures !old(terminated) && old(conn).None? ==>
        r == Err(AttributeError) && connInBuff == old(connInBuff) && Queues() == old(Queues())
      ensures !old(terminated) && old(conn).Some? ==>
        (connInBuff, Queues(), r) == Incoming(old(connInBuff), received, old(Queues()), ether)
    {
      if terminated {
        return Ok(());
      }
      if conn.None? {
        return Err(AttributeError);
      }
      if received == [] {
        assert Incoming(connInBuff, received, Queues(), ether) == (connInBuff, Queues(), Err(ConnectionResetError));
        return Err(ConnectionResetError);
      }
      var data := connInBuff + received;
      var decoded := Buff2Msgs(Sim2BB, data);
      if decoded.Err? {
        assert Incoming(connInBuff, received, Queues(), ether) == (connInBuff, Queues(), Err(decoded.error));
        return Err(decoded.error);
      }
      var (msgs, rem) := decoded.value;
      ghost var q0 := Queues();
      assert Incoming(old(connInBuff), received, q0, ether)
          == (rem, Route(msgs, q0, ether).0, Route(msgs, q0, ether).1);
      connInBuff := rem;
      assert Queues() == q0;
      r := RouteFrames(msgs, ether);
    }

    /** The loop of `process_incoming` over the decoded frames. */
    method RouteFrames(msgs: seq<Msg>, ether: seq<byte> -> Frame) returns (r: Result<()>)
      requires Valid()
      modifies pipes.Values
      ensures (Queues(), r) == Route(msgs, old(Queues()), ether)
      ensures forall k :: k in pipes ==> pipes[k].toSocket == old(pipes[k].toSocket)
      ensures forall k :: k in pipes ==> pipes[k].closed == old(pipes[k].closed)
    {
      ghost var q0 := Queues();
      var i := 0;
      while i < |msgs|
        invariant 0 <= i <= |msgs|
        invariant Route(msgs, q0, ether) == Route(msgs[i..], Queues(), ether)
        invariant forall k :: k in pipes ==> pipes[k].toSocket == old(pipes[k].toSocket)
        invariant forall k :: k in pipes ==> pipes[k].closed == old(pipes[k].closed)
        decreases |msgs| - i
      {
        var msg := msgs[i];
        match msg
        case MsgSim2BB(_, nid, _, _) =>
          if nid !in pipes {
            return Err(KeyError);
          }
          ghost var q := Queues();
          var pipe := pipes[nid];
          var item := PacketItem(ToPacket(msg, ether));
          pipe.toNode := pipe.toNode + [item];
          assert Queues() == q[nid := q[nid] + [item]] by {
            forall k | k in pipes
              ensures Queues()[k] == q[nid := q[nid] + [item]][k]
            {
              if k != nid {
                assert pipes[k] != pipes[nid];
              }
            }
          }
          assert msgs[i..][1..] == msgs[i + 1..];
          i := i + 1;
        case EodMsg =>
          Broadcast(EodItem, false);
          return Err(EndOfData);
        case MsgBB2Sim(_, _, _, _) =>
          return Err(NotImplementedError);
      }
      assert msgs[i..] == [];
      r := Ok(());
    }

    /** `process_outgoing` for a pipe that has a message waiting: nothing
        happens once terminated; otherwise the message is taken from the pipe
        and, for a packet, the ns-3-bound frame with delay 10, the packet's
        raw bytes and protocol `ab` is written to the connection. No
        connection raises `AttributeError`, a non-packet message raises
        `AttributeError`, a packet too long for the length field raises
        `OverflowError`. */
    method ProcessOutgoing(pipe: Channel) returns (r: Result<()>)
      requires pipe.toSocket != []
      modifies pipe, if conn.Some? then {conn.value} else {}
      ensures old(terminated) ==> r == Ok(()) && unchanged(pipe) && (conn.Some? ==> unchanged(conn.value))
      ensures !old(terminated) ==>
        pipe.toSocket == old(pipe.toSocket[1..]) && pipe.toNode == old(pipe.toNode) && pipe.closed == old(pipe.closed)
      ensures !old(terminated) ==> r == Outgoing(conn.Some?, old(pipe.toSocket[0]))
      ensures !old(terminated) && conn.Some? ==>
        conn.value.closed == old(conn.value.closed) &&
        conn.value.sent == old(conn.value.sent) + (if r.Ok? then OutgoingFrame(old(pipe.toSocket[0])) else [])
    {
      if terminated {
        return Ok(());
      }
      var item := pipe.toSocket[0];
      pipe.toSocket := pipe.toSocket[1..];
      if conn.None? {
        return Err(AttributeError);
      }
      if !item.PacketItem? {
        return Err(AttributeError);
      }
      var bytes := Serialize(OutgoingMsg(item.packet));
      if bytes.Err? {
        return Err(bytes.error);
      }
      var c := conn.value;
      c.sent := c.sent + bytes.value;
      return Ok(());
    }

    /** `cleanup`: terminated, connection dropped, listening socket closed,
        and every pipe sent an end-of-data marker and closed. */
    method Cleanup()
      requires Valid()
      modifies this, pipes.Values
      ensures Valid() && terminated && conn == None && !listening
      ensures pipes == old(pipes) && connInBuff == old(connInBuff)
      ensures Queues() == SendAll(old(Queues()), EodItem)
      ensures forall k :: k in pipes ==> pipes[k].closed && pipes[k].toSocket == old(pipes[k].toSocket)
    {
      ghost var qs := Queues();
      terminated := true;
      conn := None;
      listening := false;
      assert Queues() == qs;
      Broadcast(EodItem, true);
    }
  }

  /** Engine-bound data frames all addressed to nodes that have a pipe. */
  predicate KnownData(ms: seq<Msg>, keys: set<int>) {
    forall i :: 0 <= i < |ms| ==> ms[i].MsgSim2BB? && ms[i].nodeId in keys
  }

  /** Reference definition: the packets among `ms` addressed to node `k`, in order. */
  function PacketsFor(ms: seq<Msg>, k: int, ether: seq<byte> -> Frame): seq<ChanMsg>
    requires forall i :: 0 <= i < |ms| ==> ms[i].MsgSim2BB?
  {
    if ms == [] then []
    else (if ms[0].nodeId == k then [PacketItem(ToPacket(ms[0], ether))] else [])
         + PacketsFor(ms[1..], k, ether)
  }

  /** The pipe queues after each known node received its packets from `ms`. */
  function AfterDelivery(qs: map<int, seq<ChanMsg>>, ms: seq<Msg>, ether: seq<byte> -> Frame)
    : map<int, seq<ChanMsg>>
    requires forall i :: 0 <= i < |ms| ==> ms[i].MsgSim2BB?
  {
    map k | k in qs :: qs[k] + PacketsFor(ms, k, ether)
  }

  /** Per-pipe order: routing data frames for known nodes appends to each
      pipe exactly the packets addressed to it, in frame order, and ends
      normally. */
  lemma {:induction false} RouteDeliversEach(ms: seq<Msg>, qs: map<int, seq<ChanMsg>>, ether: seq<byte> -> Frame)
    requires KnownData(ms, qs.Keys)
    ensures Route(ms, qs, ether).1 == Ok(())
    ensures forall k :: k in qs ==> Route(ms, qs, ether).0[k] == qs[k] + PacketsFor(ms, k, ether)
  {
    if ms == [] {
      forall k | k in qs
        ensures Route(ms, qs, ether).0[k] == qs[k] + PacketsFor(ms, k, ether)
      {
        assert PacketsFor(ms, k, ether) == [];
      }
    } else {
      var m := ms[0];
      var item := PacketItem(ToPacket(m, ether));
      var qs' := qs[m.nodeId := qs[m.nodeId] + [item]];
      assert KnownData(ms[1..], qs'.Keys);
      RouteDeliversEach(ms[1..], qs', ether);
      assert Route(ms, qs, ether) == Route(ms[1..], qs', ether);
      forall k | k in qs
        ensures Route(ms, qs, ether).0[k] == qs[k] + PacketsFor(ms, k, ether)
      {
        if k == m.nodeId {
          assert qs'[k] + PacketsFor(ms[1..], k, ether) == qs[k] + ([item] + PacketsFor(ms[1..], k, ether));
        } else {
          assert PacketsFor(ms, k, ether) == [] + PacketsFor(ms[1..], k, ether);
        }
      }
    }
  }

  lemma RouteDelivers(ms: seq<Msg>, qs: map<int, seq<ChanMsg>>, ether: seq<byte> -> Frame)
    requires KnownData(ms, qs.Keys)
    ensures Route(ms, qs, ether) == (AfterDelivery(qs, ms, ether), Ok(()))
  {
    RouteDeliversEach(ms, qs, ether);
    assert Route(ms, qs, ether).0 == AfterDelivery(qs, ms, ether);
  }

  /** Routing two batches one after the other is routing them together, as
      long as the first holds only data frames for known nodes. */
  lemma {:induction false} RouteAppend(a: seq<Msg>, b: seq<Msg>, qs: map<int, seq<ChanMsg>>, ether: seq<byte> -> Frame)
    requires KnownData(a, qs.Keys)
    ensures Route(a + b, qs, ether) == Route(b, Route(a, qs, ether).0, ether)
  {
    if a == [] {
      assert a + b == b;
    } else {
      var m := a[0];
      var qs' := qs[m.nodeId := qs[m.nodeId] + [PacketItem(ToPacket(m, ether))]];
      assert KnownData(a[1..], qs'.Keys);
      RouteAppend(a[1..], b, qs', ether);
      assert (a + b)[0] == m && (a + b)[1..] == a[1..] + b;
    }
  }

  /** An end-of-data frame after data frames for known nodes: those frames
      are delivered, every pipe then gets the marker, the loop ends with
      `EndOfDataError`, and nothing after the marker is delivered. */
  lemma RouteStopsAtEod(pre: seq<Msg>, post: seq<Msg>, qs: map<int, seq<ChanMsg>>, ether: seq<byte> -> Frame)
    requires KnownData(pre, qs.Keys)
    ensures Route(pre + [EodMsg] + post, qs, ether)
         == (SendAll(AfterDelivery(qs, pre, ether), EodItem), Err(EndOfData))
  {
    RouteAppend(pre, [EodMsg] + post, qs, ether);
    RouteDelivers(pre, qs, ether);
    assert pre + [EodMsg] + post == pre + ([EodMsg] + post);
  }

  /** A data frame for a node without a pipe raises `KeyError`; the frames
      before it have been delivered and nothing after it is. */
  lemma RouteUnknownNode(pre: seq<Msg>, m: Msg, post: seq<Msg>, qs: map<int, seq<ChanMsg>>,
                         ether: seq<byte> -> Frame)
    requires KnownData(pre, qs.Keys) && m.MsgSim2BB? && m.nodeId !in qs
    ensures Route(pre + [m] + post, qs, ether)
         == (AfterDelivery(qs, pre, ether), Err(KeyError))
  {
    RouteAppend(pre, [m] + post, qs, ether);
    RouteDelivers(pre, qs, ether);
    assert pre + [m] + post == pre + ([m] + post);
  }

  /** Remainder handling across reads: a stream of data frames for known
      nodes arriving in two reads split at any byte leaves every pipe and the
      input buffer exactly as one read of the whole stream would. */
  lemma TwoReadsAsOne(ms: seq<Msg>, k: nat, qs: map<int, seq<ChanMsg>>, ether: seq<byte> -> Frame)
    requires Sim2BBFrames(ms) && KnownData(ms, qs.Keys)
    requires 0 < k < |Encode(ms)|
    ensures var (b1, q1, r1) := Incoming([], Encode(ms)[..k], qs, ether);
      r1 == Ok(()) && Incoming(b1, Encode(ms)[k..], q1, ether) == Incoming([], Encode(ms), qs, ether)
    ensures Incoming([], Encode(ms), qs, ether) == ([], AfterDelivery(qs, ms, ether), Ok(()))
  {
    var e := Encode(ms);
    SplitReadsResume(ms, k);
    var (first, rem) := Decode(Sim2BB, e[..k]).value;
    var j := |first|;
    assert [] + e[..k] == e[..k];
    assert first == ms[..j];
    assert KnownData(ms[..j], qs.Keys);
    RouteDelivers(ms[..j], qs, ether);
    var q1 := Route(ms[..j], qs, ether).0;
    assert KnownData(ms[j..], q1.Keys);
    RouteDelivers(ms[j..], q1, ether);
    assert Incoming([], e[..k], qs, ether) == (rem, q1, Ok(()));
    DecodeComplete(ms);
    assert [] + e == e;
    RouteAppend(ms[..j], ms[j..], qs, ether);
    assert ms[..j] + ms[j..] == ms;
    RouteDelivers(ms, qs, ether);
  }

  /** Cross-language layout agreement: the bytes `process_outgoing` writes for
      a packet are read by the ns-3 side as one whole frame, delayed 10 units,
      whose payload is the packet's raw bytes. */
  lemma OutgoingReadByNs3(p: BBPacket, tail: seq<byte>)
    requires |p.frame.raw| < Pow256(4)
    ensures LApplication.ParseInbound(OutgoingFrame(PacketItem(p)) + tail)
         == Some((LApplication.EthernetDelivery(10, p.frame.raw), LApplication.InboundHeader + |p.frame.raw|))
  {
    assert Fits(OutgoingMsg(p));
    LApplication.ReadsEngineFrame(OutgoingMsg(p), tail);
  }

  /** The frame `process_outgoing` builds for a packet. */
  function OutgoingMsg(p: BBPacket): Msg {
    MsgBB2Sim(10, p.frame.raw, [97, 98], [97, 98])
  }

  /** How `process_outgoing` ends for a message taken from the pipe. */
  function Outgoing(connected: bool, item: ChanMsg): (r: Result<()>)
    ensures r.Ok? <==> connected && item.PacketItem? && |item.packet.frame.raw| < Pow256(4)
  {
    if !connected || !item.PacketItem? then Err(AttributeError)
    else if |item.packet.frame.raw| < Pow256(4) then Ok(())
    else Err(OverflowError)
  }

  /** The bytes written for a packet. */
  function OutgoingFrame(item: ChanMsg): seq<byte> {
    if item.PacketItem? && Serialize(OutgoingMsg(item.packet)).Ok? then
      Serialize(OutgoingMsg(item.packet)).value
    else []
  }
}

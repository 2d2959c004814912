/** The bridge node through which packets coming back from ns-3 enter the
    dataflow graph. It reads the node end of the pipe that the engine's socket
    writes decoded packets into. */
module NS3Src {
  import opened Wrappers
  import opened BBPackets
  import opened Channels
  import opened RNodes

  /** The source's state: its ready flag and, once set up, the messages
      waiting on its pipe (`None` before `setup`). */
  datatype NS3SrcVal = NS3SrcVal(ready: bool, pending: Option<seq<ChanMsg>>)

  /** One `NS3SrcN.process` call. Before `setup` the channel is `None` and
      `poll` raises `AttributeError`. */
  function NS3SrcStep(v: NS3SrcVal, ins: Inputs, outs: Outputs): Result<(NS3SrcVal, Inputs, Outputs)> {
    match v.pending
    case None => Err(AttributeError)
    case Some(q) =>
      if q == [] then Ok((v, ins, outs))
      else
        var v1 := v.(pending := Some(q[1..]));
        match q[0]
        case EodItem => Ok((v1.(ready := false), ins, outs))
        case PacketItem(p) =>
          var outs1 :- Push(outs, 0, p);
          Ok((v1, ins, outs1))
        case _ => Err(NotImplementedError)
  }

  /** `NS3SrcN.is_ready`: the flag, whatever the inputs hold. */
  function NS3SrcReady(v: NS3SrcVal, ins: Inputs): Result<bool> {
    Ok(v.ready)
  }

  /** The four cases of `process`: nothing pending changes nothing; an
      end-of-data marker is consumed and clears the flag; a packet is
      consumed and appended to output 0; anything else raises. */
  lemma NS3SrcCases(v: NS3SrcVal, q: seq<ChanMsg>, ins: Inputs, outs: Outputs)
    requires v.pending == Some(q) && |outs| == 1
    ensures q == [] ==> NS3SrcStep(v, ins, outs) == Ok((v, ins, outs))
    ensures q != [] && q[0] == EodItem ==>
      NS3SrcStep(v, ins, outs) == Ok((NS3SrcVal(false, Some(q[1..])), ins, outs))
    ensures q != [] && q[0].PacketItem? ==>
      NS3SrcStep(v, ins, outs) == Ok((NS3SrcVal(v.ready, Some(q[1..])), ins, [outs[0] + [q[0].packet]]))
    ensures q != [] && (q[0].ConnectedItem? || q[0].OtherItem?) ==>
      NS3SrcStep(v, ins, outs) == Err(NotImplementedError)
  {
    if q != [] && q[0].PacketItem? {
      assert outs[0 := outs[0] + [q[0].packet]] == [outs[0] + [q[0].packet]];
    }
  }

  /** Messages made of packets only. */
  predicate AllPackets(q: seq<ChanMsg>) {
    forall i :: 0 <= i < |q| ==> q[i].PacketItem?
  }

  /** The packets a run of packet messages carries, in order. */
  function Payloads(q: seq<ChanMsg>): (r: seq<BBPacket>)
    requires AllPackets(q)
    ensures |r| == |q| && forall i :: 0 <= i < |q| ==> r[i] == q[i].packet
  {
    if q == [] then [] else [q[0].packet] + Payloads(q[1..])
  }

  /** `m` consecutive `process` calls. */
  function NS3SrcRun(v: NS3SrcVal, outs: Outputs, m: nat): Result<(NS3SrcVal, Outputs)>
    decreases m
  {
    if m == 0 then Ok((v, outs))
    else
      var (v1, _, outs1) :- NS3SrcStep(v, [], outs);
      NS3SrcRun(v1, outs1, m - 1)
  }

  /** Draining a pipe that holds the packets `q` followed by the end-of-data
      marker takes `|q| + 1` calls: every packet reaches output 0 once and in
      arrival order, and the source then answers not ready. */
  lemma {:induction false} NS3SrcDrains(ready: bool, q: seq<ChanMsg>, rest: seq<ChanMsg>, out0: seq<BBPacket>)
    requires AllPackets(q)
    ensures NS3SrcRun(NS3SrcVal(ready, Some(q + [EodItem] + rest)), [out0], |q| + 1)
      == Ok((NS3SrcVal(false, Some(rest)), [out0 + Payloads(q)]))
    decreases |q|
  {
    var v := NS3SrcVal(ready, Some(q + [EodItem] + rest));
    if q == [] {
      assert q + [EodItem] + rest == [EodItem] + rest;
      assert ([EodItem] + rest)[1..] == rest;
      assert NS3SrcStep(v, [], [out0]) == Ok((NS3SrcVal(false, Some(rest)), [], [out0]));
      assert out0 + Payloads(q) == out0;
    } else {
      var p := q[0].packet;
      assert (q + [EodItem] + rest)[0] == q[0];
      assert (q + [EodItem] + rest)[1..] == q[1..] + [EodItem] + rest;
      assert [out0][0 := out0 + [p]] == [out0 + [p]];
      assert NS3SrcStep(v, [], [out0]) == Ok((NS3SrcVal(ready, Some(q[1..] + [EodItem] + rest)), [], [out0 + [p]]));
      NS3SrcDrains(ready, q[1..], rest, out0 + [p]);
      assert out0 + [p] + Payloads(q[1..]) == out0 + Payloads(q);
    }
  }

  /** `NS3SrcN`: no inputs, one output, the address of the socket it is
      served by, and the node end of its pipe. */
  class NS3SrcN {
    const id: int
    const host: string
    const port: int
    /** The pipe `setup` obtains from `reg_socks`. It is allocated with the
        node so that the node's footprint never changes; `connected` says
        whether `setup` has handed it over (`self.conn is not None`). */
    const pipe: Channel
    var connected: bool
    var ready: bool

    /** The objects `process` may change: the node and its pipe. */
    function Repr(): set<object> {
      {this, pipe}
    }

    function Val(): NS3SrcVal
      reads Repr()
    {
      NS3SrcVal(ready, if connected then Some(pipe.toNode) else None)
    }

    constructor(id: int, host: string, port: int)
      ensures this.id == id && this.host == host && this.port == port
      ensures fresh(pipe) && pipe.toNode == [] && pipe.toSocket == [] && !pipe.closed
      ensures !connected && !ready
    {
      this.id := id;
      this.host := host;
      this.port := port;
      pipe := new Channel();
      connected := false;
      ready := false;
    }

    /** `setup`: `reg_socks(address, port, id)` registers a new, empty pipe
        with the engine's socket and hands the node its end; `pipe` stands
        for that new pipe from now on. The node becomes ready. */
    method Setup()
      modifies this, pipe
      ensures connected && ready
      ensures pipe.toNode == [] && pipe.toSocket == [] && !pipe.closed
      ensures Val() == NS3SrcVal(true, Some([]))
    {
      connected := true;
      ready := true;
      pipe.toNode := [];
      pipe.toSocket := [];
      pipe.closed := false;
    }

    method Process(ins: Inputs, outs: Outputs) returns (r: Result<(Inputs, Outputs)>)
      modifies Repr()
      ensures connected == old(connected)
      ensures pipe.toSocket == old(pipe.toSocket) && pipe.closed == old(pipe.closed)
      ensures r.Ok? ==> NS3SrcStep(old(Val()), ins, outs) == Ok((Val(), r.value.0, r.value.1))
      ensures r.Err? ==> NS3SrcStep(old(Val()), ins, outs) == Err(r.error)
    {
      if !connected {
        return Err(AttributeError);
      }
      if pipe.toNode == [] {
        return Ok((ins, outs));
      }
      var m := pipe.toNode[0];
      pipe.toNode := pipe.toNode[1..];
      match m
      case EodItem =>
        ready := false;
        r := Ok((ins, outs));
      case PacketItem(p) =>
        if |outs| == 0 {
          return Err(IndexError);
        }
        r := Ok((ins, outs[0 := outs[0] + [p]]));
      case _ =>
        r := Err(NotImplementedError);
    }

    method IsReady(ins: Inputs) returns (r: Result<bool>)
      ensures r == NS3SrcReady(Val(), ins)
    {
      r := Ok(ready);
    }
  }
}

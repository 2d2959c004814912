/** The bridge node through which packets leave the dataflow graph towards
    ns-3. It writes each packet onto the node end of the pipe that the
    engine's socket reads and forwards. */
module NS3Snk {
  import opened Wrappers
  import opened BBPackets
  import opened Channels
  import opened RNodes

  /** One `NS3SnkN.process` call on the messages already sent (`None` before
      `setup`). The packet is popped before the channel is touched, so
      before `setup` a packet is lost and `AttributeError` raised. */
  function NS3SnkStep(sent: Option<seq<ChanMsg>>, ins: Inputs, outs: Outputs): Result<(Option<seq<ChanMsg>>, Inputs, Outputs)> {
    var (p, ins1) :- PopLeft(ins, 0);
    match sent
    case None => Err(AttributeError)
    case Some(q) => Ok((Some(q + [PacketItem(p)]), ins1, outs))
  }

  /** `NS3SnkN.is_ready`. */
  function NS3SnkReady(ins: Inputs): Result<bool> {
    HasItems(ins, 0)
  }

  /** `m` consecutive `process` calls. */
  function NS3SnkRun(sent: Option<seq<ChanMsg>>, ins: Inputs, m: nat): Result<(Option<seq<ChanMsg>>, Inputs)>
    decreases m
  {
    if m == 0 then Ok((sent, ins))
    else
      var (s1, ins1, _) :- NS3SnkStep(sent, ins, []);
      NS3SnkRun(s1, ins1, m - 1)
  }

  /** The packets `ps`, each wrapped as a pipe message. */
  function Wrap(ps: seq<BBPacket>): (r: seq<ChanMsg>)
    ensures |r| == |ps| && forall i :: 0 <= i < |ps| ==> r[i] == PacketItem(ps[i])
  {
    if ps == [] then [] else [PacketItem(ps[0])] + Wrap(ps[1..])
  }

  /** After setup, `m` calls send the first `m` queued packets onto the
      pipe, each once and in queue order, and remove exactly them. */
  lemma {:induction false} NS3SnkForwards(q: seq<ChanMsg>, ins: Inputs, m: nat)
    requires |ins| >= 1 && m <= |ins[0]|
    ensures NS3SnkRun(Some(q), ins, m) == Ok((Some(q + Wrap(ins[0][..m])), ins[0 := ins[0][m..]]))
    decreases m
  {
    if m == 0 {
      assert ins[0][..0] == [];
      assert q + [] == q;
      assert ins[0 := ins[0][0..]] == ins;
    } else {
      var p := ins[0][0];
      var ins1 := ins[0 := ins[0][1..]];
      assert ins[0][..m][1..] == ins1[0][..m - 1] && ins[0][..m][0] == p;
      NS3SnkRunUnfold(q, ins, m);
      NS3SnkForwards(q + [PacketItem(p)], ins1, m - 1);
      assert ins1[0][m - 1..] == ins[0][m..];
      assert ins1[0 := ins1[0][m - 1..]] == ins[0 := ins[0][m..]];
      WrapFront(ins[0][..m], ins1[0][..m - 1]);
      assert q + [PacketItem(p)] + Wrap(ins1[0][..m - 1]) == q + Wrap(ins[0][..m]);
    }
  }

  /** One call of a run, taken off the front. */
  lemma NS3SnkRunUnfold(q: seq<ChanMsg>, ins: Inputs, m: nat)
    requires |ins| >= 1 && 0 < m <= |ins[0]|
    ensures NS3SnkRun(Some(q), ins, m) == NS3SnkRun(Some(q + [PacketItem(ins[0][0])]), ins[0 := ins[0][1..]], m - 1)
  {
    assert NS3SnkStep(Some(q), ins, []) == Ok((Some(q + [PacketItem(ins[0][0])]), ins[0 := ins[0][1..]], []));
  }

  lemma WrapFront(ps: seq<BBPacket>, tail: seq<BBPacket>)
    requires ps != [] && ps[1..] == tail
    ensures Wrap(ps) == [PacketItem(ps[0])] + Wrap(tail)
  {
  }

  /** Before setup, `process` still consumes the packet but then raises. */
  lemma NS3SnkUnset(ins: Inputs, outs: Outputs)
    requires |ins| >= 1 && ins[0] != []
    ensures NS3SnkStep(None, ins, outs) == Err(AttributeError)
    ensures NS3SnkStep(Some([]), ins, outs).Ok?
  {
  }

  /** `NS3SnkN`: one input, no outputs, the address of the socket that
      serves it, and the pipe `setup` obtains for it. */
  class NS3SnkN {
    const id: int
    const host: string
    const port: int
    /** The pipe `setup` obtains from `reg_socks`, allocated with the node;
        `connected` says whether `setup` has handed it over. */
    const pipe: Channel
    var connected: bool
    var ready: bool

    /** The objects `process` may change: the node and its pipe. */
    function Repr(): set<object> {
      {this, pipe}
    }

    /** What has been sent on the pipe, once the node holds it. */
    function Sent(): Option<seq<ChanMsg>>
      reads this, pipe
    {
      if connected then Some(pipe.toSocket) else None
    }

    constructor(id: int, host: string, port: int)
      ensures this.id == id && this.host == host && this.port == port
      ensures fresh(pipe) && pipe.toNode == [] && pipe.toSocket == [] && !pipe.closed
      ensures !connected && !ready
    {
      this.id := id;
      this.host := host;
      this.port := port;
      pipe := new Channel();
      connected := false;
      ready := false;
    }

    /** `setup`: `reg_socks(address, port, id)` registers a new, empty pipe
        with the engine's socket and hands the node its end; `pipe` stands
        for that new pipe from now on. The node becomes ready. */
    method Setup()
      modifies this, pipe
      ensures connected && ready
      ensures pipe.toNode == [] && pipe.toSocket == [] && !pipe.closed
      ensures Sent() == Some([])
    {
      connected := true;
      ready := true;
      pipe.toNode := [];
      pipe.toSocket := [];
      pipe.closed := false;
    }

    method Process(ins: Inputs, outs: Outputs) returns (r: Result<(Inputs, Outputs)>)
      modifies pipe
      ensures pipe.toNode == old(pipe.toNode) && pipe.closed == old(pipe.closed)
      ensures r.Ok? ==> NS3SnkStep(old(Sent()), ins, outs) == Ok((Sent(), r.value.0, r.value.1))
      ensures r.Err? ==> NS3SnkStep(old(Sent()), ins, outs) == Err(r.error)
    {
      if |ins| == 0 || ins[0] == [] {
        return Err(IndexError);
      }
      var p := ins[0][0];
      var ins1 := ins[0 := ins[0][1..]];
      if !connected {
        return Err(AttributeError);
      }
      pipe.toSocket := pipe.toSocket + [PacketItem(p)];
      r := Ok((ins1, outs));
    }

    method IsReady(ins: Inputs) returns (r: Result<bool>)
      ensures r == NS3SnkReady(ins)
    {
      if |ins| == 0 {
        return Err(IndexError);
      }
      r := Ok(|ins[0]| >= 1);
    }
  }
}

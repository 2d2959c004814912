/** Test nodes: a source that emits a fixed number of identical packets, a
    sink that discards what it receives, and a pass-through counter. */
module Dummy {
  import opened Wrappers
  import opened Bytes
  import opened BBPackets
  import opened RNodes

  /** The frame the source emits: an Ethernet frame built from the eight
      bytes "abcdefgh". Its capture time is taken as 0. */
  const DummyFrame: Frame := Frame([97, 98, 99, 100, 101, 102, 103, 104], 0, map[])

  /** `BBPacket(Ether(b'abcdefgh'), 0)`. */
  function DummyPacket(): (p: BBPacket)
    ensures p.frame == DummyFrame && p.timestamp == 0 && !p.dropped && p.metadata == map[]
  {
    NewBBPacket(DummyFrame, 0)
  }

  /** The source's state: how many packets a round emits, and how many are
      left in this round. */
  datatype DummySrcVal = DummySrcVal(nrPackets: int, ctr: int)

  /** One `DummySrcN.process` call. */
  function DummySrcStep(v: DummySrcVal, ins: Inputs, outs: Outputs): Result<(DummySrcVal, Inputs, Outputs)> {
    var outs1 :- Push(outs, 0, DummyPacket());
    Ok((v.(ctr := v.ctr - 1), ins, outs1))
  }

  /** `DummySrcN.is_ready`, which refills the counter when it answers no. */
  function DummySrcReady(v: DummySrcVal): (bool, DummySrcVal) {
    if v.ctr > 0 then (true, v) else (false, v.(ctr := v.nrPackets))
  }

  /** The source is ready iff packets are left, and answering no starts a new
      round. */
  lemma DummySrcReadyResets(v: DummySrcVal)
    ensures DummySrcReady(v).0 <==> v.ctr > 0
    ensures DummySrcReady(v).0 ==> DummySrcReady(v).1 == v
    ensures !DummySrcReady(v).0 ==> DummySrcReady(v).1 == DummySrcVal(v.nrPackets, v.nrPackets)
  {
  }

  /** Each `process` appends exactly one packet to output 0 and uses up one
      packet of the round. */
  lemma DummySrcEmitsOne(v: DummySrcVal, ins: Inputs, outs: Outputs)
    requires |outs| >= 1
    ensures DummySrcStep(v, ins, outs) == Ok((DummySrcVal(v.nrPackets, v.ctr - 1), ins, outs[0 := outs[0] + [DummyPacket()]]))
  {
  }

  /** `n` copies of `p`. */
  function Repeat(p: BBPacket, n: nat): (r: seq<BBPacket>)
    ensures |r| == n && forall i :: 0 <= i < n ==> r[i] == p
  {
    seq(n, _ => p)
  }

  /** The source polled and run until it answers no, as the engine does when
      nothing else is queued: the packets it emits, and its final state. */
  function SrcRound(v: DummySrcVal, fuel: nat): (seq<BBPacket>, DummySrcVal)
    decreases fuel
  {
    var (ready, v1) := DummySrcReady(v);
    if !ready || fuel == 0 then ([], v1)
    else
      var (rest, v2) := SrcRound(v1.(ctr := v1.ctr - 1), fuel - 1);
      ([DummyPacket()] + rest, v2)
  }

  /** A round starting with `c` packets left emits exactly `c` packets and
      leaves the counter refilled to `nrPackets`. */
  lemma {:induction false} SrcRoundEmits(n: int, c: nat)
    ensures SrcRound(DummySrcVal(n, c), c) == (Repeat(DummyPacket(), c), DummySrcVal(n, n))
    decreases c
  {
    if c > 0 {
      SrcRoundEmits(n, c - 1);
      assert [DummyPacket()] + Repeat(DummyPacket(), c - 1) == Repeat(DummyPacket(), c);
    }
  }

  /** One `NullSnkN.process` call. */
  function NullSnkStep(ins: Inputs, outs: Outputs): Result<(Inputs, Outputs)> {
    var (_, ins1) :- PopLeft(ins, 0);
    Ok((ins1, outs))
  }

  /** `NullSnkN.is_ready` and `CounterN.is_ready`: `len(inputs[0]) >= 1`. */
  function InputReady(ins: Inputs): Result<bool> {
    HasItems(ins, 0)
  }

  /** The sink removes exactly the front packet and emits nothing. */
  lemma NullSnkDiscards(ins: Inputs, outs: Outputs)
    requires |ins| >= 1
    ensures ins[0] != [] ==> NullSnkStep(ins, outs) == Ok((ins[0 := ins[0][1..]], outs))
    ensures ins[0] == [] ==> NullSnkStep(ins, outs) == Err(IndexError)
    ensures InputReady(ins) == Ok(ins[0] != [])
  {
  }

  /** One `CounterN.process` call. */
  function CounterStep(ctr: int, ins: Inputs, outs: Outputs): Result<(int, Inputs, Outputs)> {
    var (p, ins1) :- PopLeft(ins, 0);
    var outs1 :- Push(outs, 0, p);
    Ok((ctr + 1, ins1, outs1))
  }

  /** `m` consecutive `CounterN.process` calls. */
  function CounterRun(ctr: int, ins: Inputs, outs: Outputs, m: nat): Result<(int, Inputs, Outputs)>
    decreases m
  {
    if m == 0 then Ok((ctr, ins, outs))
    else
      var (c1, ins1, outs1) :- CounterStep(ctr, ins, outs);
      CounterRun(c1, ins1, outs1, m - 1)
  }

  /** The counter forwards the first `m` packets unchanged and in order, and
      counts each of them once. */
  lemma {:induction false} CounterForwards(ctr: int, ins: Inputs, outs: Outputs, m: nat)
    requires |ins| >= 1 && |outs| >= 1 && m <= |ins[0]|
    ensures CounterRun(ctr, ins, outs, m) == Ok((ctr + m, ins[0 := ins[0][m..]], outs[0 := outs[0] + ins[0][..m]]))
    decreases m
  {
    if m == 0 {
      assert ins[0 := ins[0][0..]] == ins;
      assert outs[0] + ins[0][..0] == outs[0];
      assert outs[0 := outs[0] + ins[0][..0]] == outs;
    } else {
      var ins1 := ins[0 := ins[0][1..]];
      var outs1 := outs[0 := outs[0] + [ins[0][0]]];
      assert CounterStep(ctr, ins, outs) == Ok((ctr + 1, ins1, outs1));
      CounterForwards(ctr + 1, ins1, outs1, m - 1);
      assert ins1[0][m - 1..] == ins[0][m..];
      assert ins1[0 := ins1[0][m - 1..]] == ins[0 := ins[0][m..]];
      assert ins[0][..m] == [ins[0][0]] + ins1[0][..m - 1];
      assert outs1[0] + ins1[0][..m - 1] == outs[0] + ins[0][..m];
      assert outs1[0 := outs1[0] + ins1[0][..m - 1]] == outs[0 := outs[0] + ins[0][..m]];
      assert CounterRun(ctr, ins, outs, m) == CounterRun(ctr + 1, ins1, outs1, m - 1);
    }
  }

  /** `DummySrcN`: no inputs, one output. */
  class DummySrcN {
    const id: int
    const nrPackets: int
    var ctr: int

    function Val(): DummySrcVal
      reads this
    {
      DummySrcVal(nrPackets, ctr)
    }

    constructor(id: int, nrPackets: int)
      ensures this.id == id && this.nrPackets == nrPackets && ctr == nrPackets
    {
      this.id := id;
      this.nrPackets := nrPackets;
      ctr := nrPackets;
    }

    method Process(ins: Inputs, outs: Outputs) returns (r: Result<(Inputs, Outputs)>)
      modifies this
      ensures r.Ok? ==> DummySrcStep(old(Val()), ins, outs) == Ok((Val(), r.value.0, r.value.1))
      ensures r.Err? ==> DummySrcStep(old(Val()), ins, outs) == Err(r.error)
    {
      var p := NewBBPacket(DummyFrame, 0);
      ctr := ctr - 1;
      if |outs| == 0 {
        return Err(IndexError);
      }
      r := Ok((ins, outs[0 := outs[0] + [p]]));
    }

    method IsReady(ins: Inputs) returns (r: Result<bool>)
      modifies this
      ensures r.Ok? && (r.value, Val()) == DummySrcReady(old(Val()))
    {
      if ctr > 0 {
        r := Ok(true);
      } else {
        ctr := nrPackets;
        r := Ok(false);
      }
    }
  }

  /** `NullSnkN`: one input, no outputs. */
  class NullSnkN {
    const id: int

    constructor(id: int)
      ensures this.id == id
    {
      this.id := id;
    }

    method Process(ins: Inputs, outs: Outputs) returns (r: Result<(Inputs, Outputs)>)
      ensures r == NullSnkStep(ins, outs)
    {
      if |ins| == 0 || ins[0] == [] {
        return Err(IndexError);
      }
      r := Ok((ins[0 := ins[0][1..]], outs));
    }

    method IsReady(ins: Inputs) returns (r: Result<bool>)
      ensures r == InputReady(ins)
    {
      if |ins| == 0 {
        return Err(IndexError);
      }
      r := Ok(|ins[0]| >= 1);
    }
  }

  /** `CounterN`: one input, one output, a count of forwarded packets. */
  class CounterN {
    const id: int
    var ctr: int

    constructor(id: int)
      ensures this.id == id && ctr == 0
    {
      this.id := id;
      ctr := 0;
    }

    method Process(ins: Inputs, outs: Outputs) returns (r: Result<(Inputs, Outputs)>)
      modifies this
      ensures r.Ok? ==> CounterStep(old(ctr), ins, outs) == Ok((ctr, r.value.0, r.value.1))
      ensures r.Err? ==> CounterStep(old(ctr), ins, outs) == Err(r.error)
    {
      if |ins| == 0 || ins[0] == [] {
        return Err(IndexError);
      }
      var p := ins[0][0];
      ctr := ctr + 1;
      if |outs| == 0 {
        return Err(IndexError);
      }
      r := Ok((ins[0 := ins[0][1..]], outs[0 := outs[0] + [p]]));
    }

    method IsReady(ins: Inputs) returns (r: Result<bool>)
      ensures r == InputReady(ins)
    {
      if |ins| == 0 {
        return Err(IndexError);
      }
      r := Ok(|ins[0]| >= 1);
    }

    method Setup()
      modifies this
      ensures ctr == 0
    {
      ctr := 0;
    }
  }
}

/** Round-robin demultiplexing and multiplexing: the demultiplexer hands its
    k-th packet to output k mod n (or a copy to every output), and the
    multiplexer takes its k-th packet from input k mod n. */
module Mux {
  import opened Wrappers
  import opened BBPackets
  import opened RNodes

  const Alternate: string := "Alternate"
  const Duplicate: string := "Duplicate"

  /** The demultiplexer's state: its output count, the output the next packet
      goes to, and its mode. */
  datatype DeMuxVal = DeMuxVal(nrOutputs: int, activeOutput: int, mode: string)

  /** Every output list with one more copy of `p` at its end. */
  function PushAll(outs: Outputs, p: BBPacket): (r: Outputs)
    ensures |r| == |outs|
    ensures forall j :: 0 <= j < |outs| ==> r[j] == outs[j] + [p]
  {
    seq(|outs|, j requires 0 <= j < |outs| => outs[j] + [p])
  }

  /** One `DeMuxN.process` call. */
  function DeMuxStep(v: DeMuxVal, ins: Inputs, outs: Outputs): Result<(DeMuxVal, Inputs, Outputs)> {
    var (p, ins1) :- PopLeft(ins, 0);
    if v.mode == Alternate then
      var outs1 :- Push(outs, v.activeOutput, p);
      if v.nrOutputs == 0 then Err(ZeroDivisionError)
      else Ok((v.(activeOutput := PyMod(v.activeOutput + 1, v.nrOutputs)), ins1, outs1))
    else if v.mode == Duplicate then
      Ok((v, ins1, PushAll(outs, p)))
    else
      Err(ValueError)
  }

  /** `DeMuxN.is_ready`. */
  function DeMuxReady(ins: Inputs): Result<bool> {
    HasItems(ins, 0)
  }

  /** The demultiplexer takes exactly the front packet of input 0; in
      Alternate mode that packet is appended to the active output alone and
      the active output advances by one, wrapping after the last. */
  lemma DeMuxAlternateRoutes(v: DeMuxVal, ins: Inputs, outs: Outputs)
    requires v.mode == Alternate && |outs| == v.nrOutputs && 0 <= v.activeOutput < v.nrOutputs
    requires |ins| >= 1 && ins[0] != []
    ensures DeMuxStep(v, ins, outs) == Ok((
      v.(activeOutput := if v.activeOutput + 1 == v.nrOutputs then 0 else v.activeOutput + 1),
      ins[0 := ins[0][1..]],
      outs[v.activeOutput := outs[v.activeOutput] + [ins[0][0]]]))
  {
  }

  /** In Duplicate mode every output receives the packet, and the rotation
      does not move. */
  lemma DeMuxDuplicateCopies(v: DeMuxVal, ins: Inputs, outs: Outputs)
    requires v.mode == Duplicate && |ins| >= 1 && ins[0] != []
    ensures DeMuxStep(v, ins, outs).Ok?
    ensures var (v', ins', outs') := DeMuxStep(v, ins, outs).value;
      v' == v && ins' == ins[0 := ins[0][1..]] &&
      |outs'| == |outs| && forall j :: 0 <= j < |outs| ==> outs'[j] == outs[j] + [ins[0][0]]
  {
  }

  /** A mode other than the two known ones raises `ValueError`, once a packet
      was there to take. */
  lemma DeMuxBadMode(v: DeMuxVal, ins: Inputs, outs: Outputs)
    requires v.mode != Alternate && v.mode != Duplicate
    requires |ins| >= 1 && ins[0] != []
    ensures DeMuxStep(v, ins, outs) == Err(ValueError)
  {
  }

  /** The output after `a` in the rotation over `n` outputs. */
  function Next(a: nat, n: nat): nat {
    if a + 1 >= n then 0 else a + 1
  }

  /** The packets of `ps` that output `j` collects when the rotation over `n`
      outputs starts at `a`: those whose position, counted from `a`, is `j`
      modulo `n`. */
  function Lane(ps: seq<BBPacket>, a: nat, n: nat, j: nat): seq<BBPacket>
  {
    if ps == [] then []
    else (if a == j then [ps[0]] else []) + Lane(ps[1..], Next(a, n), n, j)
  }

  /** Where the rotation stands after `m` packets. */
  function Advance(a: nat, n: nat, m: nat): nat
    decreases m
  {
    if m == 0 then a else Advance(Next(a, n), n, m - 1)
  }

  /** `m` consecutive `DeMuxN.process` calls. */
  function DeMuxRun(v: DeMuxVal, ins: Inputs, outs: Outputs, m: nat): Result<(DeMuxVal, Inputs, Outputs)>
    decreases m
  {
    if m == 0 then Ok((v, ins, outs))
    else
      var (v1, ins1, outs1) :- DeMuxStep(v, ins, outs);
      DeMuxRun(v1, ins1, outs1, m - 1)
  }

  /** The outputs after the packets `ps` are handed out in rotation from
      output `a`. */
  function Lanes(outs: Outputs, ps: seq<BBPacket>, a: nat): Outputs
    requires a < |outs|
    decreases |ps|
  {
    if ps == [] then outs
    else Lanes(outs[a := outs[a] + [ps[0]]], ps[1..], Next(a, |outs|))
  }

  lemma {:induction false} LanesAt(outs: Outputs, ps: seq<BBPacket>, a: nat)
    requires a < |outs|
    ensures |Lanes(outs, ps, a)| == |outs|
    ensures forall j :: 0 <= j < |outs| ==> Lanes(outs, ps, a)[j] == outs[j] + Lane(ps, a, |outs|, j)
    decreases |ps|
  {
    var n := |outs|;
    if ps == [] {
      assert forall j :: 0 <= j < n ==> outs[j] + Lane(ps, a, n, j) == outs[j];
    } else {
      var outs1 := outs[a := outs[a] + [ps[0]]];
      LanesAt(outs1, ps[1..], Next(a, n));
      forall j | 0 <= j < n
        ensures outs1[j] + Lane(ps[1..], Next(a, n), n, j) == outs[j] + Lane(ps, a, n, j)
      {
        assert Lane(ps, a, n, j) == (if a == j then [ps[0]] else []) + Lane(ps[1..], Next(a, n), n, j);
      }
    }
  }

  /** The round-robin promise: in Alternate mode, from active output `a`, the
      first `m` packets of input 0 are spread so that output `j` receives, in
      order, exactly the packets of its lane, and the rotation has moved on by
      `m` places. */
  lemma DeMuxRoundRobin(v: DeMuxVal, ins: Inputs, outs: Outputs, m: nat)
    requires v.mode == Alternate && |outs| == v.nrOutputs && 0 <= v.activeOutput < v.nrOutputs
    requires |ins| >= 1 && m <= |ins[0]|
    ensures DeMuxRun(v, ins, outs, m).Ok?
    ensures var (v', ins', outs') := DeMuxRun(v, ins, outs, m).value;
      v' == v.(activeOutput := Advance(v.activeOutput, v.nrOutputs, m)) &&
      ins' == ins[0 := ins[0][m..]] &&
      |outs'| == |outs| &&
      forall j :: 0 <= j < |outs| ==> outs'[j] == outs[j] + Lane(ins[0][..m], v.activeOutput, v.nrOutputs, j)
  {
    DeMuxRound(v, ins, outs, m);
    LanesAt(outs, ins[0][..m], v.activeOutput);
  }

  lemma {:induction false} DeMuxRound(v: DeMuxVal, ins: Inputs, outs: Outputs, m: nat)
    requires v.mode == Alternate && |outs| == v.nrOutputs && 0 <= v.activeOutput < v.nrOutputs
    requires |ins| >= 1 && m <= |ins[0]|
    ensures DeMuxRun(v, ins, outs, m) == Ok((v.(activeOutput := Advance(v.activeOutput, v.nrOutputs, m)),
      ins[0 := ins[0][m..]], Lanes(outs, ins[0][..m], v.activeOutput)))
    decreases m
  {
    var n := v.nrOutputs;
    var a := v.activeOutput;
    var ps := ins[0][..m];
    if m == 0 {
      assert ins[0 := ins[0][0..]] == ins;
      assert ps == [];
    } else {
      DeMuxAlternateRoutes(v, ins, outs);
      var a1 := Next(a, n);
      var v1 := v.(activeOutput := a1);
      var ins1 := ins[0 := ins[0][1..]];
      var outs1 := outs[a := outs[a] + [ins[0][0]]];
      DeMuxRound(v1, ins1, outs1, m - 1);
      assert ins1[0 := ins1[0][m - 1..]] == ins[0 := ins[0][m..]];
      assert ins1[0][..m - 1] == ps[1..];
      assert Lanes(outs, ps, a) == Lanes(outs1, ps[1..], a1);
      assert v1.(activeOutput := Advance(a1, n, m - 1)) == v.(activeOutput := Advance(a, n, m));
      assert DeMuxRun(v, ins, outs, m) == DeMuxRun(v1, ins1, outs1, m - 1);
    }
  }

  /** The multiplexer's state: its input count and the input it takes the
      next packet from. */
  datatype MuxVal = MuxVal(nrInputs: int, activeInput: int)

  /** One `MuxN.process` call. */
  function MuxStep(v: MuxVal, ins: Inputs, outs: Outputs): Result<(MuxVal, Inputs, Outputs)> {
    var (p, ins1) :- PopLeft(ins, v.activeInput);
    if v.nrInputs == 0 then Err(ZeroDivisionError)
    else
      var v1 := v.(activeInput := PyMod(v.activeInput + 1, v.nrInputs));
      var outs1 :- Push(outs, 0, p);
      Ok((v1, ins1, outs1))
  }

  /** `MuxN.is_ready`. */
  function MuxReady(v: MuxVal, ins: Inputs): Result<bool> {
    HasItems(ins, v.activeInput)
  }

  /** The multiplexer is ready exactly when its active input holds a packet,
      whatever its other inputs hold. */
  lemma MuxReadyActiveOnly(v: MuxVal, ins: Inputs, ins': Inputs)
    requires 0 <= v.activeInput < |ins| == |ins'|
    requires ins[v.activeInput] == ins'[v.activeInput]
    ensures MuxReady(v, ins) == MuxReady(v, ins') == Ok(ins[v.activeInput] != [])
  {
  }

  /** The multiplexer forwards the front packet of its active input to
      output 0 and moves on to the next input, wrapping after the last. */
  lemma MuxTakesActive(v: MuxVal, ins: Inputs, outs: Outputs)
    requires |ins| == v.nrInputs && 0 <= v.activeInput < v.nrInputs
    requires ins[v.activeInput] != [] && |outs| >= 1
    ensures MuxStep(v, ins, outs) == Ok((
      v.(activeInput := if v.activeInput + 1 == v.nrInputs then 0 else v.activeInput + 1),
      ins[v.activeInput := ins[v.activeInput][1..]],
      outs[0 := outs[0] + [ins[v.activeInput][0]]]))
  {
  }

  /** `m` consecutive `MuxN.process` calls. */
  function MuxRun(v: MuxVal, ins: Inputs, outs: Outputs, m: nat): Result<(MuxVal, Inputs, Outputs)>
    decreases m
  {
    if m == 0 then Ok((v, ins, outs))
    else
      var (v1, ins1, outs1) :- MuxStep(v, ins, outs);
      MuxRun(v1, ins1, outs1, m - 1)
  }

  /** The fronts of inputs `a` up to (not including) `b`, in input order. */
  function Fronts(ins: Inputs, a: nat, b: nat): seq<BBPacket>
    requires a <= b <= |ins|
    requires forall i :: a <= i < b ==> ins[i] != []
    decreases b - a
  {
    if a == b then [] else [ins[a][0]] + Fronts(ins, a + 1, b)
  }

  /** The inputs after taking the front packet of every input from `a` on. */
  function PopFronts(ins: Inputs, a: nat): Inputs
    requires a <= |ins| && forall i :: a <= i < |ins| ==> ins[i] != []
    decreases |ins| - a
  {
    if a == |ins| then ins
    else PopFronts(ins[a := ins[a][1..]], a + 1)
  }

  lemma {:induction false} PopFrontsAt(ins: Inputs, a: nat)
    requires a <= |ins| && forall i :: a <= i < |ins| ==> ins[i] != []
    ensures |PopFronts(ins, a)| == |ins|
    ensures forall i :: 0 <= i < |ins| ==>
      PopFronts(ins, a)[i] == if i < a then ins[i] else ins[i][1..]
    decreases |ins| - a
  {
    if a < |ins| {
      PopFrontsAt(ins[a := ins[a][1..]], a + 1);
    }
  }

  /** One full round of the multiplexer, starting at input `a` with every
      input from `a` on holding a packet, takes the front packet of each of
      those inputs and appends them to output 0 in input order. */
  lemma MuxRoundRobin(v: MuxVal, ins: Inputs, outs: Outputs)
    requires |ins| == v.nrInputs && 0 <= v.activeInput < v.nrInputs && |outs| >= 1
    requires forall i :: v.activeInput <= i < |ins| ==> ins[i] != []
    ensures MuxRun(v, ins, outs, |ins| - v.activeInput).Ok?
    ensures var (v', ins', outs') := MuxRun(v, ins, outs, |ins| - v.activeInput).value;
      v' == v.(activeInput := 0) &&
      |ins'| == |ins| &&
      (forall i :: 0 <= i < |ins| ==> ins'[i] == if i < v.activeInput then ins[i] else ins[i][1..]) &&
      outs' == outs[0 := outs[0] + Fronts(ins, v.activeInput, |ins|)]
  {
    MuxRound(v, ins, outs);
    PopFrontsAt(ins, v.activeInput);
  }

  lemma {:induction false} MuxRound(v: MuxVal, ins: Inputs, outs: Outputs)
    requires |ins| == v.nrInputs && 0 <= v.activeInput < v.nrInputs && |outs| >= 1
    requires forall i :: v.activeInput <= i < |ins| ==> ins[i] != []
    ensures MuxRun(v, ins, outs, |ins| - v.activeInput) ==
      Ok((v.(activeInput := 0), PopFronts(ins, v.activeInput), outs[0 := outs[0] + Fronts(ins, v.activeInput, |ins|)]))
    decreases |ins| - v.activeInput
  {
    var a := v.activeInput;
    var n := |ins|;
    MuxTakesActive(v, ins, outs);
    var ins1 := ins[a := ins[a][1..]];
    var outs1 := outs[0 := outs[0] + [ins[a][0]]];
    assert PopFronts(ins, a) == PopFronts(ins1, a + 1);
    if a + 1 == n {
      assert Fronts(ins, a, n) == [ins[a][0]];
      assert MuxRun(v, ins, outs, 1) == MuxRun(v.(activeInput := 0), ins1, outs1, 0);
    } else {
      var v1 := v.(activeInput := a + 1);
      MuxRound(v1, ins1, outs1);
      FrontsFrame(ins1, ins, a + 1, n);
      assert outs1[0] + Fronts(ins1, a + 1, n) == outs[0] + Fronts(ins, a, n);
      assert outs1[0 := outs1[0] + Fronts(ins1, a + 1, n)] == outs[0 := outs[0] + Fronts(ins, a, n)];
      assert v1.(activeInput := 0) == v.(activeInput := 0);
      assert MuxRun(v, ins, outs, n - a) == MuxRun(v1, ins1, outs1, n - (a + 1));
    }
  }

  /** Fronts only look at the inputs in their range. */
  lemma {:induction false} FrontsFrame(ins: Inputs, ins': Inputs, a: nat, b: nat)
    requires a <= b <= |ins| == |ins'|
    requires forall i :: a <= i < b ==> ins[i] != [] && ins[i] == ins'[i]
    ensures Fronts(ins, a, b) == Fronts(ins', a, b)
    decreases b - a
  {
    if a < b {
      FrontsFrame(ins, ins', a + 1, b);
    }
  }

  /** `DeMuxN`: one input, `nrOutputs` outputs, a rotating active output. */
  class DeMuxN {
    const id: int
    const nrOutputs: int
    const mode: string
    var activeOutput: int

    function Val(): DeMuxVal
      reads this
    {
      DeMuxVal(nrOutputs, activeOutput, mode)
    }

    constructor(id: int, nrOutputs: int, mode: string)
      ensures this.id == id && this.nrOutputs == nrOutputs && this.mode == mode
      ensures activeOutput == 0
    {
      this.id := id;
      this.nrOutputs := nrOutputs;
      this.mode := mode;
      activeOutput := 0;
    }

    method Process(ins: Inputs, outs: Outputs) returns (r: Result<(Inputs, Outputs)>)
      modifies this
      ensures r.Ok? ==> DeMuxStep(old(Val()), ins, outs) == Ok((Val(), r.value.0, r.value.1))
      ensures r.Err? ==> DeMuxStep(old(Val()), ins, outs) == Err(r.error)
    {
      if |ins| == 0 || ins[0] == [] {
        return Err(IndexError);
      }
      var p := ins[0][0];
      var ins1 := ins[0 := ins[0][1..]];
      if mode == Alternate {
        if !(-|outs| <= activeOutput < |outs|) {
          return Err(IndexError);
        }
        var j := if activeOutput >= 0 then activeOutput else activeOutput + |outs|;
        var outs1 := outs[j := outs[j] + [p]];
        if nrOutputs == 0 {
          return Err(ZeroDivisionError);
        }
        activeOutput := PyMod(activeOutput + 1, nrOutputs);
        r := Ok((ins1, outs1));
      } else if mode == Duplicate {
        var outs1 := outs;
        var i := 0;
        while i < |outs|
          invariant 0 <= i <= |outs| == |outs1|
          invariant forall j :: 0 <= j < i ==> outs1[j] == outs[j] + [p]
          invariant forall j :: i <= j < |outs| ==> outs1[j] == outs[j]
        {
          outs1 := outs1[i := outs1[i] + [p]];
          i := i + 1;
        }
        assert outs1 == PushAll(outs, p);
        r := Ok((ins1, outs1));
      } else {
        r := Err(ValueError);
      }
    }

    method IsReady(ins: Inputs) returns (r: Result<bool>)
      ensures r == DeMuxReady(ins)
    {
      if |ins| == 0 {
        return Err(IndexError);
      }
      r := Ok(|ins[0]| > 0);
    }
  }

  /** `MuxN`: `nrInputs` inputs, one output, a rotating active input. */
  class MuxN {
    const id: int
    const nrInputs: int
    var activeInput: int

    function Val(): MuxVal
      reads this
    {
      MuxVal(nrInputs, activeInput)
    }

    constructor(id: int, nrInputs: int)
      ensures this.id == id && this.nrInputs == nrInputs && activeInput == 0
    {
      this.id := id;
      this.nrInputs := nrInputs;
      activeInput := 0;
    }

    method Process(ins: Inputs, outs: Outputs) returns (r: Result<(Inputs, Outputs)>)
      modifies this
      ensures r.Ok? ==> MuxStep(old(Val()), ins, outs) == Ok((Val(), r.value.0, r.value.1))
      ensures r.Err? ==> MuxStep(old(Val()), ins, outs) == Err(r.error)
    {
      var pop := PopLeft(ins, activeInput);
      if pop.Err? {
        return Err(pop.error);
      }
      var (p, ins1) := pop.value;
      if nrInputs == 0 {
        return Err(ZeroDivisionError);
      }
      activeInput := PyMod(activeInput + 1, nrInputs);
      if |outs| == 0 {
        return Err(IndexError);
      }
      r := Ok((ins1, outs[0 := outs[0] + [p]]));
    }

    method IsReady(ins: Inputs) returns (r: Result<bool>)
      ensures r == MuxReady(Val(), ins)
    {
      r := HasItems(ins, activeInput);
    }
  }
}

/** The repeater: each packet it takes is emitted `repeats` times. */
module Repeater {
  import opened Wrappers
  import opened BBPackets
  import opened RNodes

  const DefaultRepeats: int := 2

  /** `n` copies of `p` (none for a count below one, as `range` gives). */
  function Copies(p: BBPacket, n: int): (r: seq<BBPacket>)
    ensures |r| == Count(n) && forall i :: 0 <= i < |r| ==> r[i] == p
  {
    seq(Count(n), _ => p)
  }

  /** One `RepeaterN.process` call. Output 0 is only indexed when at least
      one copy is appended. */
  function RepeaterStep(repeats: int, ins: Inputs, outs: Outputs): Result<(Inputs, Outputs)> {
    var (p, ins1) :- PopLeft(ins, 0);
    if repeats <= 0 then Ok((ins1, outs))
    else if |outs| == 0 then Err(IndexError)
    else Ok((ins1, outs[0 := outs[0] + Copies(p, repeats)]))
  }

  /** `RepeaterN.is_ready`. */
  function RepeaterReady(ins: Inputs): Result<bool> {
    HasItems(ins, 0)
  }

  /** The repeater takes exactly the front packet and appends exactly
      `repeats` copies of it to output 0, after what was there. */
  lemma RepeaterCopies(repeats: int, ins: Inputs, outs: Outputs)
    requires |ins| >= 1 && ins[0] != [] && |outs| >= 1
    ensures RepeaterStep(repeats, ins, outs).Ok?
    ensures var (ins', outs') := RepeaterStep(repeats, ins, outs).value;
      ins' == ins[0 := ins[0][1..]] && |outs'| == |outs| &&
      (forall j :: 1 <= j < |outs| ==> outs'[j] == outs[j]) &&
      |outs'[0]| == |outs[0]| + Count(repeats) &&
      outs'[0][..|outs[0]|] == outs[0] &&
      forall i :: |outs[0]| <= i < |outs'[0]| ==> outs'[0][i] == ins[0][0]
  {
    if repeats <= 0 {
      assert outs[0][..|outs[0]|] == outs[0];
    }
  }

  /** `RepeaterN`: one input, one output. */
  class RepeaterN {
    const id: int
    const repeats: int

    constructor(id: int, repeats: int := DefaultRepeats)
      ensures this.id == id && this.repeats == repeats
    {
      this.id := id;
      this.repeats := repeats;
    }

    method Process(ins: Inputs, outs: Outputs) returns (r: Result<(Inputs, Outputs)>)
      ensures r == RepeaterStep(repeats, ins, outs)
    {
      if |ins| == 0 || ins[0] == [] {
        return Err(IndexError);
      }
      var p := ins[0][0];
      var outs1 := outs;
      var i := 0;
      while i < repeats
        invariant 0 <= i <= Count(repeats)
        invariant i > 0 ==> |outs| >= 1
        invariant i > 0 ==> outs1 == outs[0 := outs[0] + Copies(p, i)]
        invariant i == 0 ==> outs1 == outs
      {
        if |outs1| == 0 {
          return Err(IndexError);
        }
        ghost var before := if i == 0 then outs[0] else outs[0] + Copies(p, i);
        assert outs1[0] == before && outs1 == outs[0 := before] by {
          if i == 0 {
            assert outs[0 := outs[0]] == outs;
          }
        }
        assert Copies(p, i + 1) == Copies(p, i) + [p];
        assert i == 0 ==> Copies(p, i) == [];
        assert before + [p] == outs[0] + Copies(p, i + 1);
        outs1 := outs1[0 := outs1[0] + [p]];
        i := i + 1;
      }
      r := Ok((ins[0 := ins[0][1..]], outs1));
    }

    method IsReady(ins: Inputs) returns (r: Result<bool>)
      ensures r == RepeaterReady(ins)
    {
      if |ins| == 0 {
        return Err(IndexError);
      }
      r := Ok(|ins[0]| > 0);
    }
  }
}

/** Pairwise comparison of two packet streams: the fronts of both inputs are
    taken together, both are tagged with the capture-time difference, and
    each continues on its own output. */
module Compare {
  import opened Wrappers
  import opened BBPackets
  import opened RNodes

  const TDiff: string := "t_diff"

  /** A packet with `metadata['t_diff'] = d`. */
  function Tag(p: BBPacket, d: int): BBPacket {
    p.(metadata := p.metadata[TDiff := d])
  }

  /** One `CompN.process` call. */
  function CompStep(ins: Inputs, outs: Outputs): Result<(Inputs, Outputs)> {
    var (a, ins1) :- PopLeft(ins, 0);
    var (b, ins2) :- PopLeft(ins1, 1);
    var d := b.frame.time - a.frame.time;
    var outs1 :- Push(outs, 0, Tag(a, d));
    var outs2 :- Push(outs1, 1, Tag(b, d));
    Ok((ins2, outs2))
  }

  /** `CompN.is_ready`; the second deque is only looked at when the first
      holds a packet. */
  function CompReady(ins: Inputs): Result<bool> {
    var first :- HasItems(ins, 0);
    if !first then Ok(false) else HasItems(ins, 1)
  }

  /** Ready exactly when both deques hold a packet. */
  lemma CompReadyBoth(ins: Inputs)
    requires |ins| == 2
    ensures CompReady(ins) == Ok(ins[0] != [] && ins[1] != [])
  {
  }

  /** The comparison promise: one packet leaves each input, A continues on
      output 0 and B on output 1, each otherwise unchanged but for the
      `t_diff` entry both carry, which is B's capture time minus A's. */
  lemma CompPairs(ins: Inputs, outs: Outputs)
    requires |ins| == 2 && ins[0] != [] && ins[1] != [] && |outs| == 2
    ensures CompStep(ins, outs).Ok?
    ensures var (ins', outs') := CompStep(ins, outs).value;
      var a, b := ins[0][0], ins[1][0];
      ins' == [ins[0][1..], ins[1][1..]] &&
      |outs'| == 2 &&
      outs'[0] == outs[0] + [Tag(a, b.frame.time - a.frame.time)] &&
      outs'[1] == outs[1] + [Tag(b, b.frame.time - a.frame.time)] &&
      Tag(a, b.frame.time - a.frame.time).metadata[TDiff] == Tag(b, b.frame.time - a.frame.time).metadata[TDiff] &&
      Tag(a, b.frame.time - a.frame.time).frame == a.frame && Tag(b, b.frame.time - a.frame.time).frame == b.frame
  {
  }

  /** With either deque empty, `process` raises `IndexError` (from
      `popleft`). */
  lemma CompNeedsBoth(ins: Inputs, outs: Outputs)
    requires |ins| == 2 && (ins[0] == [] || ins[1] == [])
    ensures CompStep(ins, outs) == Err(IndexError)
  {
  }

  /** `CompN`: two inputs, two outputs, no state of its own. */
  class CompN {
    const id: int

    constructor(id: int)
      ensures this.id == id
    {
      this.id := id;
    }

    method Process(ins: Inputs, outs: Outputs) returns (r: Result<(Inputs, Outputs)>)
      ensures r == CompStep(ins, outs)
    {
      if |ins| < 1 || ins[0] == [] {
        return Err(IndexError);
      }
      var a := ins[0][0];
      var ins1 := ins[0 := ins[0][1..]];
      if |ins1| < 2 || ins1[1] == [] {
        return Err(IndexError);
      }
      var b := ins1[1][0];
      var ins2 := ins1[1 := ins1[1][1..]];
      var d := b.frame.time - a.frame.time;
      var a' := a.(metadata := a.metadata[TDiff := d]);
      var b' := b.(metadata := b.metadata[TDiff := d]);
      if |outs| < 1 {
        return Err(IndexError);
      }
      var outs1 := outs[0 := outs[0] + [a']];
      if |outs1| < 2 {
        return Err(IndexError);
      }
      r := Ok((ins2, outs1[1 := outs1[1] + [b']]));
    }

    method IsReady(ins: Inputs) returns (r: Result<bool>)
      ensures r == CompReady(ins)
    {
      if |ins| < 1 {
        return Err(IndexError);
      }
      if |ins[0]| > 0 {
        if |ins| < 2 {
          return Err(IndexError);
        }
        r := Ok(|ins[1]| > 0);
      } else {
        r := Ok(false);
      }
    }
  }
}

/** Routing by a dissected field value: the packet goes to output `i + 1`
    for the first matcher `i` equal to the field's text, and to the default
    output 0 when none is. */
module Switch {
  import opened Wrappers
  import opened BBPackets
  import opened RNodes

  /** The switch's configuration and its per-value packet counts. */
  datatype SwitchVal = SwitchVal(layer: string, field: string, matchers: seq<string>, counts: map<string, int>)

  /** The position of the first matcher equal to `c`. */
  function FirstMatch(ms: seq<string>, c: string): (r: Option<nat>)
    ensures r.Some? ==> r.value < |ms| && ms[r.value] == c && forall j :: 0 <= j < r.value ==> ms[j] != c
    ensures r.None? ==> c !in ms
  {
    if ms == [] then None
    else if ms[0] == c then Some(0)
    else match FirstMatch(ms[1..], c)
      case None => None
      case Some(i) => Some(i + 1)
  }

  /** The output a packet whose field reads `c` goes to. */
  function Route(ms: seq<string>, c: string): nat {
    match FirstMatch(ms, c)
    case Some(i) => i + 1
    case None => 0
  }

  /** `_tmp_dict[comp] += 1`, starting from 1 for a value not seen before. */
  function Bump(counts: map<string, int>, c: string): map<string, int> {
    counts[c := if c in counts then counts[c] + 1 else 1]
  }

  /** One `SwitchN.process` call. */
  function SwitchStep(v: SwitchVal, ins: Inputs, outs: Outputs): Result<(SwitchVal, Inputs, Outputs)> {
    var (p, ins1) :- PopLeft(ins, 0);
    if (v.layer, v.field) !in p.frame.fields then Err(AttributeError)
    else
      var c := p.frame.fields[(v.layer, v.field)];
      var outs1 :- Push(outs, Route(v.matchers, c), p);
      Ok((v.(counts := Bump(v.counts, c)), ins1, outs1))
  }

  /** `SwitchN.is_ready`. */
  function SwitchReady(ins: Inputs): Result<bool> {
    HasItems(ins, 0)
  }

  /** `SwitchN.setup`: an empty matcher is refused. */
  function SwitchSetup(v: SwitchVal): Result<()> {
    if "" in v.matchers then Err(RuntimeError) else Ok(())
  }

  /** The routing promise: the front packet goes, unchanged, to exactly one
      output, which is `i + 1` for the first matcher `i` equal to the field's
      text, or output 0 when no matcher is; every other output and every
      other input deque are left alone, and the count of that text grows by
      one. */
  lemma SwitchRoutesOnce(v: SwitchVal, ins: Inputs, outs: Outputs)
    requires |ins| >= 1 && ins[0] != [] && |outs| == |v.matchers| + 1
    requires (v.layer, v.field) in ins[0][0].frame.fields
    ensures SwitchStep(v, ins, outs).Ok?
    ensures var c := ins[0][0].frame.fields[(v.layer, v.field)];
      var (v', ins', outs') := SwitchStep(v, ins, outs).value;
      ins' == ins[0 := ins[0][1..]] &&
      |outs'| == |outs| &&
      (exists o :: 0 <= o < |outs| && outs'[o] == outs[o] + [ins[0][0]] &&
         (forall k :: 0 <= k < |outs| && k != o ==> outs'[k] == outs[k]) &&
         (o == 0 <==> c !in v.matchers) &&
         (o > 0 ==> v.matchers[o - 1] == c && forall j :: 0 <= j < o - 1 ==> v.matchers[j] != c)) &&
      v'.counts == v.counts[c := if c in v.counts then v.counts[c] + 1 else 1] &&
      v'.matchers == v.matchers && v'.layer == v.layer && v'.field == v.field
  {
    var c := ins[0][0].frame.fields[(v.layer, v.field)];
    var o := Route(v.matchers, c);
    var outs' := SwitchStep(v, ins, outs).value.2;
    assert outs'[o] == outs[o] + [ins[0][0]];
  }

  /** A packet lacking the configured field raises `AttributeError`. */
  lemma SwitchMissingField(v: SwitchVal, ins: Inputs, outs: Outputs)
    requires |ins| >= 1 && ins[0] != []
    requires (v.layer, v.field) !in ins[0][0].frame.fields
    ensures SwitchStep(v, ins, outs) == Err(AttributeError)
  {
  }

  /** The n-th packet carrying a value is counted as the n-th. */
  lemma BumpCounts(counts: map<string, int>, c: string, d: string)
    ensures Bump(counts, c)[c] == (if c in counts then counts[c] else 0) + 1
    ensures d != c ==> (d in Bump(counts, c) <==> d in counts)
    ensures d != c && d in counts ==> Bump(counts, c)[d] == counts[d]
  {
  }

  /** Setup refuses exactly the configurations holding an empty matcher. */
  lemma SwitchSetupChecks(v: SwitchVal)
    ensures SwitchSetup(v).Err? <==> exists i :: 0 <= i < |v.matchers| && v.matchers[i] == ""
    ensures SwitchSetup(v).Err? ==> SwitchSetup(v).error == RuntimeError
  {
  }

  /** `SwitchN`: one input, the default output 0 plus one output per
      matcher. */
  class SwitchN {
    const id: int
    const nrOutputs: int
    const layer: string
    const field: string
    const matchers: seq<string>
    var counts: map<string, int>

    function Val(): SwitchVal
      reads this
    {
      SwitchVal(layer, field, matchers, counts)
    }

    constructor(id: int, nrOutputs: int, layer: string, field: string, matchers: seq<string>)
      ensures this.id == id && this.nrOutputs == nrOutputs
      ensures this.layer == layer && this.field == field && this.matchers == matchers
      ensures counts == map[]
    {
      this.id := id;
      this.nrOutputs := nrOutputs;
      this.layer := layer;
      this.field := field;
      this.matchers := matchers;
      counts := map[];
    }

    method Process(ins: Inputs, outs: Outputs) returns (r: Result<(Inputs, Outputs)>)
      modifies this
      ensures r.Ok? ==> SwitchStep(old(Val()), ins, outs) == Ok((Val(), r.value.0, r.value.1))
      ensures r.Err? ==> SwitchStep(old(Val()), ins, outs) == Err(r.error)
    {
      if |ins| == 0 || ins[0] == [] {
        return Err(IndexError);
      }
      var p := ins[0][0];
      var ins1 := ins[0 := ins[0][1..]];
      if (layer, field) !in p.frame.fields {
        return Err(AttributeError);
      }
      var c := p.frame.fields[(layer, field)];
      counts := if c in counts then counts[c := counts[c] + 1] else counts[c := 1];
      // the for-else search over the matchers
      var i := 0;
      var target := 0;
      while i < |matchers|
        invariant 0 <= i <= |matchers|
        invariant forall j :: 0 <= j < i ==> matchers[j] != c
        invariant target == 0
      {
        if matchers[i] == c {
          target := i + 1;
          break;
        }
        i := i + 1;
      }
      assert target == Route(matchers, c);
      if target >= |outs| {
        return Err(IndexError);
      }
      r := Ok((ins1, outs[target := outs[target] + [p]]));
    }

    method IsReady(ins: Inputs) returns (r: Result<bool>)
      ensures r == SwitchReady(ins)
    {
      if |ins| == 0 {
        return Err(IndexError);
      }
      r := Ok(|ins[0]| >= 1);
    }

    method Setup() returns (r: Result<()>)
      ensures r == SwitchSetup(Val())
    {
      r := Ok(());
      for i := 0 to |matchers|
        invariant r == Ok(()) <==> forall j :: 0 <= j < i ==> matchers[j] != ""
        invariant r == Ok(()) || r == Err(RuntimeError)
      {
        if matchers[i] == "" {
          r := Err(RuntimeError);
        }
      }
    }
  }
}

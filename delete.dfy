/** The delete node: it drops the packets whose running index lies in
    `range(start, stop, step)` and forwards every other packet unchanged.

    Two readings of the drop decision are modelled. `AsWrittenShouldDrop`
    follows `_should_drop` as written: each call builds a new generator,
    which draws one new value from the shared range iterator and compares it
    with the counter once. `DelN` follows the evident intent, dropping packet
    `k` exactly when `k` is a member of the range; the engine uses it. */
module Delete {
  import opened Wrappers
  import opened BBPackets
  import opened RNodes

  /** The values of Python's `range(start, stop, step)`, in order. */
  function RangeSeq(start: int, stop: int, step: int): seq<int>
    requires step != 0
    decreases if step > 0 then stop - start else start - stop
  {
    if step > 0 then
      if start >= stop then [] else [start] + RangeSeq(start + step, stop, step)
    else
      if start <= stop then [] else [start] + RangeSeq(start + step, stop, step)
  }

  /** Membership in `range(start, stop, step)`, stated arithmetically: `k`
      lies between the bounds and is reached from `start` by whole steps. */
  ghost predicate InRange(k: int, start: int, stop: int, step: int) {
    step != 0 &&
    (if step > 0 then start <= k < stop else stop < k <= start) &&
    exists i: nat {:trigger i * step} :: k == start + i * step
  }

  /** The range's sequence holds exactly its arithmetic members. */
  lemma RangeMembers(k: int, start: int, stop: int, step: int)
    requires step != 0
    ensures k in RangeSeq(start, stop, step) <==> InRange(k, start, stop, step)
  {
    if k in RangeSeq(start, stop, step) {
      RangeSound(k, start, stop, step);
    }
    if InRange(k, start, stop, step) {
      var i: nat :| k == start + i * step;
      RangeComplete(k, start, stop, step, i);
    }
  }

  /** Every value of the range is an arithmetic member. */
  lemma {:induction false} RangeSound(k: int, start: int, stop: int, step: int)
    requires step != 0 && k in RangeSeq(start, stop, step)
    ensures InRange(k, start, stop, step)
    decreases if step > 0 then stop - start else start - stop
  {
    var rest := RangeSeq(start + step, stop, step);
    assert RangeSeq(start, stop, step) == [start] + rest;
    if k == start {
      assert k == start + 0 * step;
    } else {
      assert k in rest;
      RangeSound(k, start + step, stop, step);
      var i: nat :| k == start + step + i * step;
      assert k == start + (i + 1) * step;
    }
  }

  /** Every arithmetic member, reached after `i` steps, is a value of the
      range. */
  lemma {:induction false} RangeComplete(k: int, start: int, stop: int, step: int, i: nat)
    requires step != 0
    requires if step > 0 then start <= k < stop else stop < k <= start
    requires k == start + i * step
    ensures k in RangeSeq(start, stop, step)
    decreases i
  {
    var rest := RangeSeq(start + step, stop, step);
    assert RangeSeq(start, stop, step) == [start] + rest;
    if i > 0 {
      assert k == start + step + (i - 1) * step;
      assert (i - 1) * step >= 0 || step < 0;
      assert (i - 1) * step <= 0 || step > 0;
      RangeComplete(k, start + step, stop, step, i - 1);
    }
  }

  /** Three ranges written out: ascending, descending, and empty. */
  lemma RangeExample()
    ensures RangeSeq(0, 10, 2) == [0, 2, 4, 6, 8]
    ensures RangeSeq(5, 0, -1) == [5, 4, 3, 2, 1]
    ensures RangeSeq(0, 0, 1) == []
  {
    assert RangeSeq(10, 10, 2) == [];
    assert RangeSeq(0, 0, -1) == [];
  }

  // ----- the generator as written -----

  /** One `next(self._should_drop())` as written: a fresh generator draws
      the next value `v` of the shared iterator `it` and answers at once when
      the counter is below `v` (keep) or equal to it (drop). When the counter
      has already passed `v` the generator loops without yielding, which is
      `None` here. Once the iterator is exhausted every answer is keep. */
  function AsWrittenShouldDrop(ctr: int, it: seq<int>): (r: Option<(bool, seq<int>)>)
    ensures r.Some? ==> r.value.1 == if it == [] then [] else it[1..]
  {
    if it == [] then Some((false, []))
    else if ctr < it[0] then Some((false, it[1..]))
    else if ctr == it[0] then Some((true, it[1..]))
    else None
  }

  /** The drop decisions for `m` consecutive packets, counting from `ctr`,
      with `None` when a call never returns. */
  function AsWrittenDrops(ctr: int, it: seq<int>, m: nat): Option<seq<bool>>
    decreases m
  {
    if m == 0 then Some([])
    else match AsWrittenShouldDrop(ctr, it)
      case None => None
      case Some((d, it1)) =>
        match AsWrittenDrops(ctr + 1, it1, m - 1)
        case None => None
        case Some(ds) => Some([d] + ds)
  }

  /** As written, `range(0, 10, 2)` drops packet 0 only: packet 2 is kept
      although 2 is in the range, because the call for packet 1 already drew
      the value 2 and discarded it. */
  lemma AsWrittenMissesEvenIndices()
    ensures AsWrittenDrops(0, RangeSeq(0, 10, 2), 5) == Some([true, false, false, false, false])
    ensures 2 in RangeSeq(0, 10, 2)
  {
    RangeExample();
    assert [2, 4, 6, 8][1..] == [4, 6, 8] && [4, 6, 8][1..] == [6, 8] && [6, 8][1..] == [8] && [8][1..] == [];
    assert [0, 2, 4, 6, 8][1..] == [2, 4, 6, 8];
    assert AsWrittenDrops(5, [], 0) == Some([]);
    assert AsWrittenShouldDrop(4, [8]) == Some((false, []));
    assert [false] + [] == [false];
    assert AsWrittenDrops(4, [8], 1) == Some([false]);
    assert AsWrittenShouldDrop(3, [6, 8]) == Some((false, [8]));
    assert [false] + [false] == [false, false];
    assert [false] + [false, false] == [false, false, false];
    assert [false] + [false, false, false] == [false, false, false, false];
    assert [true] + [false, false, false, false] == [true, false, false, false, false];
    assert AsWrittenDrops(3, [6, 8], 2) == Some([false, false]);
    assert AsWrittenShouldDrop(2, [4, 6, 8]) == Some((false, [6, 8]));
    assert AsWrittenDrops(2, [4, 6, 8], 3) == Some([false, false, false]);
    assert AsWrittenShouldDrop(1, [2, 4, 6, 8]) == Some((false, [4, 6, 8]));
    assert AsWrittenDrops(1, [2, 4, 6, 8], 4) == Some([false, false, false, false]);
    assert AsWrittenShouldDrop(0, [0, 2, 4, 6, 8]) == Some((true, [2, 4, 6, 8]));
  }

  /** As written, a descending range such as `range(5, 0, -1)` makes the
      fourth call spin forever: the counter 3 has passed the drawn value 2. */
  lemma AsWrittenDescendingHangs()
    ensures AsWrittenDrops(0, RangeSeq(5, 0, -1), 3).Some?
    ensures AsWrittenDrops(0, RangeSeq(5, 0, -1), 4) == None
  {
    RangeExample();
    assert [5, 4, 3, 2, 1][1..] == [4, 3, 2, 1] && [4, 3, 2, 1][1..] == [3, 2, 1] && [3, 2, 1][1..] == [2, 1];
    assert AsWrittenDrops(3, [2, 1], 1) == None;
    assert AsWrittenDrops(2, [3, 2, 1], 2) == None;
    assert AsWrittenDrops(1, [4, 3, 2, 1], 3) == None;
    assert AsWrittenDrops(3, [2, 1], 0) == Some([]);
    assert AsWrittenShouldDrop(2, [3, 2, 1]) == Some((false, [2, 1]));
    assert [false] + [] == [false];
    assert AsWrittenDrops(2, [3, 2, 1], 1) == Some([false]);
    assert AsWrittenShouldDrop(1, [4, 3, 2, 1]) == Some((false, [3, 2, 1]));
    assert [false] + [false] == [false, false];
    assert AsWrittenDrops(1, [4, 3, 2, 1], 2) == Some([false, false]);
  }

  /** As written, an empty range (the editor's default `0, 0, 1`) forwards
      every packet. */
  lemma {:induction false} AsWrittenEmptyForwardsAll(ctr: int, m: nat)
    ensures AsWrittenDrops(ctr, [], m).Some?
    ensures var ds := AsWrittenDrops(ctr, [], m).value; |ds| == m && forall k :: 0 <= k < m ==> !ds[k]
    decreases m
  {
    if m > 0 {
      AsWrittenEmptyForwardsAll(ctr + 1, m - 1);
    }
  }

  /** As written, the reading agrees with range membership for a range that
      counts up by one from the counter: each call draws exactly the value it
      is compared with. */
  lemma {:induction false} AsWrittenUnitStep(c: int, stop: int, m: nat)
    ensures AsWrittenDrops(c, RangeSeq(c, stop, 1), m).Some?
    ensures var ds := AsWrittenDrops(c, RangeSeq(c, stop, 1), m).value;
      |ds| == m && forall k :: 0 <= k < m ==> (ds[k] <==> c + k < stop)
    decreases m
  {
    if m > 0 {
      if c < stop {
        assert RangeSeq(c, stop, 1) == [c] + RangeSeq(c + 1, stop, 1);
        AsWrittenUnitStep(c + 1, stop, m - 1);
      } else {
        assert RangeSeq(c, stop, 1) == [];
        AsWrittenEmptyForwardsAll(c + 1, m - 1);
      }
    }
  }

  /** As written, `setup` resets the counter but not the iterator: with
      `range(0, 1, 1)` packet 0 is dropped in the first run and kept in the
      run after `setup`. */
  lemma AsWrittenSetupKeepsIterator()
    ensures AsWrittenShouldDrop(0, RangeSeq(0, 1, 1)) == Some((true, []))
    ensures AsWrittenShouldDrop(0, []) == Some((false, []))
  {
    assert RangeSeq(0, 1, 1) == [0] + RangeSeq(1, 1, 1);
  }

  // ----- the corrected node -----

  /** The node's state: the range's values and the index of the next
      packet. */
  datatype DelVal = DelVal(drops: seq<int>, ctr: int)

  /** One `DelN.process` call. */
  function DelStep(v: DelVal, ins: Inputs, outs: Outputs): Result<(DelVal, Inputs, Outputs)> {
    var (p, ins1) :- PopLeft(ins, 0);
    var outs1 :- if v.ctr in v.drops then Ok(outs) else Push(outs, 0, p);
    Ok((v.(ctr := v.ctr + 1), ins1, outs1))
  }

  /** `DelN.is_ready`. */
  function DelReady(ins: Inputs): Result<bool> {
    HasItems(ins, 0)
  }

  /** Each call takes the front packet, forwards either nothing or that very
      packet, and advances the index by one. */
  lemma DelStepOne(v: DelVal, ins: Inputs, outs: Outputs)
    requires |ins| >= 1 && ins[0] != [] && |outs| >= 1
    ensures DelStep(v, ins, outs).Ok?
    ensures var (v', ins', outs') := DelStep(v, ins, outs).value;
      v' == v.(ctr := v.ctr + 1) && ins' == ins[0 := ins[0][1..]] &&
      (outs' == outs || outs' == outs[0 := outs[0] + [ins[0][0]]]) &&
      (outs' == outs <==> v.ctr in v.drops)
  {
    if v.ctr !in v.drops {
      var outs' := DelStep(v, ins, outs).value.2;
      assert |outs'[0]| == |outs[0]| + 1;
    }
  }

  /** The packets of `ps`, numbered from `c`, whose number is not dropped. */
  function Kept(ps: seq<BBPacket>, c: int, drops: seq<int>): seq<BBPacket>
    decreases |ps|
  {
    if ps == [] then []
    else (if c in drops then [] else [ps[0]]) + Kept(ps[1..], c + 1, drops)
  }

  /** `m` consecutive `DelN.process` calls. */
  function DelRun(v: DelVal, ins: Inputs, outs: Outputs, m: nat): Result<(DelVal, Inputs, Outputs)>
    decreases m
  {
    if m == 0 then Ok((v, ins, outs))
    else
      var (v1, ins1, outs1) :- DelStep(v, ins, outs);
      DelRun(v1, ins1, outs1, m - 1)
  }

  /** One call as `DelDropsRange` needs it: the front packet is appended
      to output 0 unless its index is in the range. */
  lemma DelStepKeep(v: DelVal, ins: Inputs, outs: Outputs)
    requires |ins| >= 1 && ins[0] != [] && |outs| >= 1
    ensures DelStep(v, ins, outs) == Ok((v.(ctr := v.ctr + 1), ins[0 := ins[0][1..]],
      outs[0 := outs[0] + if v.ctr in v.drops then [] else [ins[0][0]]]))
  {
    if v.ctr in v.drops {
      var none: seq<BBPacket> := [];
      assert outs[0] + none == outs[0];
      assert outs[0 := outs[0] + none] == outs;
    }
  }

  /** The intended promise: over `m` packets, output 0 receives, in order,
      exactly the packets whose running index is not in the range. */
  lemma {:induction false} DelDropsRange(v: DelVal, ins: Inputs, outs: Outputs, m: nat)
    requires |ins| >= 1 && |outs| >= 1 && m <= |ins[0]|
    ensures DelRun(v, ins, outs, m) == Ok((v.(ctr := v.ctr + m), ins[0 := ins[0][m..]], outs[0 := outs[0] + Kept(ins[0][..m], v.ctr, v.drops)]))
    decreases m
  {
    var ps := ins[0][..m];
    if m == 0 {
      assert ins[0 := ins[0][0..]] == ins;
      assert outs[0] + Kept(ps, v.ctr, v.drops) == outs[0];
      assert outs[0 := outs[0] + Kept(ps, v.ctr, v.drops)] == outs;
    } else {
      var ins1 := ins[0 := ins[0][1..]];
      var keep: seq<BBPacket> := if v.ctr in v.drops then [] else [ins[0][0]];
      var outs1 := outs[0 := outs[0] + keep];
      DelStepKeep(v, ins, outs);
      DelDropsRange(v.(ctr := v.ctr + 1), ins1, outs1, m - 1);
      assert ins1[0 := ins1[0][m - 1..]] == ins[0 := ins[0][m..]];
      assert ins1[0][..m - 1] == ins[0][1..m];
      assert ps == [ins[0][0]] + ins1[0][..m - 1];
      assert Kept(ps, v.ctr, v.drops) == keep + Kept(ins1[0][..m - 1], v.ctr + 1, v.drops);
      assert outs1[0] + Kept(ins1[0][..m - 1], v.ctr + 1, v.drops) == outs[0] + Kept(ps, v.ctr, v.drops);
      assert outs1[0 := outs1[0] + Kept(ins1[0][..m - 1], v.ctr + 1, v.drops)]
          == outs[0 := outs[0] + Kept(ps, v.ctr, v.drops)];
      assert DelRun(v, ins, outs, m) == DelRun(v.(ctr := v.ctr + 1), ins1, outs1, m - 1);
    }
  }

  /** With an empty range every packet is forwarded. */
  lemma {:induction false} EmptyRangeKeepsAll(ps: seq<BBPacket>, c: int)
    ensures Kept(ps, c, []) == ps
    decreases |ps|
  {
    if ps != [] {
      EmptyRangeKeepsAll(ps[1..], c + 1);
    }
  }

  /** `DelN`: one input, one output; `drops` are the values of the range. */
  class DelN {
    const id: int
    const drops: seq<int>
    var ctr: int

    function Val(): DelVal
      reads this
    {
      DelVal(drops, ctr)
    }

    constructor(id: int, start: int, stop: int, step: int)
      requires step != 0
      ensures this.id == id && drops == RangeSeq(start, stop, step) && ctr == 0
    {
      this.id := id;
      drops := RangeSeq(start, stop, step);
      ctr := 0;
    }

    /** Construction: `range` refuses a zero step with `ValueError`. */
    static method Create(id: int, start: int, stop: int, step: int) returns (r: Result<DelN>)
      ensures r.Err? <==> step == 0
      ensures r.Err? ==> r.error == ValueError
      ensures r.Ok? ==> fresh(r.value) && r.value.id == id && r.value.ctr == 0
      ensures r.Ok? ==> forall k :: k in r.value.drops <==> InRange(k, start, stop, step)
    {
      if step == 0 {
        return Err(ValueError);
      }
      var n := new DelN(id, start, stop, step);
      forall k ensures k in n.drops <==> InRange(k, start, stop, step) {
        RangeMembers(k, start, stop, step);
      }
      r := Ok(n);
    }

    method Process(ins: Inputs, outs: Outputs) returns (r: Result<(Inputs, Outputs)>)
      modifies this
      ensures r.Ok? ==> DelStep(old(Val()), ins, outs) == Ok((Val(), r.value.0, r.value.1))
      ensures r.Err? ==> DelStep(old(Val()), ins, outs) == Err(r.error)
    {
      if |ins| == 0 || ins[0] == [] {
        return Err(IndexError);
      }
      var p := ins[0][0];
      var outs1 := outs;
      if ctr !in drops {
        if |outs| == 0 {
          return Err(IndexError);
        }
        outs1 := outs[0 := outs[0] + [p]];
      }
      ctr := ctr + 1;
      r := Ok((ins[0 := ins[0][1..]], outs1));
    }

    method IsReady(ins: Inputs) returns (r: Result<bool>)
      ensures r == DelReady(ins)
    {
      if |ins| == 0 {
        return Err(IndexError);
      }
      r := Ok(|ins[0]| > 0);
    }

    method Setup()
      modifies this
      ensures ctr == 0
    {
      ctr := 0;
    }
  }
}

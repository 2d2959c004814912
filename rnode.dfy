/** The contract every executable node follows, and the deque and list
    operations the nodes apply to the input deques and output lists that the
    engine hands them. A node's `inputs` hold one FIFO deque per input port;
    its `outputs` hold one list per output port. */
module RNodes {
  import opened Wrappers
  import opened BBPackets

  /** One input port's FIFO deque, front first. */
  type Deque = seq<BBPacket>
  type Inputs = seq<Deque>
  type Outputs = seq<seq<BBPacket>>

  /** Python list indexing: a negative index counts from the end. */
  function PyIndex(i: int, n: nat): (r: Option<nat>)
    ensures r.Some? <==> 0 <= i + n && i < n
    ensures r.Some? ==> r.value < n && (r.value == i || r.value == i + n)
  {
    if 0 <= i < n then Some(i) else if 0 <= i + n && i < 0 then Some(i + n) else None
  }

  /** Python's `%`, whose result takes the sign of the divisor (Dafny's `%`
      is never negative). */
  function PyMod(a: int, b: int): (r: int)
    requires b != 0
    ensures b > 0 ==> 0 <= r < b
    ensures b < 0 ==> b < r <= 0
    ensures b > 0 ==> r == a % b
  {
    if b > 0 then a % b
    else
      var m := a % (-b);
      if m == 0 then 0 else m + b
  }

  /** `inputs[i].popleft()`: `IndexError` for a missing port or an empty deque. */
  function PopLeft(ins: Inputs, i: int): (r: Result<(BBPacket, Inputs)>)
    ensures r.Ok? <==> PyIndex(i, |ins|).Some? && ins[PyIndex(i, |ins|).value] != []
    ensures r.Err? ==> r.error == IndexError
    ensures r.Ok? ==>
      var j := PyIndex(i, |ins|).value;
      r.value.0 == ins[j][0] && r.value.1 == ins[j := ins[j][1..]]
  {
    match PyIndex(i, |ins|)
    case None => Err(IndexError)
    case Some(j) => if ins[j] == [] then Err(IndexError) else Ok((ins[j][0], ins[j := ins[j][1..]]))
  }

  /** `outputs[i].append(p)`: `IndexError` for a missing port. */
  function Push(outs: Outputs, i: int, p: BBPacket): (r: Result<Outputs>)
    ensures r.Ok? <==> PyIndex(i, |outs|).Some?
    ensures r.Err? ==> r.error == IndexError
    ensures r.Ok? ==> var j := PyIndex(i, |outs|).value; r.value == outs[j := outs[j] + [p]]
  {
    match PyIndex(i, |outs|)
    case None => Err(IndexError)
    case Some(j) => Ok(outs[j := outs[j] + [p]])
  }

  /** `len(inputs[i]) > 0`: `IndexError` for a missing port. */
  function HasItems(ins: Inputs, i: int): (r: Result<bool>)
    ensures r.Ok? <==> PyIndex(i, |ins|).Some?
    ensures r.Err? ==> r.error == IndexError
    ensures r.Ok? ==> (r.value <==> ins[PyIndex(i, |ins|).value] != [])
  {
    match PyIndex(i, |ins|)
    case None => Err(IndexError)
    case Some(j) => Ok(|ins[j]| > 0)
  }

  /** The number of deques or lists `range(n)` builds. */
  function Count(n: int): nat {
    if n < 0 then 0 else n
  }

  /** A node whose kind does not override `process` and `is_ready`: it keeps
      its id and port counts, and both abstract operations raise. */
  class RNode {
    const id: int
    const nrInputs: int
    const nrOutputs: int

    constructor(id: int, nrInputs: int, nrOutputs: int)
      ensures this.id == id && this.nrInputs == nrInputs && this.nrOutputs == nrOutputs
    {
      this.id := id;
      this.nrInputs := nrInputs;
      this.nrOutputs := nrOutputs;
    }

    /** The abstract `process`. */
    method Process(ins: Inputs, outs: Outputs) returns (r: Result<(Inputs, Outputs)>)
      ensures r == Err(NotImplementedError)
    {
      r := Err(NotImplementedError);
    }

    /** The abstract `is_ready`. */
    method IsReady(ins: Inputs) returns (r: Result<bool>)
      ensures r == Err(NotImplementedError)
    {
      r := Err(NotImplementedError);
    }

    /** The default `setup` and `teardown`: they change nothing (the empty
        frame says so). */
    method Setup()
      ensures unchanged(this)
    {
    }

    method Teardown()
      ensures unchanged(this)
    {
    }
  }
}

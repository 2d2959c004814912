/** Any executable node the engine can drive. Python dispatches `process`,
    `is_ready` and `setup` through the `RNode` subclass of the object; here
    one tagged union names the node kind, and one specification function per
    operation dispatches to that kind's own step function. */
module Nodes {
  import opened Wrappers
  import opened BBPackets
  import opened Channels
  import opened RNodes
  import opened Mux
  import opened Switch
  import opened Compare
  import opened Dummy
  import opened Delete
  import opened Repeater
  import opened NS3Src
  import opened NS3Snk

  /** A node object, tagged with its kind. `Base` is a node whose kind does
      not override the abstract operations. */
  datatype AnyNode =
    | Base(base: RNode)
    | DeMuxNode(demux: DeMuxN)
    | MuxNode(mux: MuxN)
    | SwitchNode(sw: SwitchN)
    | CompNode(comp: CompN)
    | DummySrcNode(src: DummySrcN)
    | NullSnkNode(snk: NullSnkN)
    | CounterNode(counter: CounterN)
    | DelNode(del: DelN)
    | RepeaterNode(rep: RepeaterN)
    | NS3SrcNode(nsrc: NS3SrcN)
    | NS3SnkNode(nsnk: NS3SnkN)
  {
    /** The node object itself. */
    function Obj(): object {
      match this
      case Base(n) => n
      case DeMuxNode(n) => n
      case MuxNode(n) => n
      case SwitchNode(n) => n
      case CompNode(n) => n
      case DummySrcNode(n) => n
      case NullSnkNode(n) => n
      case CounterNode(n) => n
      case DelNode(n) => n
      case RepeaterNode(n) => n
      case NS3SrcNode(n) => n
      case NS3SnkNode(n) => n
    }

    /** `node.id`. */
    function Id(): int {
      match this
      case Base(n) => n.id
      case DeMuxNode(n) => n.id
      case MuxNode(n) => n.id
      case SwitchNode(n) => n.id
      case CompNode(n) => n.id
      case DummySrcNode(n) => n.id
      case NullSnkNode(n) => n.id
      case CounterNode(n) => n.id
      case DelNode(n) => n.id
      case RepeaterNode(n) => n.id
      case NS3SrcNode(n) => n.id
      case NS3SnkNode(n) => n.id
    }

    /** `node.nr_inputs`, as each kind passes it to `RNode.__init__`. */
    function NrInputs(): int {
      match this
      case Base(n) => n.nrInputs
      case MuxNode(n) => n.nrInputs
      case CompNode(_) => 2
      case DummySrcNode(_) => 0
      case NS3SrcNode(_) => 0
      case _ => 1
    }

    /** `node.nr_outputs`, as each kind passes it to `RNode.__init__`. */
    function NrOutputs(): int {
      match this
      case Base(n) => n.nrOutputs
      case DeMuxNode(n) => n.nrOutputs
      case SwitchNode(n) => n.nrOutputs
      case CompNode(_) => 2
      case NullSnkNode(_) => 0
      case NS3SnkNode(_) => 0
      case _ => 1
    }

    /** The objects the node's operations may change: the node object and,
        for an ns-3 bridge that has been set up, its pipe. */
    function Repr(): set<object> {
      match this
      case NS3SrcNode(n) => n.Repr()
      case NS3SnkNode(n) => n.Repr()
      case _ => {Obj()}
    }

    /** The node's state as a value. */
    function Val(): NodeVal
      reads Repr()
    {
      match this
      case Base(_) => BaseV
      case DeMuxNode(n) => DeMuxV(n.Val())
      case MuxNode(n) => MuxV(n.Val())
      case SwitchNode(n) => SwitchV(n.Val())
      case CompNode(_) => CompV
      case DummySrcNode(n) => DummySrcV(n.Val())
      case NullSnkNode(_) => NullSnkV
      case CounterNode(n) => CounterV(n.ctr)
      case DelNode(n) => DelV(n.Val())
      case RepeaterNode(n) => RepeaterV(n.repeats)
      case NS3SrcNode(n) => NS3SrcV(n.Val())
      case NS3SnkNode(n) => NS3SnkV(n.Sent())
    }
  }

  /** A node's state as a value, per kind. */
  datatype NodeVal =
    | BaseV
    | DeMuxV(demux: DeMuxVal)
    | MuxV(mux: MuxVal)
    | SwitchV(sw: SwitchVal)
    | CompV
    | DummySrcV(src: DummySrcVal)
    | NullSnkV
    | CounterV(ctr: int)
    | DelV(del: DelVal)
    | RepeaterV(repeats: int)
    | NS3SrcV(nsrc: NS3SrcVal)
    | NS3SnkV(sent: Option<seq<ChanMsg>>)

  /** `node.is_ready(inputs)`: the answer and the node's state afterwards
      (only the dummy source changes it). */
  function ReadySpec(v: NodeVal, ins: Inputs): Result<(bool, NodeVal)> {
    match v
    case BaseV => Err(NotImplementedError)
    case DeMuxV(_) => var b :- DeMuxReady(ins); Ok((b, v))
    case MuxV(m) => var b :- MuxReady(m, ins); Ok((b, v))
    case SwitchV(_) => var b :- SwitchReady(ins); Ok((b, v))
    case CompV => var b :- CompReady(ins); Ok((b, v))
    case DummySrcV(d) => var (b, d') := DummySrcReady(d); Ok((b, DummySrcV(d')))
    case NullSnkV => var b :- InputReady(ins); Ok((b, v))
    case CounterV(_) => var b :- InputReady(ins); Ok((b, v))
    case DelV(_) => var b :- DelReady(ins); Ok((b, v))
    case RepeaterV(_) => var b :- RepeaterReady(ins); Ok((b, v))
    case NS3SrcV(s) => var b :- NS3SrcReady(s, ins); Ok((b, v))
    case NS3SnkV(_) => var b :- NS3SnkReady(ins); Ok((b, v))
  }

  /** `node.process(inputs, outputs)`: the node's new state and the new
      contents of its deques and output lists. */
  function ProcessSpec(v: NodeVal, ins: Inputs, outs: Outputs): Result<(NodeVal, Inputs, Outputs)> {
    match v
    case BaseV => Err(NotImplementedError)
    case DeMuxV(d) => var (d', i, o) :- DeMuxStep(d, ins, outs); Ok((DeMuxV(d'), i, o))
    case MuxV(m) => var (m', i, o) :- MuxStep(m, ins, outs); Ok((MuxV(m'), i, o))
    case SwitchV(s) => var (s', i, o) :- SwitchStep(s, ins, outs); Ok((SwitchV(s'), i, o))
    case CompV => var (i, o) :- CompStep(ins, outs); Ok((v, i, o))
    case DummySrcV(d) => var (d', i, o) :- DummySrcStep(d, ins, outs); Ok((DummySrcV(d'), i, o))
    case NullSnkV => var (i, o) :- NullSnkStep(ins, outs); Ok((v, i, o))
    case CounterV(c) => var (c', i, o) :- CounterStep(c, ins, outs); Ok((CounterV(c'), i, o))
    case DelV(d) => var (d', i, o) :- DelStep(d, ins, outs); Ok((DelV(d'), i, o))
    case RepeaterV(n) => var (i, o) :- RepeaterStep(n, ins, outs); Ok((v, i, o))
    case NS3SrcV(s) => var (s', i, o) :- NS3SrcStep(s, ins, outs); Ok((NS3SrcV(s'), i, o))
    case NS3SnkV(q) => var (q', i, o) :- NS3SnkStep(q, ins, outs); Ok((NS3SnkV(q'), i, o))
  }

  /** `node.setup(reg_socks)`: the node's state afterwards. A switch with an
      empty matcher raises; a counter and a deleter restart their count;
      an ns-3 bridge is handed a new, empty pipe and becomes ready; every
      other kind keeps the default, which does nothing. */
  function SetupSpec(v: NodeVal): Result<NodeVal> {
    match v
    case SwitchV(s) => if SwitchSetup(s).Err? then Err(SwitchSetup(s).error) else Ok(v)
    case CounterV(_) => Ok(CounterV(0))
    case DelV(d) => Ok(DelV(d.(ctr := 0)))
    case NS3SrcV(_) => Ok(NS3SrcV(NS3SrcVal(true, Some([]))))
    case NS3SnkV(_) => Ok(NS3SnkV(Some([])))
    case _ => Ok(v)
  }

  /** Setting a node up twice is setting it up once, and only a switch
      refuses, with `RuntimeError`, exactly when it holds an empty matcher.
      A bridge that has been set up is ready (the source) or can send (the
      sink). */
  lemma SetupIdempotent(v: NodeVal)
    ensures SetupSpec(v).Err? <==> v.SwitchV? && "" in v.sw.matchers
    ensures SetupSpec(v).Err? ==> SetupSpec(v).error == RuntimeError
    ensures SetupSpec(v).Ok? ==> SetupSpec(SetupSpec(v).value) == SetupSpec(v)
    ensures SetupSpec(v).Ok? && v.NS3SrcV? ==> ReadySpec(SetupSpec(v).value, []) == Ok((true, SetupSpec(v).value))
    ensures SetupSpec(v).Ok? && v.NS3SnkV? ==> SetupSpec(v).value.sent.Some?
  {
  }

  /** `node.setup(reg_socks)` on the node object, once `reg_socks` has
      registered a bridge's pipe. */
  method SetupAny(n: AnyNode) returns (r: Result<()>)
    modifies n.Repr()
    ensures r.Ok? ==> SetupSpec(old(n.Val())) == Ok(n.Val())
    ensures r.Err? ==> SetupSpec(old(n.Val())) == Err(r.error)
  {
    r := Ok(());
    match n
    case Base(x) => x.Setup();
    case SwitchNode(x) => r := x.Setup();
    case CounterNode(x) => x.Setup();
    case DelNode(x) => x.Setup();
    case NS3SrcNode(x) => x.Setup();
    case NS3SnkNode(x) => x.Setup();
    case _ =>
  }

  /** A state `process` accepts only for a kind that overrides it, and it
      never changes the number of deques or output lists. */
  lemma ProcessKeepsPorts(v: NodeVal, ins: Inputs, outs: Outputs)
    requires ProcessSpec(v, ins, outs).Ok?
    ensures v != BaseV
    ensures |ProcessSpec(v, ins, outs).value.1| == |ins| && |ProcessSpec(v, ins, outs).value.2| == |outs|
  {
  }

  /** Only the dummy source's `is_ready` changes its node, and a node of a
      kind that does not override `is_ready` raises. */
  lemma ReadyKeepsState(v: NodeVal, ins: Inputs)
    ensures v == BaseV <==> ReadySpec(v, ins) == Err(NotImplementedError)
    ensures ReadySpec(v, ins).Ok? && !v.DummySrcV? ==> ReadySpec(v, ins).value.1 == v
  {
  }

  /** `node.is_ready(inputs)` on the node object. */
  method IsReadyAny(n: AnyNode, ins: Inputs) returns (r: Result<bool>)
    modifies n.Repr()
    ensures r.Ok? ==> ReadySpec(old(n.Val()), ins) == Ok((r.value, n.Val()))
    ensures r.Err? ==> ReadySpec(old(n.Val()), ins) == Err(r.error)
  {
    match n
    case Base(x) => r := x.IsReady(ins);
    case DeMuxNode(x) => r := x.IsReady(ins);
    case MuxNode(x) => r := x.IsReady(ins);
    case SwitchNode(x) => r := x.IsReady(ins);
    case CompNode(x) => r := x.IsReady(ins);
    case DummySrcNode(x) => r := x.IsReady(ins);
    case NullSnkNode(x) => r := x.IsReady(ins);
    case CounterNode(x) => r := x.IsReady(ins);
    case DelNode(x) => r := x.IsReady(ins);
    case RepeaterNode(x) => r := x.IsReady(ins);
    case NS3SrcNode(x) => r := x.IsReady(ins);
    case NS3SnkNode(x) => r := x.IsReady(ins);
  }

  /** `node.process(inputs, outputs)` on the node object; the new deques and
      output lists are returned. */
  method ProcessAny(n: AnyNode, ins: Inputs, outs: Outputs) returns (r: Result<(Inputs, Outputs)>)
    modifies n.Repr()
    ensures r.Ok? ==> ProcessSpec(old(n.Val()), ins, outs) == Ok((n.Val(), r.value.0, r.value.1))
    ensures r.Err? ==> ProcessSpec(old(n.Val()), ins, outs) == Err(r.error)
  {
    match n
    case Base(x) => r := x.Process(ins, outs);
    case DeMuxNode(x) => r := x.Process(ins, outs);
    case MuxNode(x) => r := x.Process(ins, outs);
    case SwitchNode(x) => r := x.Process(ins, outs);
    case CompNode(x) => r := x.Process(ins, outs);
    case DummySrcNode(x) => r := x.Process(ins, outs);
    case NullSnkNode(x) => r := x.Process(ins, outs);
    case CounterNode(x) => r := x.Process(ins, outs);
    case DelNode(x) => r := x.Process(ins, outs);
    case RepeaterNode(x) => r := x.Process(ins, outs);
    case NS3SrcNode(x) => r := x.Process(ins, outs);
    case NS3SnkNode(x) => r := x.Process(ins, outs);
  }

  /** `node.teardown()`: no modelled kind overrides the default, which does
      nothing. */
  method TeardownAny(n: AnyNode)
    ensures unchanged(n.Repr())
  {
    if n.Base? {
      n.base.Teardown();
    }
  }
}

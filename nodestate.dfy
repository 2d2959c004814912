/** The engine's per-node record: the node object with one input deque per
    input port and one output list per output port, and the operations the
    selector applies to a map of such records. */
module NodeStates {
  import opened Wrappers
  import opened BBPackets
  import opened RNodes
  import opened Nodes

  /** A node state as a value: the node's id, its kind-specific state, its
      input deques and its output lists. */
  datatype NS = NS(id: int, val: NodeVal, inputs: Inputs, outputs: Outputs)

  /** A new record whose node shares no object with the nodes of the other
      records keeps the records disjoint. */
  lemma DisjointAdd(nodes: map<int, NodeState>, k: int, ns: NodeState)
    requires Disjoint(nodes) && k !in nodes
    requires forall j :: j in nodes ==> nodes[j] != ns && nodes[j].node.Repr() !! ns.node.Repr()
    ensures Disjoint(nodes[k := ns])
  {
    var fs := Footprints(nodes[k := ns]);
    forall i, j | i in fs && j in fs && i != j ensures fs[i] !! fs[j] {
      if i != k && j != k {
        assert fs[i] == Footprints(nodes)[i] && fs[j] == Footprints(nodes)[j];
      } else {
        var o := if i == k then j else i;
        RecordOutsideNode(ns, nodes[o].node);
        RecordOutsideNode(nodes[o], ns.node);
      }
    }
  }

  /** `pp.nodes` as a value. */
  type Sys = map<int, NS>

  /** `n` empty deques or lists. */
  function Empties(n: nat): (r: seq<seq<BBPacket>>)
    ensures |r| == n && forall i :: 0 <= i < n ==> r[i] == []
  {
    seq(n, _ => [])
  }

  /** `is_ready` on one record: the node's answer for the record's own
      deques, and the record afterwards (only the node's state may change). */
  function NSReady(x: NS): (r: Result<(bool, NS)>)
    ensures r.Ok? ==> r.value.1 == x.(val := r.value.1.val)
  {
    var (b, v) :- ReadySpec(x.val, x.inputs);
    Ok((b, x.(val := v)))
  }

  /** `process` on one record: the node's step on the record's own deques
      and lists. */
  function NSProcess(x: NS): (r: Result<NS>)
    ensures r.Ok? ==> r.value.id == x.id && |r.value.inputs| == |x.inputs| && |r.value.outputs| == |x.outputs|
  {
    var (v, ins, outs) :- ProcessSpec(x.val, x.inputs, x.outputs);
    ProcessKeepsPorts(x.val, x.inputs, x.outputs);
    Ok(NS(x.id, v, ins, outs))
  }

  class NodeState {
    const node: AnyNode
    var inputs: Inputs
    var outputs: Outputs

    /** The record and what its node may change. */
    function Repr(): set<object> {
      {this} + node.Repr()
    }

    function Abs(): NS
      reads Repr()
    {
      NS(node.Id(), node.Val(), inputs, outputs)
    }

    /** `NodeState(node)`: `nr_inputs` empty deques and `nr_outputs` empty
        lists, built one by one (`range` of a negative count builds none). */
    constructor(node: AnyNode)
      ensures this.node == node
      ensures inputs == Empties(Count(node.NrInputs()))
      ensures outputs == Empties(Count(node.NrOutputs()))
    {
      this.node := node;
      var ins: Inputs := [];
      var i := 0;
      while i < node.NrInputs()
        invariant 0 <= i <= Count(node.NrInputs())
        invariant ins == Empties(i)
      {
        ins := ins + [[]];
        i := i + 1;
      }
      var outs: Outputs := [];
      var j := 0;
      while j < node.NrOutputs()
        invariant 0 <= j <= Count(node.NrOutputs())
        invariant outs == Empties(j)
      {
        outs := outs + [[]];
        j := j + 1;
      }
      inputs := ins;
      outputs := outs;
    }

    /** `node_state.is_ready()`: the node's `is_ready` on this record's own
        deques. */
    method IsReady() returns (r: Result<bool>)
      modifies node.Repr()
      ensures r.Ok? ==> NSReady(old(Abs())) == Ok((r.value, Abs()))
      ensures r.Err? ==> NSReady(old(Abs())) == Err(r.error)
    {
      r := IsReadyAny(node, inputs);
    }

    /** `node_state.process()`: the node's `process` on this record's own
        deques and lists, which it changes. */
    method Process() returns (r: Result<()>)
      modifies Repr()
      ensures r.Ok? ==> NSProcess(old(Abs())) == Ok(Abs())
      ensures r.Err? ==> NSProcess(old(Abs())) == Err(r.error)
    {
      var res := ProcessAny(node, inputs, outputs);
      match res
      case Err(e) => r := Err(e);
      case Ok((ins, outs)) =>
        inputs := ins;
        outputs := outs;
        r := Ok(());
    }
  }

  /** A record is not one of the objects a node owns. */
  lemma RecordOutsideNode(ns: NodeState, n: AnyNode)
    ensures ns !in n.Repr()
  {
  }

  /** The footprint of each record. */
  function Footprints(nodes: map<int, NodeState>): (r: map<int, set<object>>)
    ensures r.Keys == nodes.Keys
  {
    map k | k in nodes :: nodes[k].Repr()
  }

  /** Every object in some footprint. */
  function Union(fs: map<int, set<object>>): set<object> {
    set k, o | k in fs && o in fs[k] :: o
  }

  /** Every object a record of `nodes` owns. */
  function NodesRepr(nodes: map<int, NodeState>): set<object> {
    Union(Footprints(nodes))
  }

  /** The objects the records own all exist already, so no object created
      later is one of them. */
  lemma NodesAllocated(nodes: map<int, NodeState>)
    ensures forall o :: o in NodesRepr(nodes) ==> allocated(o)
  {
    var fs := Footprints(nodes);
    forall k | k in nodes ensures forall o :: o in fs[k] ==> allocated(o) {
      var n := nodes[k].node;
      assert fs[k] == {nodes[k]} + n.Repr();
      match n
      case NS3SrcNode(x) => assert n.Repr() == {x, x.pipe};
      case NS3SnkNode(x) => assert n.Repr() == {x, x.pipe};
      case _ => assert n.Repr() == {n.Obj()};
    }
  }


  /** Distinct keys own disjoint footprints. */
  predicate DisjointFs(fs: map<int, set<object>>) {
    forall j, k :: j in fs && k in fs && j != k ==> fs[j] !! fs[k]
  }

  /** No two keys share a record, a node object or a pipe. */
  predicate Disjoint(nodes: map<int, NodeState>) {
    DisjointFs(Footprints(nodes))
  }

  /** `pp.nodes` as a value. */
  function NodesAbs(nodes: map<int, NodeState>): (s: Sys)
    reads NodesRepr(nodes)
    ensures s.Keys == nodes.Keys
  {
    map k | k in nodes :: nodes[k].Abs()
  }

  /** A record's footprint lies inside the footprint of the whole map. */
  lemma InNodesRepr(nodes: map<int, NodeState>, k: int)
    requires k in nodes
    ensures nodes[k].Repr() <= NodesRepr(nodes)
  {
    var fs := Footprints(nodes);
    forall o | o in nodes[k].Repr() ensures o in Union(fs) {
      assert o in fs[k];
    }
  }

  /** Records that each match a value give the map's value. */
  lemma AbsFromPoints(nodes: map<int, NodeState>, s: Sys)
    requires s.Keys == nodes.Keys
    requires forall i :: i in nodes ==> nodes[i].Abs() == s[i]
    ensures NodesAbs(nodes) == s
  {
    var a := NodesAbs(nodes);
    forall i | i in a ensures a[i] == s[i] {
      assert a[i] == nodes[i].Abs();
    }
  }

  /** The same keys, node ids and port counts. */
  predicate SameShape(s: Sys, s': Sys) {
    s'.Keys == s.Keys &&
    forall k :: k in s ==> s'[k].id == s[k].id && |s'[k].inputs| == |s[k].inputs| && |s'[k].outputs| == |s[k].outputs|
  }

  /** `tgt_in.extend(items)` on input deque `j` of node `t`. */
  function ExtendAt(s: Sys, t: int, j: nat, items: seq<BBPacket>): (r: Sys)
    requires t in s && j < |s[t].inputs|
    ensures SameShape(s, r)
    ensures r[t].inputs[j] == s[t].inputs[j] + items
  {
    s[t := s[t].(inputs := s[t].inputs[j := s[t].inputs[j] + items])]
  }

  /** `items.clear()` on output list `idx` of node `k`. */
  function ClearAt(s: Sys, k: int, idx: nat): (r: Sys)
    requires k in s && idx < |s[k].outputs|
    ensures SameShape(s, r)
    ensures r[k].outputs[idx] == []
  {
    s[k := s[k].(outputs := s[k].outputs[idx := []])]
  }

  /** `pp.nodes[k].is_ready()`: the answer, and the nodes afterwards. */
  function ReadyAt(s: Sys, k: int): (r: Result<(bool, Sys)>)
    requires k in s
    ensures r.Ok? ==> SameShape(s, r.value.1)
    ensures r.Ok? ==> forall i :: i in s ==> r.value.1[i].inputs == s[i].inputs && r.value.1[i].outputs == s[i].outputs
  {
    var (b, x) :- NSReady(s[k]);
    Ok((b, s[k := x]))
  }

  /** `pp.nodes[k].process()`: the nodes afterwards. */
  function ProcessAt(s: Sys, k: int): (r: Result<Sys>)
    requires k in s
    ensures r.Ok? ==> SameShape(s, r.value)
  {
    var x :- NSProcess(s[k]);
    Ok(s[k := x])
  }

  /** `pp.nodes[k].node.setup(reg_socks)`: the nodes afterwards. */
  function SetupAt(s: Sys, k: int): (r: Result<Sys>)
    requires k in s
    ensures r.Ok? ==> SameShape(s, r.value)
    ensures r.Ok? ==> forall i :: i in s ==> r.value[i].inputs == s[i].inputs && r.value[i].outputs == s[i].outputs
    ensures r.Ok? ==> forall i :: i in s && i != k ==> r.value[i] == s[i]
  {
    var v :- SetupSpec(s[k].val);
    Ok(s[k := s[k].(val := v)])
  }

  /** `pp.nodes[t].inputs[j].extend(items)`. */
  method Extend(nodes: map<int, NodeState>, t: int, j: nat, items: seq<BBPacket>)
    requires Disjoint(nodes) && t in nodes && j < |nodes[t].inputs|
    modifies nodes[t]
    ensures NodesAbs(nodes) == ExtendAt(old(NodesAbs(nodes)), t, j, items)
  {
    ghost var fs := Footprints(nodes);
    ghost var s := NodesAbs(nodes);
    var ns := nodes[t];
    ns.inputs := ns.inputs[j := ns.inputs[j] + items];
    forall i | i in nodes
      ensures nodes[i].Abs() == ExtendAt(s, t, j, items)[i]
    {
      if i != t {
        assert fs[t] !! fs[i];
      }
    }
    AbsFromPoints(nodes, ExtendAt(s, t, j, items));
  }

  /** `items.clear()` on output list `idx` of `pp.nodes[k]`. */
  method Clear(nodes: map<int, NodeState>, k: int, idx: nat)
    requires Disjoint(nodes) && k in nodes && idx < |nodes[k].outputs|
    modifies nodes[k]
    ensures NodesAbs(nodes) == ClearAt(old(NodesAbs(nodes)), k, idx)
  {
    ghost var fs := Footprints(nodes);
    ghost var s := NodesAbs(nodes);
    var ns := nodes[k];
    ns.outputs := ns.outputs[idx := []];
    forall i | i in nodes
      ensures nodes[i].Abs() == ClearAt(s, k, idx)[i]
    {
      if i != k {
        assert fs[k] !! fs[i];
      }
    }
    AbsFromPoints(nodes, ClearAt(s, k, idx));
  }

  /** The records other than `k` own none of the objects record `k` owns. */
  lemma OthersOutside(nodes: map<int, NodeState>, k: int)
    requires Disjoint(nodes) && k in nodes
    ensures NodesRepr(nodes - {k}) !! nodes[k].Repr()
  {
    var fs := Footprints(nodes);
    forall o | o in NodesRepr(nodes - {k}) ensures o !in nodes[k].Repr() {
      var i :| i in nodes - {k} && o in nodes[i].Repr();
      assert fs[i] !! fs[k];
    }
  }

  /** The records as values: those other than `k`, and `k`'s. */
  lemma AbsSplit(nodes: map<int, NodeState>, k: int)
    requires k in nodes
    ensures NodesAbs(nodes) == NodesAbs(nodes - {k})[k := nodes[k].Abs()]
  {
  }

  /** `pp.nodes[k].is_ready()` on the records. */
  method ReadyOf(nodes: map<int, NodeState>, k: int) returns (r: Result<bool>)
    requires Disjoint(nodes) && k in nodes
    modifies nodes[k].node.Repr()
    ensures r.Ok? ==> ReadyAt(old(NodesAbs(nodes)), k) == Ok((r.value, NodesAbs(nodes)))
    ensures r.Err? ==> ReadyAt(old(NodesAbs(nodes)), k) == Err(r.error)
  {
    ghost var so := NodesAbs(nodes - {k});
    OthersOutside(nodes, k);
    NodesAllocated(nodes - {k});
    AbsSplit(nodes, k);
    ghost var s := NodesAbs(nodes);
    var ns := nodes[k];
    r := ns.IsReady();
    assert NodesAbs(nodes - {k}) == so;
    AbsSplit(nodes, k);
    assert s[k := ns.Abs()] == so[k := ns.Abs()];
  }

  /** `pp.nodes[k].node.setup(reg_socks)` on the records. */
  method SetupOf(nodes: map<int, NodeState>, k: int) returns (r: Result<()>)
    requires Disjoint(nodes) && k in nodes
    modifies nodes[k].node.Repr()
    ensures r.Ok? ==> SetupAt(old(NodesAbs(nodes)), k) == Ok(NodesAbs(nodes))
    ensures r.Err? ==> SetupAt(old(NodesAbs(nodes)), k) == Err(r.error)
  {
    ghost var so := NodesAbs(nodes - {k});
    OthersOutside(nodes, k);
    NodesAllocated(nodes - {k});
    AbsSplit(nodes, k);
    ghost var s := NodesAbs(nodes);
    var ns := nodes[k];
    RecordOutsideNode(ns, ns.node);
    r := SetupAny(ns.node);
    assert ns.inputs == s[k].inputs && ns.outputs == s[k].outputs;
    assert NodesAbs(nodes - {k}) == so;
    AbsSplit(nodes, k);
    assert s[k := ns.Abs()] == so[k := ns.Abs()];
  }

  /** `pp.nodes[k].process()` on the records. */
  method ProcessOf(nodes: map<int, NodeState>, k: int) returns (r: Result<()>)
    requires Disjoint(nodes) && k in nodes
    modifies nodes[k].Repr()
    ensures r.Ok? ==> ProcessAt(old(NodesAbs(nodes)), k) == Ok(NodesAbs(nodes))
    ensures r.Err? ==> ProcessAt(old(NodesAbs(nodes)), k) == Err(r.error)
  {
    ghost var so := NodesAbs(nodes - {k});
    OthersOutside(nodes, k);
    NodesAllocated(nodes - {k});
    AbsSplit(nodes, k);
    ghost var s := NodesAbs(nodes);
    var ns := nodes[k];
    r := ns.Process();
    assert NodesAbs(nodes - {k}) == so;
    AbsSplit(nodes, k);
    assert s[k := ns.Abs()] == so[k := ns.Abs()];
  }
}

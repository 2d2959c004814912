/** `NodeManager` (`nodemanager.py`): the editor's registry of the nodes on a
    plane, reachable both by their node id in the dataflow graph and by the
    id of their widget in the GUI (the "dpg id"). */
module NodeManagement {
  import opened Wrappers

  /** What the registry reads of an editor node: its two ids. `kind` stands
      for the rest of the node (its type name). */
  datatype INode = INode(nodeId: int, dpgId: int, kind: string)

  /** The two maps hold the same nodes, each filed under its own ids. */
  predicate InStep(byDpg: map<int, INode>, byNodeId: map<int, INode>) {
    (forall d :: d in byDpg ==>
      byDpg[d].dpgId == d && byDpg[d].nodeId in byNodeId && byNodeId[byDpg[d].nodeId] == byDpg[d]) &&
    (forall k :: k in byNodeId ==>
      byNodeId[k].nodeId == k && byNodeId[k].dpgId in byDpg && byDpg[byNodeId[k].dpgId] == byNodeId[k])
  }

  /** Filing a node under two ids that are both unused keeps the maps in step. */
  lemma AddKeepsInStep(byDpg: map<int, INode>, byNodeId: map<int, INode>, n: INode)
    requires InStep(byDpg, byNodeId) && n.dpgId !in byDpg && n.nodeId !in byNodeId
    ensures InStep(byDpg[n.dpgId := n], byNodeId[n.nodeId := n])
  {
    var d', k' := byDpg[n.dpgId := n], byNodeId[n.nodeId := n];
    forall d | d in d'
      ensures d'[d].dpgId == d && d'[d].nodeId in k' && k'[d'[d].nodeId] == d'[d]
    {
      if d != n.dpgId {
        assert byDpg[d].nodeId != n.nodeId;
      }
    }
    forall k | k in k'
      ensures k'[k].nodeId == k && k'[k].dpgId in d' && d'[k'[k].dpgId] == k'[k]
    {
      if k != n.nodeId {
        assert byNodeId[k].dpgId != n.dpgId;
      }
    }
  }

  /** Filing a node under a node id that is in use, with a new dpg id, leaves
      the node it replaces reachable by its dpg id: `add_node` keeps the maps
      in step only when its caller has picked a free node id. */
  lemma AddTakenIdBreaksStep()
    ensures var old1 := INode(0, 10, "Dummy");
            var new1 := INode(0, 11, "Dummy");
            InStep(map[10 := old1], map[0 := old1]) &&
            !InStep(map[10 := old1][11 := new1], map[0 := old1][0 := new1])
  {
    var old1 := INode(0, 10, "Dummy");
    var new1 := INode(0, 11, "Dummy");
    var d' := map[10 := old1][11 := new1];
    var k' := map[0 := old1][0 := new1];
    assert 10 in d' && d'[10].nodeId == 0 && k'[0] != d'[10];
  }

  /** Removing a node from both maps keeps them in step. */
  lemma RemoveKeepsInStep(byDpg: map<int, INode>, byNodeId: map<int, INode>, d: int)
    requires InStep(byDpg, byNodeId) && d in byDpg
    ensures InStep(byDpg - {d}, byNodeId - {byDpg[d].nodeId})
  {
    var n := byDpg[d];
    var d', k' := byDpg - {d}, byNodeId - {n.nodeId};
    forall e | e in d'
      ensures d'[e].dpgId == e && d'[e].nodeId in k' && k'[d'[e].nodeId] == d'[e]
    {
      assert byDpg[e].nodeId != n.nodeId;
    }
    forall k | k in k'
      ensures k'[k].nodeId == k && k'[k].dpgId in d' && d'[k'[k].dpgId] == k'[k]
    {
      assert byNodeId[k].dpgId != d;
    }
  }

  /** A set holding every integer below `m` has at least `m` elements. */
  lemma {:induction false} RangeCard(s: set<int>, m: nat)
    requires forall i :: 0 <= i < m ==> i in s
    ensures |s| >= m
  {
    if m > 0 {
      RangeCard(s - {m - 1}, m - 1);
    }
  }

  /** The entry `items` yields for a node. */
  function Entry(n: INode): ((int, int), INode) {
    ((n.nodeId, n.dpgId), n)
  }

  class NodeManager {
    var byDpg: map<int, INode>
    var byNodeId: map<int, INode>
    /** The keys of `byNodeId` in the dict's insertion order. */
    var keyOrder: seq<int>

    /** `keyOrder` lists every key of `byNodeId` once. */
    ghost predicate Ordered()
      reads this
    {
      NoDup(keyOrder) && (forall i :: 0 <= i < |keyOrder| ==> keyOrder[i] in byNodeId) &&
      forall k :: k in byNodeId ==> k in keyOrder
    }

    ghost predicate Valid()
      reads this
    {
      InStep(byDpg, byNodeId)
    }

    constructor()
      ensures byDpg == map[] && byNodeId == map[] && Ordered() && Valid()
    {
      byDpg := map[];
      byNodeId := map[];
      keyOrder := [];
    }

    /** `is_node_id_free`. */
    predicate IsNodeIdFree(nodeId: int)
      reads this
    {
      nodeId !in byNodeId
    }

    /** `get_dpg`: `KeyError` for an unknown dpg id; in a registry in step,
        the node found is also filed under its node id. */
    function GetDpg(dpgId: int): (r: Result<INode>)
      reads this
      ensures r.Err? <==> dpgId !in byDpg
      ensures r.Err? ==> r.error == KeyError
      ensures Valid() && r.Ok? ==> r.value.dpgId == dpgId && !IsNodeIdFree(r.value.nodeId) && byNodeId[r.value.nodeId] == r.value
    {
      if dpgId in byDpg then Ok(byDpg[dpgId]) else Err(KeyError)
    }

    /** `get_node_id`: `KeyError` for an unknown node id; in a registry in
        step, the node found is also filed under its dpg id. */
    function GetNodeId(nodeId: int): (r: Result<INode>)
      reads this
      ensures r.Err? <==> IsNodeIdFree(nodeId)
      ensures r.Err? ==> r.error == KeyError
      ensures Valid() && r.Ok? ==> r.value.nodeId == nodeId && r.value.dpgId in byDpg && byDpg[r.value.dpgId] == r.value
    {
      if nodeId in byNodeId then Ok(byNodeId[nodeId]) else Err(KeyError)
    }

    /** `add_node`: the node is filed under both of its ids, replacing what
        was filed there. */
    method AddNode(inode: INode)
      requires Ordered()
      modifies this
      ensures Ordered() && keyOrder == old(if inode.nodeId in byNodeId then keyOrder else keyOrder + [inode.nodeId])
      ensures byNodeId == old(byNodeId)[inode.nodeId := inode] && byDpg == old(byDpg)[inode.dpgId := inode]
      ensures GetDpg(inode.dpgId) == Ok(inode) && GetNodeId(inode.nodeId) == Ok(inode)
      ensures !IsNodeIdFree(inode.nodeId)
      ensures old(Valid()) && old(IsNodeIdFree(inode.nodeId)) && inode.dpgId !in old(byDpg) ==> Valid()
    {
      if Valid() && IsNodeIdFree(inode.nodeId) && inode.dpgId !in byDpg {
        AddKeepsInStep(byDpg, byNodeId, inode);
      }
      if inode.nodeId !in byNodeId {
        keyOrder := keyOrder + [inode.nodeId];
      }
      byNodeId := byNodeId[inode.nodeId := inode];
      byDpg := byDpg[inode.dpgId := inode];
    }

    /** `rem_dpg`: the node filed under `dpgId` is removed from both maps. An
        unknown dpg id raises `KeyError` before anything changes; a node
        missing from the node-id map raises `KeyError` after its dpg entry
        is gone. */
    method RemDpg(dpgId: int) returns (r: Result<()>)
      requires Ordered()
      modifies this
      ensures Ordered()
      ensures dpgId !in old(byDpg) ==> r == Err(KeyError) && byDpg == old(byDpg) && byNodeId == old(byNodeId)
      ensures dpgId in old(byDpg) ==> byDpg == old(byDpg) - {dpgId}
      ensures dpgId in old(byDpg) && r.Ok? ==> keyOrder == Without(old(keyOrder), old(byDpg)[dpgId].nodeId)
      ensures r.Err? ==> keyOrder == old(keyOrder)
      ensures dpgId in old(byDpg) && old(byDpg)[dpgId].nodeId in old(byNodeId) ==>
        r == Ok(()) && byNodeId == old(byNodeId) - {old(byDpg)[dpgId].nodeId}
      ensures dpgId in old(byDpg) && old(byDpg)[dpgId].nodeId !in old(byNodeId) ==>
        r == Err(KeyError) && byNodeId == old(byNodeId)
      ensures old(Valid()) ==> Valid() && (r.Ok? <==> dpgId in old(byDpg)) && GetDpg(dpgId).Err?
      ensures old(Valid()) && dpgId in old(byDpg) ==> IsNodeIdFree(old(byDpg)[dpgId].nodeId)
    {
      if dpgId !in byDpg {
        return Err(KeyError);
      }
      var nodeId := byDpg[dpgId].nodeId;
      if Valid() {
        RemoveKeepsInStep(byDpg, byNodeId, dpgId);
      }
      byDpg := byDpg - {dpgId};
      if nodeId !in byNodeId {
        return Err(KeyError);
      }
      byNodeId := byNodeId - {nodeId};
      keyOrder := Without(keyOrder, nodeId);
      r := Ok(());
    }

    /** `rem_node_id`: the node filed under `nodeId` is removed from both
        maps. An unknown node id, or a dpg id missing from the dpg map,
        raises `KeyError` before anything changes. */
    method RemNodeId(nodeId: int) returns (r: Result<()>)
      requires Ordered()
      modifies this
      ensures Ordered()
      ensures nodeId !in old(byNodeId) ==> r == Err(KeyError) && byDpg == old(byDpg) && byNodeId == old(byNodeId)
      ensures nodeId in old(byNodeId) && old(byNodeId)[nodeId].dpgId !in old(byDpg) ==>
        r == Err(KeyError) && byDpg == old(byDpg) && byNodeId == old(byNodeId)
      ensures nodeId in old(byNodeId) && old(byNodeId)[nodeId].dpgId in old(byDpg) ==>
        r == Ok(()) && byDpg == old(byDpg) - {old(byNodeId)[nodeId].dpgId} && byNodeId == old(byNodeId) - {nodeId}
      ensures keyOrder == if r.Ok? then Without(old(keyOrder), nodeId) else old(keyOrder)
      ensures old(Valid()) ==> Valid() && (r.Ok? <==> nodeId in old(byNodeId)) && IsNodeIdFree(nodeId)
      ensures old(Valid()) && nodeId in old(byNodeId) ==> GetDpg(old(byNodeId)[nodeId].dpgId).Err?
    {
      if nodeId !in byNodeId {
        return Err(KeyError);
      }
      var dpgId := byNodeId[nodeId].dpgId;
      if dpgId !in byDpg {
        return Err(KeyError);
      }
      if Valid() {
        RemoveKeepsInStep(byDpg, byNodeId, dpgId);
      }
      byDpg := byDpg - {dpgId};
      byNodeId := byNodeId - {nodeId};
      keyOrder := Without(keyOrder, nodeId);
      r := Ok(());
    }

    /** `values`: the nodes of the node-id map in its key order. */
    method Values() returns (r: seq<INode>)
      requires Ordered()
      ensures |r| == |keyOrder| && forall i :: 0 <= i < |r| ==> r[i] == byNodeId[keyOrder[i]]
    {
      r := [];
      for i := 0 to |keyOrder|
        invariant |r| == i && forall j :: 0 <= j < i ==> r[j] == byNodeId[keyOrder[j]]
      {
        r := r + [byNodeId[keyOrder[i]]];
      }
    }

    /** `items`: for every key of the node-id map, in its order, the pair of
        the node's ids and the node. In a registry in step, both ids find
        the node again. */
    method Items() returns (r: seq<((int, int), INode)>)
      requires Ordered()
      ensures |r| == |keyOrder| && forall i :: 0 <= i < |r| ==> r[i] == Entry(byNodeId[keyOrder[i]])
      ensures Valid() ==> forall i :: 0 <= i < |r| ==>
        r[i].0.0 == keyOrder[i] && GetNodeId(r[i].0.0) == Ok(r[i].1) && GetDpg(r[i].0.1) == Ok(r[i].1)
    {
      r := [];
      for i := 0 to |keyOrder|
        invariant |r| == i && forall j :: 0 <= j < i ==> r[j] == Entry(byNodeId[keyOrder[j]])
      {
        r := r + [Entry(byNodeId[keyOrder[i]])];
      }
    }

    /** `cpy_node_id_dict`: the node-id map as a value of its own, which no
        later change to the registry reaches. */
    method CpyNodeIdDict() returns (m: map<int, INode>)
      ensures m == byNodeId
    {
      m := byNodeId;
    }

    /** `get_free_node_id`: the smallest non-negative node id not in use. */
    method GetFreeNodeId() returns (r: nat)
      ensures IsNodeIdFree(r)
      ensures forall i :: 0 <= i < r ==> !IsNodeIdFree(i)
    {
      var nodeIds := byNodeId.Keys;
      r := 0;
      while r in nodeIds
        invariant r <= |nodeIds|
        invariant forall i :: 0 <= i < r ==> i in nodeIds
        decreases |nodeIds| - r
      {
        RangeCard(nodeIds, r + 1);
        r := r + 1;
      }
    }
  }
}

/** `JNode` (`jnode.py`): one node of the editor's JSON Graph Format export.
    An editor node is exported as one `JNode` for itself and one per input
    and output port (an "attr" node); `from_jgf` reads an entry back. */
module JNodes {
  import opened Wrappers
  import opened Jgf

  datatype JNode = JNode(nodeId: int, nodeLabel: string, nodeType: string, position: seq<int>,
                         addMetadata: map<string, Json>)

  /** The `metadata` object of an exported node. */
  function MetadataJson(n: JNode): Json {
    JObj(map[KeyId := JInt(n.nodeId), KeyType := JStr(n.nodeType), KeyPosition := IntsJson(n.position),
             KeyAddMetadata := JObj(n.addMetadata)])
  }

  /** `to_jgf`: a dict with the single key `node_id`, whose entry holds the
      label and the metadata (id, type, position, node-specific metadata). */
  function ToJgf(n: JNode): (r: map<int, Json>)
    ensures r.Keys == {n.nodeId}
    ensures r[n.nodeId].JObj? && r[n.nodeId].fields.Keys == {KeyLabel, KeyMetadata}
    ensures r[n.nodeId].fields[KeyMetadata].JObj?
    ensures r[n.nodeId].fields[KeyMetadata].fields.Keys == {KeyId, KeyType, KeyPosition, KeyAddMetadata}
  {
    map[n.nodeId := JObj(map[KeyLabel := JStr(n.nodeLabel), KeyMetadata := MetadataJson(n)])]
  }

  /** `from_jgf` on one entry of the exported dict: the lookups in the order
      the constructor call makes them. */
  function FromJgf(jgf: Json): (r: Result<JNode>)
    ensures r.Err? && jgf.JObj? && KeyMetadata !in jgf.fields ==> r.error == KeyError
    ensures !jgf.JObj? ==> r == Err(TypeError)
  {
    var meta :- Get(jgf, KeyMetadata);
    var id :- Get(meta, KeyId);
    var lbl :- Get(jgf, KeyLabel);
    var ty :- Get(meta, KeyType);
    var pos :- Get(meta, KeyPosition);
    var add :- Get(meta, KeyAddMetadata);
    var nodeId :- AsInt(id);
    var l :- AsStr(lbl);
    var t :- AsStr(ty);
    var p :- AsInts(pos);
    var a :- AsDict(add);
    Ok(JNode(nodeId, l, t, p, a))
  }

  /** `JNode.from_jgf(n.to_jgf()[n.node_id]) == n` for every node. */
  lemma RoundTrip(n: JNode)
    ensures FromJgf(ToJgf(n)[n.nodeId]) == Ok(n)
  {
    IntsRoundTrip(n.position);
  }

  /** An entry holding exactly the keys `to_jgf` writes is the export of the
      node `from_jgf` reads from it. */
  lemma FromJgfToJgf(j: Json, n: JNode)
    requires FromJgf(j) == Ok(n)
    requires j.JObj? && j.fields.Keys == {KeyLabel, KeyMetadata}
    requires j.fields[KeyMetadata].JObj?
    requires j.fields[KeyMetadata].fields.Keys == {KeyId, KeyType, KeyPosition, KeyAddMetadata}
    ensures ToJgf(n)[n.nodeId] == j
  {
    var meta := j.fields[KeyMetadata];
    var pos := meta.fields[KeyPosition];
    assert pos.JList?;
    assert pos.items == IntsJson(n.position).items;
    assert meta.fields == MetadataJson(n).fields;
    assert j.fields == ToJgf(n)[n.nodeId].fields;
  }

  /** The right operand of `==`: a `JNode` or some other object. */
  datatype Operand = AJNode(n: JNode) | NotAJNode

  datatype EqResult = Equal(b: bool) | NotImplemented

  /** `__eq__`: the five fields compared one by one; another kind of object
      gets `NotImplemented`. */
  function Eq(a: JNode, other: Operand): (r: EqResult)
    ensures other.AJNode? ==> r == Equal(a == other.n)
    ensures other.NotAJNode? ==> r == NotImplemented
  {
    match other
    case NotAJNode => NotImplemented
    case AJNode(o) =>
      Equal(a.nodeId == o.nodeId && a.nodeLabel == o.nodeLabel && a.nodeType == o.nodeType &&
            a.position == o.position && a.addMetadata == o.addMetadata)
  }

  /** A Python dict the caller owns, as `init_attr` receives it. */
  class Dict {
    var entries: map<string, Json>

    constructor(entries: map<string, Json>)
      ensures this.entries == entries
    {
      this.entries := entries;
    }
  }

  /** The attr node `init_attr` builds for the port `attrId` of node `nodeId`
      from the metadata `meta`. */
  function AttrNode(nodeId: int, attrId: Json, meta: map<string, Json>): (r: JNode)
    ensures r.nodeId == nodeId && r.nodeLabel == AttrType && r.nodeType == AttrType && r.position == []
    ensures r.addMetadata.Keys == meta.Keys + {KeyAttrId} && r.addMetadata[KeyAttrId] == attrId
    ensures forall k :: k in meta && k != KeyAttrId ==> r.addMetadata[k] == meta[k]
  {
    JNode(nodeId, AttrType, AttrType, [], meta[KeyAttrId := attrId])
  }

  /** `init_attr(node_id, attr_id, add_metadata)`: without a dict a new one
      is made; a given dict gets `attr_id` added in place and is the one the
      node holds. */
  method InitAttr(nodeId: int, attrId: Json, addMetadata: Option<Dict>) returns (n: JNode, d: Dict)
    modifies if addMetadata.Some? then {addMetadata.value} else {}
    ensures addMetadata.Some? ==> d == addMetadata.value && n == AttrNode(nodeId, attrId, old(d.entries))
    ensures addMetadata.None? ==> fresh(d) && n == AttrNode(nodeId, attrId, map[])
    ensures d.entries == n.addMetadata
  {
    if addMetadata.None? {
      d := new Dict(map[]);
    } else {
      d := addMetadata.value;
    }
    d.entries := d.entries[KeyAttrId := attrId];
    n := JNode(nodeId, AttrType, AttrType, [], d.entries);
  }

  /** Read back from its export, an attr node still carries its port index,
      by which `INode.from_jgf` sorts the ports of a node. */
  lemma AttrIdSurvives(nodeId: int, attrId: Json, meta: map<string, Json>)
    ensures FromJgf(ToJgf(AttrNode(nodeId, attrId, meta))[nodeId]).Ok?
    ensures FromJgf(ToJgf(AttrNode(nodeId, attrId, meta))[nodeId]).value.addMetadata[KeyAttrId] == attrId
    ensures FromJgf(ToJgf(AttrNode(nodeId, attrId, meta))[nodeId]).value.nodeType == AttrType
  {
    RoundTrip(AttrNode(nodeId, attrId, meta));
  }
}

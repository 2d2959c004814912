/** The JSON values a JSON Graph Format (JGF) export of the editor is built
    from, Python's `d[key]` lookup on them, and the key names the editor's JGF
    records use (`jfgkeys.py`). */
module Jgf {
  import opened Wrappers

  /** A JSON value as Python holds it after `json.load`: numbers are integers
      here, objects are dicts with string keys. */
  datatype Json =
    | JInt(i: int)
    | JStr(s: string)
    | JList(items: seq<Json>)
    | JObj(fields: map<string, Json>)

  const KeyLabel := "label"
  const KeyMetadata := "metadata"
  const KeyId := "id"
  const KeyType := "type"
  const KeyPosition := "position"
  const KeyAddMetadata := "node_metadata"
  /** The label and type of the node that stands for one port of a node. */
  const AttrType := "attr"
  const KeyAttrId := "attr_id"
  const KeySource := "source"
  const KeyTarget := "target"
  const KeyRelation := "relation"

  /** `d[key]`: a dict without the key raises `KeyError`; a value that is not
      a dict cannot be indexed by a string and raises `TypeError`. */
  function Get(d: Json, key: string): (r: Result<Json>)
    ensures r.Ok? <==> d.JObj? && key in d.fields
    ensures r.Ok? ==> r.value == d.fields[key]
    ensures r.Err? ==> r.error == (if d.JObj? then KeyError else TypeError)
  {
    match d
    case JObj(fields) => if key in fields then Ok(fields[key]) else Err(KeyError)
    case _ => Err(TypeError)
  }

  /* The records below type their fields as the dataclasses' annotations do.
     Python stores whatever value a JGF file holds; a value of another kind
     cannot be held by the typed field and is reported as `TypeError`. */

  function AsInt(j: Json): (r: Result<int>)
    ensures r.Ok? <==> j.JInt?
  {
    if j.JInt? then Ok(j.i) else Err(TypeError)
  }

  function AsStr(j: Json): (r: Result<string>)
    ensures r.Ok? <==> j.JStr?
  {
    if j.JStr? then Ok(j.s) else Err(TypeError)
  }

  function AsDict(j: Json): (r: Result<map<string, Json>>)
    ensures r.Ok? <==> j.JObj?
  {
    if j.JObj? then Ok(j.fields) else Err(TypeError)
  }

  /** A list of integers. */
  function AsInts(j: Json): (r: Result<seq<int>>)
    ensures r.Ok? <==> j.JList? && forall i :: 0 <= i < |j.items| ==> j.items[i].JInt?
    ensures r.Ok? ==> |r.value| == |j.items| && forall i :: 0 <= i < |r.value| ==> j.items[i] == JInt(r.value[i])
  {
    if j.JList? && forall i :: 0 <= i < |j.items| ==> j.items[i].JInt? then
      Ok(seq(|j.items|, i requires 0 <= i < |j.items| => j.items[i].i))
    else
      Err(TypeError)
  }

  /** The JSON list of a list of integers. */
  function IntsJson(p: seq<int>): (r: Json)
    ensures r.JList? && |r.items| == |p| && forall i :: 0 <= i < |p| ==> r.items[i] == JInt(p[i])
  {
    JList(seq(|p|, i requires 0 <= i < |p| => JInt(p[i])))
  }

  lemma IntsRoundTrip(p: seq<int>)
    ensures AsInts(IntsJson(p)) == Ok(p)
  {
    var r := AsInts(IntsJson(p));
    assert r.Ok?;
    assert r.value == p;
  }
}

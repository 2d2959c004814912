/** `JEdge` (`jedge.py`): one edge of the editor's JSON Graph Format export.
    JGF refers to nodes by string ids, so the edge stores its source and
    target node ids as decimal strings and reads them back with `int`. */
module JEdges {
  import opened Wrappers
  import opened Decimal
  import opened Jgf

  datatype JEdge = JEdge(source: int, target: int, relation: string)

  /** `to_jgf`: a dict with the keys `source`, `target` and `relation`. */
  function ToJgf(e: JEdge): (r: Json)
    ensures r.JObj? && r.fields.Keys == {KeySource, KeyTarget, KeyRelation}
    ensures r.fields[KeyRelation] == JStr(e.relation)
  {
    JObj(map[KeySource := JStr(IntStr(e.source)), KeyTarget := JStr(IntStr(e.target)),
             KeyRelation := JStr(e.relation)])
  }

  /** Python's `int(x)` on a value read from JSON: an integer is kept, a
      string is parsed, anything else is a `TypeError`. */
  function PyInt(j: Json): (r: Result<int>)
    ensures j.JInt? ==> r == Ok(j.i)
    ensures j.JList? || j.JObj? ==> r == Err(TypeError)
  {
    match j
    case JInt(i) => Ok(i)
    case JStr(s) => ParseInt(s)
    case _ => Err(TypeError)
  }

  /** `from_jgf`: `int` of the source, `int` of the target, and the relation
      as it was stored. */
  function FromJgf(jgf: Json): (r: Result<JEdge>)
    ensures r.Ok? ==> jgf.JObj? && {KeySource, KeyTarget, KeyRelation} <= jgf.fields.Keys
    ensures r.Ok? ==> PyInt(jgf.fields[KeySource]) == Ok(r.value.source) && PyInt(jgf.fields[KeyTarget]) == Ok(r.value.target)
    ensures r.Ok? ==> jgf.fields[KeyRelation] == JStr(r.value.relation)
  {
    var s :- Get(jgf, KeySource);
    var source :- PyInt(s);
    var t :- Get(jgf, KeyTarget);
    var target :- PyInt(t);
    var rel :- Get(jgf, KeyRelation);
    var relation :- AsStr(rel);
    Ok(JEdge(source, target, relation))
  }

  /** `JEdge.from_jgf(e.to_jgf()) == e` for every edge. */
  lemma RoundTrip(e: JEdge)
    ensures FromJgf(ToJgf(e)) == Ok(e)
  {
    ParseIntStr(e.source);
    ParseIntStr(e.target);
  }

  /** Two edges with the same JGF record are the same edge. */
  lemma ToJgfInjective(e1: JEdge, e2: JEdge)
    requires ToJgf(e1) == ToJgf(e2)
    ensures e1 == e2
  {
    RoundTrip(e1);
    RoundTrip(e2);
  }
}

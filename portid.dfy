/** The address of one port of one node: the target of a link in the engine's
    link table, and its two text renderings. */
module PortIds {
  import opened Wrappers
  import opened Decimal

  datatype PortID = PortID(objId: int, port: int) {

    /** `str(p)`: `Node_ID.Port: <obj_id>.<port>`. */
    function Str(): (s: string)
      ensures ParseStr(s) == Some(this)
    {
      StrRoundTrip(this);
      StrPrefix + IntStr(objId) + "." + IntStr(port)
    }

    /** `repr(p)`: `PortID(<obj_id>,<port>)`, with no space after the comma. */
    function Repr(): (s: string)
      ensures ParseRepr(s) == Some(this)
    {
      ReprRoundTrip(this);
      "PortID(" + IntStr(objId) + "," + IntStr(port) + ")"
    }
  }

  const StrPrefix: string := "Node_ID.Port: "

  /** The position of the first `c` in `s`. */
  function IndexOf(s: string, c: char): (r: Option<nat>)
    ensures r.Some? ==> r.value < |s| && s[r.value] == c && c !in s[..r.value]
    ensures r.None? ==> c !in s
  {
    if s == [] then None
    else if s[0] == c then Some(0)
    else
      match IndexOf(s[1..], c)
      case None => None
      case Some(i) => assert s[..i + 1] == [s[0]] + s[1..][..i]; Some(i + 1)
  }

  /** Two integers written side by side with separator `c` between them. */
  function SplitInts(s: string, c: char): Option<(int, int)> {
    match IndexOf(s, c)
    case None => None
    case Some(i) =>
      match (ParseInt(s[..i]), ParseInt(s[i + 1..]))
      case (Ok(a), Ok(b)) => Some((a, b))
      case _ => None
  }

  /** Reads back the text `str` gives. */
  function ParseStr(s: string): Option<PortID> {
    if |s| >= |StrPrefix| && s[..|StrPrefix|] == StrPrefix then
      match SplitInts(s[|StrPrefix|..], '.')
      case Some((a, b)) => Some(PortID(a, b))
      case None => None
    else None
  }

  /** Reads back the text `repr` gives. */
  function ParseRepr(s: string): Option<PortID> {
    if |s| >= 8 && s[..7] == "PortID(" && s[|s| - 1] == ')' then
      match SplitInts(s[7..|s| - 1], ',')
      case Some((a, b)) => Some(PortID(a, b))
      case None => None
    else None
  }

  lemma {:induction false} IndexOfAfter(a: string, c: char, b: string)
    requires c !in a
    ensures IndexOf(a + [c] + b, c) == Some(|a|)
  {
    if a != [] {
      IndexOfAfter(a[1..], c, b);
      assert (a + [c] + b)[1..] == a[1..] + [c] + b;
    }
  }

  lemma SplitIntStr(i: int, c: char, j: int)
    requires c != '-' && !IsDigit(c)
    ensures SplitInts(IntStr(i) + [c] + IntStr(j), c) == Some((i, j))
  {
    var a := IntStr(i);
    var s := a + [c] + IntStr(j);
    assert c !in a;
    IndexOfAfter(a, c, IntStr(j));
    assert s[..|a|] == a;
    assert s[|a| + 1..] == IntStr(j);
    ParseIntStr(i);
    ParseIntStr(j);
  }

  lemma StrRoundTrip(p: PortID)
    ensures ParseStr(StrPrefix + IntStr(p.objId) + "." + IntStr(p.port)) == Some(p)
  {
    var s := StrPrefix + IntStr(p.objId) + "." + IntStr(p.port);
    assert s[..|StrPrefix|] == StrPrefix;
    assert s[|StrPrefix|..] == IntStr(p.objId) + ['.'] + IntStr(p.port);
    SplitIntStr(p.objId, '.', p.port);
  }

  lemma ReprRoundTrip(p: PortID)
    ensures ParseRepr("PortID(" + IntStr(p.objId) + "," + IntStr(p.port) + ")") == Some(p)
  {
    var s := "PortID(" + IntStr(p.objId) + "," + IntStr(p.port) + ")";
    assert s[..7] == "PortID(";
    assert s[7..|s| - 1] == IntStr(p.objId) + [','] + IntStr(p.port);
    SplitIntStr(p.objId, ',', p.port);
  }
}

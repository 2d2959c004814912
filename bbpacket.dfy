/** The engine's packet record and the wire protocol between the engine and the
    ns-3 connector: three frame kinds, their serialisers, the per-frame readers
    and the resumable decoders that split a byte stream into frames plus the
    undecoded remainder. All multi-byte integers are big-endian. */
module BBPackets {
  import opened Wrappers
  import opened Bytes

  /** A captured packet as the packet library holds it: its raw bytes, its
      capture time, and the dissected field values, looked up by
      (layer name, field name) and rendered as text. */
  datatype Frame = Frame(raw: seq<byte>, time: int, fields: map<(string, string), string>)

  /** How nodes see a packet: the frame, a timestamp, a drop flag and a
      metadata dictionary. */
  datatype BBPacket = BBPacket(frame: Frame, timestamp: int, dropped: bool, metadata: map<string, int>)

  /** `BBPacket(data, timestamp)` with the defaults: not dropped, and a fresh
      empty metadata dictionary when none is given. */
  function NewBBPacket(data: Frame, timestamp: int, metadata: Option<map<string, int>> := None): (p: BBPacket)
    ensures p.frame == data && p.timestamp == timestamp && !p.dropped
    ensures metadata.None? ==> p.metadata == map[]
    ensures metadata.Some? ==> p.metadata == metadata.value
  {
    BBPacket(data, timestamp, false, if metadata.Some? then metadata.value else map[])
  }

  const CmdPkt: byte := 1
  const CmdEod: byte := 2

  /** Fixed header lengths of the two data frames: tag, ns-3 node id, engine
      node id, delay, length (engine-bound); tag, delay, 17-byte MAC text,
      protocol, length (as the ns-3-bound reader expects them). */
  const Sim2BBHeader: nat := 1 + 4 + 4 + 8 + 4
  const BB2SimHeader: nat := 1 + 8 + 17 + 2 + 4

  datatype Msg =
    | EodMsg
    | MsgSim2BB(ns3NodeId: int, nodeId: int, delayNs: int, data: seq<byte>)
    | MsgBB2Sim(delayNs: int, data: seq<byte>, mac: seq<byte>, proto: seq<byte>)

  /** Which of the two decoders: frames arriving from ns-3, or frames bound for it. */
  datatype Direction = Sim2BB | BB2Sim

  /** A data frame whose fields fit their widths; the only ones `serialize` accepts. */
  predicate Fits(m: Msg) {
    match m
    case EodMsg => true
    case MsgSim2BB(ns3, nid, d, data) =>
      0 <= ns3 < Pow256(4) && 0 <= nid < Pow256(4) && 0 <= d < Pow256(8) && |data| < Pow256(4)
    case MsgBB2Sim(d, data, _, _) => 0 <= d < Pow256(8) && |data| < Pow256(4)
  }

  /** `serialize()` of each frame kind. An end-of-data frame is the single tag
      byte; an engine-bound data frame is tag, ns-3 node id (4), node id (4),
      delay (8), data length (4), data; an ns-3-bound data frame is tag,
      delay (8), the protocol bytes, data length (4), data, with no MAC field.
      A field that does not fit raises `OverflowError`. */
  function Serialize(m: Msg): (r: Result<seq<byte>>)
    ensures r.Ok? <==> Fits(m)
    ensures r.Err? ==> r.error == OverflowError
    ensures m.EodMsg? ==> r == Ok([CmdEod])
    ensures m.MsgSim2BB? && r.Ok? ==> |r.value| == Sim2BBHeader + |m.data| && r.value[0] == CmdPkt
    ensures m.MsgBB2Sim? && r.Ok? ==> |r.value| == 1 + 8 + |m.proto| + 4 + |m.data| && r.value[0] == CmdPkt
  {
    match m
    case EodMsg => Ok([CmdEod])
    case MsgSim2BB(ns3, nid, d, data) =>
      var a :- ToBytes(ns3, 4);
      var b :- ToBytes(nid, 4);
      var c :- ToBytes(d, 8);
      var l :- ToBytes(|data|, 4);
      Ok([CmdPkt] + a + b + c + l + data)
    case MsgBB2Sim(d, data, _, proto) =>
      var c :- ToBytes(d, 8);
      var l :- ToBytes(|data|, 4);
      Ok([CmdPkt] + c + proto + l + data)
  }

  /** The engine-bound data frame at the start of `s` and its length, or
      `MsgIncompleteError` when `s` does not yet hold all of it. */
  function ParseSim2BB(s: seq<byte>): (r: Result<(Msg, nat)>)
    ensures r.Ok? ==> Sim2BBHeader <= r.value.1 <= |s| && r.value.0.MsgSim2BB?
    ensures r.Err? ==> r.error == Incomplete
  {
    if |s| < Sim2BBHeader then Err(Incomplete)
    else
      var len := FromBE(s[17..21]);
      if Sim2BBHeader + len > |s| then Err(Incomplete)
      else Ok((MsgSim2BB(FromBE(s[1..5]), FromBE(s[5..9]), FromBE(s[9..17]), s[21..21 + len]),
               Sim2BBHeader + len))
  }

  /** The ns-3-bound data frame at the start of `s`, read with a 17-byte MAC
      field between the delay and the protocol. */
  function ParseBB2Sim(s: seq<byte>): (r: Result<(Msg, nat)>)
    ensures r.Ok? ==> BB2SimHeader <= r.value.1 <= |s| && r.value.0.MsgBB2Sim?
    ensures r.Err? ==> r.error == Incomplete
  {
    if |s| < BB2SimHeader then Err(Incomplete)
    else
      var len := FromBE(s[28..32]);
      if BB2SimHeader + len > |s| then Err(Incomplete)
      else Ok((MsgBB2Sim(FromBE(s[1..9]), s[32..32 + len], s[9..26], s[26..28]), BB2SimHeader + len))
  }

  /** The frame at the start of a non-empty `s`, chosen by its tag byte. */
  function ParseFrame(dir: Direction, s: seq<byte>): (r: Result<(Msg, nat)>)
    requires s != []
    ensures r.Ok? ==> 1 <= r.value.1 <= |s|
    ensures s[0] == CmdEod ==> r == Ok((EodMsg, 1))
    ensures s[0] == CmdPkt && r.Err? ==> r.error == Incomplete
    ensures s[0] != CmdEod && s[0] != CmdPkt ==> r == Err(NotImplementedError)
  {
    if s[0] == CmdEod then Ok((EodMsg, 1))
    else if s[0] == CmdPkt then (if dir == Sim2BB then ParseSim2BB(s) else ParseBB2Sim(s))
    else Err(NotImplementedError)
  }

  /** `buff2msgs(s)`: the frames of `s` in order and the remainder that holds
      the start of a frame not yet complete; an unknown tag raises
      `NotImplementedError`. */
  function Decode(dir: Direction, s: seq<byte>): (r: Result<(seq<Msg>, seq<byte>)>)
    decreases |s|
    ensures r.Err? ==> r.error == NotImplementedError
  {
    if s == [] then Ok(([], []))
    else
      match ParseFrame(dir, s)
      case Err(e) => if e == Incomplete then Ok(([], s)) else Err(e)
      case Ok((m, n)) =>
        var rest :- Decode(dir, s[n..]);
        Ok(([m] + rest.0, rest.1))
  }

  /** The remainder is a suffix of the input, and when not empty it starts with
      a data-frame tag whose frame is not complete yet. */
  lemma {:induction false} DecodeRemainder(dir: Direction, s: seq<byte>)
    requires Decode(dir, s).Ok?
    decreases |s|
    ensures var rem := Decode(dir, s).value.1;
      |rem| <= |s| && rem == s[|s| - |rem|..] &&
      (rem != [] ==> rem[0] == CmdPkt && ParseFrame(dir, rem) == Err(Incomplete))
  {
    if s != [] {
      var p := ParseFrame(dir, s);
      if p.Ok? {
        var n := p.value.1;
        DecodeRemainder(dir, s[n..]);
        var rem := Decode(dir, s[n..]).value.1;
        assert Decode(dir, s).value.1 == rem;
        assert s[n..][|s[n..]| - |rem|..] == s[|s| - |rem|..];
      }
    }
  }

  /** Frames `out` already decoded, in front of what decoding the rest gives. */
  function Prepend(out: seq<Msg>, r: Result<(seq<Msg>, seq<byte>)>): Result<(seq<Msg>, seq<byte>)> {
    match r
    case Ok((ms, rem)) => Ok((out + ms, rem))
    case Err(e) => Err(e)
  }

  /** Python's `s[i:j]` for `0 <= i <= j`: out-of-range ends are clamped. */
  function Slice(s: seq<byte>, i: nat, j: nat): (r: seq<byte>)
    requires i <= j
    ensures j <= |s| ==> r == s[i..j]
    ensures |r| <= j - i
  {
    var lo := if i < |s| then i else |s|;
    var hi := if j < |s| then j else |s|;
    s[lo..hi]
  }

  function Suffix(s: seq<byte>, ptr: nat): seq<byte> {
    if ptr <= |s| then s[ptr..] else []
  }

  function AtOffset(r: Result<(Msg, nat)>, ptr: nat): Result<(Msg, nat)> {
    match r
    case Ok((m, n)) => Ok((m, ptr + n))
    case Err(e) => Err(e)
  }

  /** `MsgSim2BB.buff2msg(buff, ptr)`: reads the fields one after another
      through clamped slices and only then checks that the frame was there. */
  method Sim2BBBuff2Msg(buff: seq<byte>, ptr0: nat) returns (r: Result<(Msg, nat)>)
    ensures r == AtOffset(ParseSim2BB(Suffix(buff, ptr0)), ptr0)
  {
    var ptr := ptr0;
    var cmd := FromBE(Slice(buff, ptr, ptr + 1));
    ptr := ptr + 1;
    var ns3NodeId := FromBE(Slice(buff, ptr, ptr + 4));
    ptr := ptr + 4;
    var nodeId := FromBE(Slice(buff, ptr, ptr + 4));
    ptr := ptr + 4;
    var delayNs := FromBE(Slice(buff, ptr, ptr + 8));
    ptr := ptr + 8;
    var length := FromBE(Slice(buff, ptr, ptr + 4));
    ptr := ptr + 4;
    var data := Slice(buff, ptr, ptr + length);
    ptr := ptr + length;
    if ptr > |buff| {
      Sim2BBShort(buff, ptr0, length);
      return Err(Incomplete);
    }
    Sim2BBWhole(buff, ptr0);
    r := Ok((MsgSim2BB(ns3NodeId, nodeId, delayNs, data), ptr));
  }

  /** A frame whose announced length runs past the end of `buff` is not
      there yet. */
  lemma Sim2BBShort(buff: seq<byte>, ptr0: nat, length: nat)
    requires ptr0 + Sim2BBHeader + length > |buff|
    requires ptr0 + Sim2BBHeader <= |buff| ==> length == FromBE(buff[ptr0 + 17..ptr0 + 21])
    ensures ParseSim2BB(Suffix(buff, ptr0)) == Err(Incomplete)
  {
    if ptr0 + Sim2BBHeader <= |buff| {
      assert buff[ptr0..][17..21] == buff[ptr0 + 17..ptr0 + 21];
    }
  }

  /** A whole frame at `ptr0` is read field by field from `buff` itself. */
  lemma Sim2BBWhole(buff: seq<byte>, ptr0: nat)
    requires ptr0 + Sim2BBHeader <= |buff|
    requires ptr0 + Sim2BBHeader + FromBE(buff[ptr0 + 17..ptr0 + 21]) <= |buff|
    ensures var len := FromBE(buff[ptr0 + 17..ptr0 + 21]);
      ParseSim2BB(Suffix(buff, ptr0)) ==
      Ok((MsgSim2BB(FromBE(buff[ptr0 + 1..ptr0 + 5]), FromBE(buff[ptr0 + 5..ptr0 + 9]),
                    FromBE(buff[ptr0 + 9..ptr0 + 17]), buff[ptr0 + 21..ptr0 + 21 + len]),
          Sim2BBHeader + len))
  {
    var s := buff[ptr0..];
    assert s[1..5] == buff[ptr0 + 1..ptr0 + 5];
    assert s[5..9] == buff[ptr0 + 5..ptr0 + 9];
    assert s[9..17] == buff[ptr0 + 9..ptr0 + 17];
    assert s[17..21] == buff[ptr0 + 17..ptr0 + 21];
    var len := FromBE(s[17..21]);
    assert s[21..21 + len] == buff[ptr0 + 21..ptr0 + 21 + len];
  }

  /** `MsgBB2Sim.buff2msg(buff, ptr)`, the same way with the MAC field. */
  method BB2SimBuff2Msg(buff: seq<byte>, ptr0: nat) returns (r: Result<(Msg, nat)>)
    ensures r == AtOffset(ParseBB2Sim(Suffix(buff, ptr0)), ptr0)
  {
    var ptr := ptr0;
    var cmd := FromBE(Slice(buff, ptr, ptr + 1));
    ptr := ptr + 1;
    var delayNs := FromBE(Slice(buff, ptr, ptr + 8));
    ptr := ptr + 8;
    var mac := Slice(buff, ptr, ptr + 17);
    ptr := ptr + 17;
    var proto := Slice(buff, ptr, ptr + 2);
    ptr := ptr + 2;
    var length := FromBE(Slice(buff, ptr, ptr + 4));
    ptr := ptr + 4;
    var data := Slice(buff, ptr, ptr + length);
    ptr := ptr + length;
    if ptr0 + BB2SimHeader <= |buff| {
      assert buff[ptr0..][28..32] == buff[ptr0 + 28..ptr0 + 32];
    }
    if ptr > |buff| {
      return Err(Incomplete);
    }
    var s := buff[ptr0..];
    assert s[1..9] == buff[ptr0 + 1..ptr0 + 9];
    assert s[9..26] == mac;
    assert s[26..28] == proto;
    assert s[28..32] == buff[ptr0 + 28..ptr0 + 32];
    assert s[32..32 + length] == data;
    r := Ok((MsgBB2Sim(delayNs, data, mac, proto), ptr));
  }

  /** `DecoderSim2BB.buff2msgs` and `DecoderBB2Sim.buff2msgs`: an offset `ptr` walks
      the buffer; each tag selects a frame reader; an incomplete frame ends the
      walk and leaves the bytes from its tag onward as the remainder. */
  method Buff2Msgs(dir: Direction, buff: seq<byte>) returns (r: Result<(seq<Msg>, seq<byte>)>)
    ensures r == Decode(dir, buff)
  {
    var out: seq<Msg> := [];
    var ptr: nat := 0;
    assert buff[0..] == buff;
    PrependNil(Decode(dir, buff));
    while ptr < |buff|
      invariant ptr <= |buff|
      invariant Decode(dir, buff) == Prepend(out, Decode(dir, buff[ptr..]))
      decreases |buff| - ptr
    {
      ghost var s := buff[ptr..];
      var cmd := FromBE(Slice(buff, ptr, ptr + 1));
      assert Slice(buff, ptr, ptr + 1) == [s[0]];
      FromBESingle(s[0]);
      var step: Result<(Msg, nat)>;
      if cmd == CmdEod as int {
        step := Ok((EodMsg, ptr + 1));
      } else if cmd == CmdPkt as int {
        if dir == Sim2BB {
          step := Sim2BBBuff2Msg(buff, ptr);
        } else {
          step := BB2SimBuff2Msg(buff, ptr);
        }
      } else {
        DecodeUnknown(dir, s);
        return Err(NotImplementedError);
      }
      assert step == AtOffset(ParseFrame(dir, s), ptr);
      if step.Err? {
        DecodeIncomplete(dir, s);
        assert out + [] == out;
        return Ok((out, buff[ptr..]));
      }
      var (msg, next) := step.value;
      DecodeOk(dir, s, msg, next - ptr);
      assert s[next - ptr..] == buff[next..];
      PrependAssoc(out, [msg], Decode(dir, buff[next..]));
      out := out + [msg];
      ptr := next;
    }
    assert buff[ptr..] == [] && out + [] == out;
    r := Ok((out, []));
  }

  lemma FromBESingle(b: byte)
    ensures FromBE([b]) == b
  {
    assert [b][..0] == [];
  }

  lemma DecodeOk(dir: Direction, s: seq<byte>, m: Msg, n: nat)
    requires s != [] && ParseFrame(dir, s) == Ok((m, n))
    ensures Decode(dir, s) == Prepend([m], Decode(dir, s[n..]))
  {
  }

  lemma DecodeIncomplete(dir: Direction, s: seq<byte>)
    requires s != [] && ParseFrame(dir, s) == Err(Incomplete)
    ensures Decode(dir, s) == Ok(([], s))
  {
  }

  lemma DecodeUnknown(dir: Direction, s: seq<byte>)
    requires s != [] && s[0] != CmdPkt && s[0] != CmdEod
    ensures Decode(dir, s) == Err(NotImplementedError)
  {
  }

  lemma PrependNil(r: Result<(seq<Msg>, seq<byte>)>)
    ensures Prepend([], r) == r
  {
    if r.Ok? {
      assert [] + r.value.0 == r.value.0;
    }
  }

  lemma PrependAssoc(a: seq<Msg>, b: seq<Msg>, r: Result<(seq<Msg>, seq<byte>)>)
    ensures Prepend(a, Prepend(b, r)) == Prepend(a + b, r)
  {
    if r.Ok? {
      assert a + (b + r.value.0) == (a + b) + r.value.0;
    }
  }

  /** Frames that all fit their widths and their concatenated serialisation. */
  predicate AllFit(ms: seq<Msg>) {
    forall i :: 0 <= i < |ms| ==> Fits(ms[i])
  }

  /** Complete frames of the kinds that travel towards the engine. */
  predicate Sim2BBFrames(ms: seq<Msg>) {
    AllFit(ms) && forall i :: 0 <= i < |ms| ==> !ms[i].MsgBB2Sim?
  }

  function Encode(ms: seq<Msg>): seq<byte>
    requires AllFit(ms)
  {
    if ms == [] then [] else Serialize(ms[0]).value + Encode(ms[1..])
  }

  /** Reading back a serialised engine-bound data frame, whatever follows it,
      gives the frame and its length. */
  lemma Sim2BBRoundTrip(m: Msg, tail: seq<byte>)
    requires m.MsgSim2BB? && Fits(m)
    ensures ParseSim2BB(Serialize(m).value + tail) == Ok((m, |Serialize(m).value|))
  {
    var a := ToBE(m.ns3NodeId, 4);
    var b := ToBE(m.nodeId, 4);
    var c := ToBE(m.delayNs, 8);
    var l := ToBE(|m.data|, 4);
    var e := Serialize(m).value;
    assert e == [CmdPkt] + a + b + c + l + m.data;
    var s := e + tail;
    assert s[1..5] == a && s[5..9] == b && s[9..17] == c && s[17..21] == l;
    FromBEToBE(m.ns3NodeId, 4);
    FromBEToBE(m.nodeId, 4);
    FromBEToBE(m.delayNs, 8);
    FromBEToBE(|m.data|, 4);
    assert s[21..21 + |m.data|] == m.data;
  }

  /** One frame in front of `rest`: decoding the whole yields that frame in
      front of what decoding `rest` yields. */
  lemma DecodeCons(m: Msg, rest: seq<byte>)
    requires Fits(m) && !m.MsgBB2Sim?
    ensures Decode(Sim2BB, Serialize(m).value + rest) == Prepend([m], Decode(Sim2BB, rest))
  {
    var e := Serialize(m).value;
    var s := e + rest;
    if m.MsgSim2BB? {
      Sim2BBRoundTrip(m, rest);
    }
    assert ParseFrame(Sim2BB, s) == Ok((m, |e|));
    assert s[|e|..] == rest;
    DecodeOk(Sim2BB, s, m, |e|);
  }

  /** Decoding the serialisation of complete frames, followed by `tail`, yields
      those frames in order in front of what decoding `tail` yields. */
  lemma {:induction false} DecodeEncoded(ms: seq<Msg>, tail: seq<byte>)
    requires Sim2BBFrames(ms)
    ensures Decode(Sim2BB, Encode(ms) + tail) == Prepend(ms, Decode(Sim2BB, tail))
  {
    if ms == [] {
      assert Encode(ms) + tail == tail;
      PrependNil(Decode(Sim2BB, tail));
    } else {
      var rest := Encode(ms[1..]) + tail;
      DecodeEncoded(ms[1..], tail);
      EncodeCons(ms, tail);
      DecodeCons(ms[0], rest);
      PrependAssoc([ms[0]], ms[1..], Decode(Sim2BB, tail));
      assert [ms[0]] + ms[1..] == ms;
    }
  }

  lemma EncodeCons(ms: seq<Msg>, tail: seq<byte>)
    requires ms != [] && AllFit(ms)
    ensures AllFit(ms[1..])
    ensures Encode(ms) + tail == Serialize(ms[0]).value + (Encode(ms[1..]) + tail)
  {
    AllFitTail(ms);
    var e := Serialize(ms[0]).value;
    var r := Encode(ms[1..]);
    assert Encode(ms) == e + r;
    assert (e + r) + tail == e + (r + tail);
  }

  lemma AllFitTail(ms: seq<Msg>)
    requires ms != [] && AllFit(ms)
    ensures AllFit(ms[1..])
  {
    forall i | 0 <= i < |ms| - 1
      ensures Fits(ms[1..][i])
    {
      assert ms[1..][i] == ms[i + 1];
    }
  }

  /** Complete frames decode to themselves with nothing left over. */
  lemma DecodeComplete(ms: seq<Msg>)
    requires Sim2BBFrames(ms)
    ensures Decode(Sim2BB, Encode(ms)) == Ok((ms, []))
  {
    DecodeEncoded(ms, []);
    assert Encode(ms) + [] == Encode(ms);
    assert ms + [] == ms;
  }

  /** A data frame cut short anywhere after its tag is reported incomplete. */
  lemma TruncatedIncomplete(m: Msg, k: nat)
    requires m.MsgSim2BB? && Fits(m)
    requires 0 < k < |Serialize(m).value|
    ensures Decode(Sim2BB, Serialize(m).value[..k]) == Ok(([], Serialize(m).value[..k]))
  {
    var e := Serialize(m).value;
    var s := e[..k];
    if k >= Sim2BBHeader {
      Sim2BBRoundTrip(m, []);
      assert e + [] == e;
      assert s[17..21] == e[17..21];
    }
    assert ParseSim2BB(s).Err?;
    DecodeIncomplete(Sim2BB, s);
  }

  /** Frames followed by a truncated data frame: the complete frames come out
      and the remainder is exactly the truncated frame, from its tag on. */
  lemma DecodeTruncated(ms: seq<Msg>, m: Msg, k: nat)
    requires Sim2BBFrames(ms)
    requires m.MsgSim2BB? && Fits(m) && 0 < k < |Serialize(m).value|
    ensures Decode(Sim2BB, Encode(ms) + Serialize(m).value[..k]) == Ok((ms, Serialize(m).value[..k]))
  {
    DecodeEncoded(ms, Serialize(m).value[..k]);
    TruncatedIncomplete(m, k);
    assert ms + [] == ms;
  }

  /** A split that falls after the first whole frame: the first read yields
      that frame in front of what reading the same split of the other frames
      yields, and the remainder is the same. */
  lemma ResumeStep(ms: seq<Msg>, k: nat, first: seq<Msg>, rem: seq<byte>)
    requires Sim2BBFrames(ms) && ms != []
    requires |Serialize(ms[0]).value| <= k <= |Encode(ms)|
    requires Decode(Sim2BB, Encode(ms[1..])[..k - |Serialize(ms[0]).value|]) == Ok((first, rem))
    requires |first| < |ms| && first == ms[1..][..|first|]
    requires Decode(Sim2BB, rem + Encode(ms[1..])[k - |Serialize(ms[0]).value|..]) == Ok((ms[1..][|first|..], []))
    ensures ResumesAt(ms, Encode(ms), k)
  {
    var b := Encode(ms);
    var e := Serialize(ms[0]).value;
    var restEnc := Encode(ms[1..]);
    var k' := k - |e|;
    EncodeCons(ms, []);
    assert b == e + restEnc by {
      assert b + [] == b && restEnc + [] == restEnc;
    }
    DecodeCons(ms[0], restEnc[..k']);
    SplitAfter(e, restEnc, k);
    ConsPrefix(ms, first);
    ResumeIntro(ms, b, k, [ms[0]] + first, rem);
  }

  /** Cutting `e + r` at or after the end of `e`. */
  lemma SplitAfter(e: seq<byte>, r: seq<byte>, k: nat)
    requires |e| <= k <= |e| + |r|
    ensures (e + r)[..k] == e + r[..k - |e|] && (e + r)[k..] == r[k - |e|..]
  {
  }

  /** A prefix of the tail of `ms`, with the head of `ms` in front. */
  lemma ConsPrefix(ms: seq<Msg>, first: seq<Msg>)
    requires |first| < |ms| && first == ms[1..][..|first|]
    ensures [ms[0]] + first == ms[..|first| + 1] && ms[1..][|first|..] == ms[|first| + 1..]
  {
  }

  /** A stream of complete frames read in two pieces split at any byte: the
      first read yields some leading frames and a remainder; feeding that
      remainder followed by the second piece yields exactly the other frames
      and nothing left over. */
  lemma {:induction false} SplitReadsResume(ms: seq<Msg>, k: nat)
    requires Sim2BBFrames(ms)
    requires k <= |Encode(ms)|
    ensures ResumesAt(ms, Encode(ms), k)
  {
    var b := Encode(ms);
    if k == 0 {
      assert b[..0] == [];
      assert [] + b[0..] == b;
      DecodeComplete(ms);
      ResumeIntro(ms, b, k, [], []);
    } else {
      var e := Serialize(ms[0]).value;
      var restEnc := Encode(ms[1..]);
      assert b == e + restEnc;
      if k >= |e| {
        var k' := k - |e|;
        assert Sim2BBFrames(ms[1..]);
        SplitReadsResume(ms[1..], k');
        var (first, rem) := Decode(Sim2BB, restEnc[..k']).value;
        ResumeStep(ms, k, first, rem);
      } else {
        assert b[..k] == e[..k];
        TruncatedIncomplete(ms[0], k);
        assert e[..k] + b[k..] == b;
        DecodeComplete(ms);
        ResumeIntro(ms, b, k, [], b[..k]);
      }
    }
  }

  /** Reading the prefix `b[..k]` of the encoding of `ms` yields some leading
      frames of `ms` and a remainder; that remainder followed by the rest of
      `b` yields exactly the other frames and nothing left over. */
  predicate ResumesAt(ms: seq<Msg>, b: seq<byte>, k: nat)
    requires k <= |b|
  {
    Decode(Sim2BB, b[..k]).Ok? &&
    var (first, rem) := Decode(Sim2BB, b[..k]).value;
    |first| <= |ms| && first == ms[..|first|] &&
    Decode(Sim2BB, rem + b[k..]) == Ok((ms[|first|..], []))
  }

  lemma ResumeIntro(ms: seq<Msg>, b: seq<byte>, k: nat, first: seq<Msg>, rem: seq<byte>)
    requires k <= |b| && Decode(Sim2BB, b[..k]) == Ok((first, rem))
    requires |first| <= |ms| && first == ms[..|first|]
    requires Decode(Sim2BB, rem + b[k..]) == Ok((ms[|first|..], []))
    ensures ResumesAt(ms, b, k)
  {
  }

  /** A tag other than packet or end-of-data, at a frame boundary, raises
      `NotImplementedError`. */
  lemma UnknownTagRaises(ms: seq<Msg>, s: seq<byte>)
    requires Sim2BBFrames(ms)
    requires s != [] && s[0] != CmdPkt && s[0] != CmdEod
    ensures Decode(Sim2BB, Encode(ms) + s) == Err(NotImplementedError)
  {
    DecodeEncoded(ms, s);
  }

  /** The ns-3-bound frame has no round trip: whatever the frame, its own
      decoder does not give it back alone with an empty remainder, because the
      serialiser writes no MAC field and the reader expects one. */
  lemma BB2SimNoRoundTrip(m: Msg)
    requires m.MsgBB2Sim? && Fits(m) && |m.proto| == 2
    ensures Decode(BB2Sim, Serialize(m).value) != Ok(([m], []))
  {
    var e := Serialize(m).value;
    assert |e| == 15 + |m.data|;
    var r := ParseFrame(BB2Sim, e);
    if r.Ok? {
      var (m', n) := r.value;
      DecodeOk(BB2Sim, e, m', n);
      var rest := Decode(BB2Sim, e[n..]);
      if rest.Ok? && rest.value.0 == [] && rest.value.1 == [] {
        if e[n..] != [] {
          DecodeProgress(BB2Sim, e[n..]);
        }
        assert n == |e|;
        assert n == BB2SimHeader + |m'.data|;
        assert m' != m;
        assert ([m'] + rest.value.0)[0] == m';
      }
    } else {
      DecodeIncomplete(BB2Sim, e);
    }
  }

  lemma DecodeProgress(dir: Direction, s: seq<byte>)
    requires s != [] && Decode(dir, s).Ok?
    ensures Decode(dir, s).value.0 != [] || Decode(dir, s).value.1 == s
  {
  }

  /** What the ns-3-bound decoder makes of a short frame of the shape the
      engine's socket writes (protocol `ab`, under 17 payload bytes): no frame,
      and every byte kept as the remainder. */
  lemma BB2SimShortFrameStuck(data: seq<byte>)
    requires |data| < 17
    ensures var e := Serialize(MsgBB2Sim(10, data, [97, 98], [97, 98])).value;
      Decode(BB2Sim, e) == Ok(([], e))
  {
    var m := MsgBB2Sim(10, data, [97, 98], [97, 98]);
    assert Fits(m);
    var e := Serialize(m).value;
    assert |e| < BB2SimHeader;
    DecodeIncomplete(BB2Sim, e);
  }
}

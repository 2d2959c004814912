/** The ns-3 side of the bridge: the application that receives the engine's
    frames into a fixed receive buffer, cuts complete frames off its front and
    schedules their Ethernet payloads, and frames packets captured in ns-3 for
    the engine. */
module LApplication {
  import opened Wrappers
  import opened Bytes
  import opened BBPackets

  // Field sizes of the two frame layouts.
  const CmdSize: nat := 1
  const HostSize: nat := 4
  const LNodeSize: nat := 4
  const DelaySize: nat := 8
  const ProtoTypeSize: nat := 2
  const EthProtoTypeSize: nat := 2
  const EthMacSize: nat := 6
  const EthHeaderSize: nat := 14
  const PktLenSize: nat := 4
  const MaxPacketSize: nat := 60000

  // Command codes, the first byte of every frame.
  const PacketCmd: byte := 1
  const EndOfSimCmd: byte := 2
  const CurrentlyNoData: byte := 3

  /** Header of a frame from the engine: command, delay, protocol type, length. */
  const InboundHeader: nat := CmdSize + DelaySize + ProtoTypeSize + PktLenSize
  /** Header of a frame to the engine: command, application id, engine node id, delay, length. */
  const OutboundHeader: nat := CmdSize + HostSize + LNodeSize + DelaySize + PktLenSize

  const BufferCapacity: nat := 512000
  const U32: nat := 0x1_0000_0000

  type u32 = x: int | 0 <= x < 0x1_0000_0000

  /** A send scheduled on the outgoing device: after `delayUs` microseconds,
      `packet` (the Ethernet payload) to `dstMac` with EtherType `etherType`. */
  datatype Delivery = Delivery(delayUs: nat, packet: seq<byte>, dstMac: seq<byte>, etherType: nat)

  /** The send scheduled for one frame payload, read as an Ethernet frame
      (destination MAC, source MAC, EtherType: the 14-byte header of IEEE
      802.3 clause 3.2). A payload shorter than that header schedules nothing. */
  function EthernetDelivery(delay: nat, payload: seq<byte>): (r: Option<Delivery>)
    ensures r.Some? <==> |payload| >= EthHeaderSize
    ensures r.Some? ==> r.value.etherType < Pow256(2) && payload == r.value.dstMac + payload[EthMacSize..2 * EthMacSize]
                                   + ToBE(r.value.etherType, 2) + r.value.packet
  {
    if |payload| < EthHeaderSize then None
    else
      ToBEFromBE(payload[12..14]);
      assert payload == payload[..6] + payload[6..12] + payload[12..14] + payload[14..];
      Some(Delivery(delay, payload[14..], payload[..6], FromBE(payload[12..14])))
  }

  function Delivered(d: Option<Delivery>): seq<Delivery> {
    if d.Some? then [d.value] else []
  }

  /** One call of `LProcessRcvPacket` on the buffered bytes `buf`: `None` when
      it returns -1 (fewer than 15 bytes, a first byte other than the packet
      command, or a frame not yet complete), otherwise the send it schedules
      and the number of bytes it removes from the front. The arithmetic is
      exact, and a frame shorter than an Ethernet header is removed without
      scheduling anything. */
  function ParseInbound(buf: seq<byte>): (r: Option<(Option<Delivery>, nat)>)
    ensures r.Some? ==> InboundHeader <= r.value.1 <= |buf|
    ensures |buf| < InboundHeader || buf[0] != PacketCmd ==> r.None?
  {
    if |buf| < InboundHeader || buf[0] != PacketCmd then None
    else
      var pktlen := FromBE(buf[11..15]);
      if InboundHeader + pktlen > |buf| then None
      else Some((EthernetDelivery(FromBE(buf[1..9]), buf[15..15 + pktlen]), InboundHeader + pktlen))
  }

  /** The inner loop `while (!LProcessRcvPacket())`: the sends scheduled, in
      order, and the bytes left in the buffer. */
  function Drain(buf: seq<byte>): (seq<Delivery>, seq<byte>)
    decreases |buf|
  {
    match ParseInbound(buf)
    case None => ([], buf)
    case Some((d, n)) =>
      var (ds, rest) := Drain(buf[n..]);
      (Delivered(d) + ds, rest)
  }

  /** What the loop leaves is a suffix of the buffer with no complete frame at
      its front. */
  lemma {:induction false} DrainStops(buf: seq<byte>)
    ensures var rest := Drain(buf).1;
      |rest| <= |buf| && rest == buf[|buf| - |rest|..] && ParseInbound(rest).None?
  {
    if ParseInbound(buf).None? {
      DrainDone(buf);
      assert buf[0..] == buf;
    } else {
      var n := ParseInbound(buf).value.1;
      DrainStep(buf);
      DrainStops(buf[n..]);
      var rest := Drain(buf[n..]).1;
      assert Drain(buf).1 == rest;
      assert buf[n..][|buf[n..]| - |rest|..] == buf[|buf| - |rest|..];
    }
  }

  /** One pass of the outer `while (1)` loop of `LListenForServerData` as
      written: `None` for its only `break`, on an empty buffer; otherwise the
      buffer after the pass. A packet command runs the inner loop and
      `continue`s; any other command leaves the buffer as it was. */
  function AsWrittenOuterPass(buf: seq<byte>): Option<seq<byte>> {
    if buf == [] then None
    else if buf[0] == PacketCmd then Some(Drain(buf).1)
    else Some(buf)
  }

  /** As written, the outer loop never ends once a pass leaves bytes behind:
      the next pass leaves exactly the same bytes, so the empty-buffer
      `break` is never reached. */
  lemma AsWrittenOuterLoopSpins(buf: seq<byte>)
    requires AsWrittenOuterPass(buf).Some? && AsWrittenOuterPass(buf).value != []
    ensures var b := AsWrittenOuterPass(buf).value; AsWrittenOuterPass(b) == Some(b)
  {
    var b := AsWrittenOuterPass(buf).value;
    if buf[0] == PacketCmd {
      DrainStops(buf);
      DrainDone(b);
    }
  }

  /** Two inputs that make it spin: a read that ends inside a frame (its
      first byte only), and the end-of-simulation command. */
  lemma AsWrittenOuterLoopExamples()
    ensures AsWrittenOuterPass([PacketCmd]) == Some([PacketCmd])
    ensures AsWrittenOuterPass([EndOfSimCmd]) == Some([EndOfSimCmd])
  {
    assert ParseInbound([PacketCmd]).None?;
    DrainDone([PacketCmd]);
  }

  /** The ns-3-bound frames the engine's serialiser writes, with a 2-byte
      protocol field. */
  predicate OutboundFrames(ms: seq<Msg>) {
    AllFit(ms) && forall i :: 0 <= i < |ms| ==> ms[i].MsgBB2Sim? && |ms[i].proto| == 2
  }

  function Deliveries(ms: seq<Msg>): seq<Delivery>
    requires OutboundFrames(ms)
  {
    if ms == [] then [] else Delivered(EthernetDelivery(ms[0].delayNs, ms[0].data)) + Deliveries(ms[1..])
  }

  /** Cross-language layout agreement: the C++ reader takes a frame written by
      the engine's `MsgBB2Sim.serialize` (2-byte protocol) as one whole frame,
      with the engine's delay and data; the protocol field is skipped and the
      EtherType is read from the data. */
  lemma ReadsEngineFrame(m: Msg, tail: seq<byte>)
    requires m.MsgBB2Sim? && Fits(m) && |m.proto| == 2
    ensures ParseInbound(Serialize(m).value + tail)
         == Some((EthernetDelivery(m.delayNs, m.data), |Serialize(m).value|))
  {
    var c := ToBE(m.delayNs, 8);
    var l := ToBE(|m.data|, 4);
    var e := Serialize(m).value;
    assert e == [CmdPkt] + c + m.proto + l + m.data;
    var s := e + tail;
    assert s[1..9] == c && s[11..15] == l;
    FromBEToBE(m.delayNs, 8);
    FromBEToBE(|m.data|, 4);
    assert s[15..15 + |m.data|] == m.data;
  }

  /** A stream of engine frames followed by `tail` drains to one scheduled send
      per frame carrying at least an Ethernet header, in order, and then to
      whatever draining `tail` gives. */
  lemma {:induction false} DrainEngineFrames(ms: seq<Msg>, tail: seq<byte>)
    requires OutboundFrames(ms)
    ensures Drain(Encode(ms) + tail) == (Deliveries(ms) + Drain(tail).0, Drain(tail).1)
  {
    if ms == [] {
      assert Encode(ms) + tail == tail;
      assert Deliveries(ms) + Drain(tail).0 == Drain(tail).0;
    } else {
      var e := Serialize(ms[0]).value;
      var rest := Encode(ms[1..]) + tail;
      EncodeCons(ms, tail);
      assert OutboundFrames(ms[1..]);
      DrainEngineFrames(ms[1..], tail);
      ReadsEngineFrame(ms[0], rest);
      assert (e + rest)[|e|..] == rest;
      assert Delivered(EthernetDelivery(ms[0].delayNs, ms[0].data)) + (Deliveries(ms[1..]) + Drain(tail).0)
          == Deliveries(ms) + Drain(tail).0;
    }
  }

  /** The lowercase hex digit of `v`, one of the two `%02x` prints per byte. */
  function HexDigit(v: nat): (c: char)
    requires v < 16
  {
    if v < 10 then '0' + v as char else 'a' + (v - 10) as char
  }

  function HexValue(c: char): nat {
    if '0' <= c <= '9' then (c - '0') as nat
    else if 'a' <= c <= 'f' then (c - 'a') as nat + 10
    else if 'A' <= c <= 'F' then (c - 'A') as nat + 10
    else 0
  }

  /** Character `j` of the text form of a 6-byte MAC address: two hex digits
      per byte, separated by colons. */
  function MacChar(mac: seq<byte>, j: nat): char
    requires |mac| == 6 && j < 17
  {
    if j % 3 == 0 then HexDigit(mac[j / 3] / 16)
    else if j % 3 == 1 then HexDigit(mac[j / 3] % 16)
    else ':'
  }

  function MacText(mac: seq<byte>): (t: seq<char>)
    requires |mac| == 6
    ensures |t| == 17
  {
    seq(17, j requires 0 <= j < 17 => MacChar(mac, j))
  }

  /** Reading a text MAC address back, as the address constructor does. */
  function ParseMac(t: seq<char>): (mac: seq<byte>)
    requires |t| == 17
    ensures |mac| == 6
  {
    seq(6, k requires 0 <= k < 6 => (HexValue(t[3 * k]) * 16 + HexValue(t[3 * k + 1])) % 256)
  }

  lemma HexRoundTrip(v: nat)
    requires v < 16
    ensures HexValue(HexDigit(v)) == v
  {
  }

  /** The text form reads back as the same six bytes. */
  lemma MacRoundTrip(mac: seq<byte>)
    requires |mac| == 6
    ensures ParseMac(MacText(mac)) == mac
  {
    forall k | 0 <= k < 6
      ensures ParseMac(MacText(mac))[k] == mac[k]
    {
      MacByteRoundTrip(mac, k);
    }
  }

  lemma MacByteRoundTrip(mac: seq<byte>, k: nat)
    requires |mac| == 6 && k < 6
    ensures ParseMac(MacText(mac))[k] == mac[k]
  {
    var t := MacText(mac);
    var b := mac[k];
    MacCharsOf(mac, k);
    assert t[3 * k] == HexDigit(b / 16);
    assert t[3 * k + 1] == HexDigit(b % 16);
    HexRoundTrip(b / 16);
    HexRoundTrip(b % 16);
    assert (b / 16 * 16 + b % 16) % 256 == b;
  }

  lemma MacCharsOf(mac: seq<byte>, k: nat)
    requires |mac| == 6 && k < 6
    ensures MacChar(mac, 3 * k) == HexDigit(mac[k] / 16)
    ensures MacChar(mac, 3 * k + 1) == HexDigit(mac[k] % 16)
  {
    assert (3 * k) % 3 == 0 && (3 * k) / 3 == k;
    assert (3 * k + 1) % 3 == 1 && (3 * k + 1) / 3 == k;
  }

  /** `mac48tostr`: each byte printed as `%02x:` three characters apart, with
      the trailing colon overwritten by NUL. */
  method Mac48ToStr(mac: seq<byte>) returns (res: array<char>)
    requires |mac| == 6
    ensures fresh(res) && res.Length == 18
    ensures res[..17] == MacText(mac) && res[17] == '\0'
  {
    res := new char[18];
    for i := 0 to 6
      invariant forall j :: 0 <= j < 3 * i && j < 17 ==> res[j] == MacChar(mac, j)
    {
      res[3 * i] := HexDigit(mac[i] / 16);
      res[3 * i + 1] := HexDigit(mac[i] % 16);
      res[3 * i + 2] := ':';
      if 3 * i + 3 < 18 {
        res[3 * i + 3] := '\0';
      }
    }
    res[17] := '\0';
  }

  /** `memcpy(a + off, src, |src|)`. */
  method CopyInto(a: array<byte>, off: nat, src: seq<byte>)
    requires off + |src| <= a.Length
    modifies a
    ensures a[..] == old(a[..off]) + src + old(a[off + |src|..])
  {
    for i := 0 to |src|
      invariant forall j :: 0 <= j < a.Length && !(off <= j < off + i) ==> a[j] == old(a[j])
      invariant forall j :: off <= j < off + i ==> a[j] == src[j - off]
    {
      a[off + i] := src[i];
    }
    ghost var want := old(a[..off]) + src + old(a[off + |src|..]);
    assert |want| == a.Length;
    forall j | 0 <= j < a.Length
      ensures a[j] == want[j]
    {
      if j < off {
      } else if j < off + |src| {
      } else {
      }
    }
  }

  /** The application's connection state: its own id, the engine node it
      serves, the receive buffer with its fill level, and the sends it has
      scheduled so far. */
  class LApp {
    const appId: u32
    const lnodeId: u32
    const buffer: array<byte>
    var len: nat
    var scheduled: seq<Delivery>

    predicate Valid()
      reads this
    {
      buffer.Length == BufferCapacity && len <= BufferCapacity
    }

    /** The bytes received and not yet processed. */
    function Pending(): seq<byte>
      reads this, buffer
      requires Valid()
    {
      buffer[..len]
    }

    /** Connecting to the engine starts with an empty buffer. */
    constructor(appId: u32, lnodeId: u32)
      ensures Valid() && fresh(buffer)
      ensures this.appId == appId && this.lnodeId == lnodeId
      ensures Pending() == [] && scheduled == []
    {
      this.appId := appId;
      this.lnodeId := lnodeId;
      buffer := new byte[BufferCapacity];
      len := 0;
      scheduled := [];
    }

    /** The append after a read: the received bytes go behind the buffered
        ones. The capacity is a precondition here; the C++ code does not check it. */
    method Append(data: seq<byte>)
      requires Valid() && len + |data| <= BufferCapacity
      modifies this, buffer
      ensures Valid()
      ensures Pending() == old(Pending()) + data
      ensures scheduled == old(scheduled)
    {
      CopyInto(buffer, len, data);
      assert buffer[..len + |data|] == old(Pending()) + data;
      len := len + |data|;
    }

    /** `LProcessRcvPacket`: -1 with nothing changed when no complete frame is
        at the front; otherwise 0, the frame's send scheduled and the frame's
        bytes removed, the rest shifted to the front. */
    method ProcessRcvPacket() returns (rc: int)
      requires Valid()
      modifies this, buffer
      ensures Valid()
      ensures rc == 0 || rc == -1
      ensures rc == -1 <==> ParseInbound(old(Pending())).None?
      ensures rc == -1 ==> Pending() == old(Pending()) && scheduled == old(scheduled)
      ensures rc == 0 ==>
        var (d, n) := ParseInbound(old(Pending())).value;
        Pending() == old(Pending())[n..] && scheduled == old(scheduled) + Delivered(d)
    {
      if len < InboundHeader {
        return -1;
      }
      var n := len;
      assert Pending()[0] == buffer[0];
      if buffer[0] != PacketCmd {
        return -1;
      }
      var delay := FromBE(buffer[1..9]);
      var pktlen := FromBE(buffer[11..15]);
      assert Pending()[1..9] == buffer[1..9] && Pending()[11..15] == buffer[11..15];
      if InboundHeader + pktlen > n {
        return -1;
      }
      var payload := buffer[15..15 + pktlen];
      assert Pending()[15..15 + pktlen] == payload;
      var packetsize := InboundHeader + pktlen;
      ghost var d := EthernetDelivery(delay, payload);
      assert ParseInbound(old(Pending())) == Some((d, packetsize));
      if pktlen >= EthHeaderSize {
        var dst := Mac48ToStr(payload[..6]);
        MacRoundTrip(payload[..6]);
        var prototype := FromBE(payload[12..14]);
        scheduled := scheduled + [Delivery(delay, payload[14..], ParseMac(dst[..17]), prototype)];
        assert scheduled == old(scheduled) + Delivered(d);
      } else {
        assert Delivered(d) == [];
        assert scheduled == old(scheduled) + Delivered(d);
      }
      RemoveFront(packetsize);
      return 0;
    }

    /** Dropping the first `k` buffered bytes: the rest is copied down to the
        front and the fill level reduced by `k`. */
    method RemoveFront(k: nat)
      requires Valid() && k <= len
      modifies this, buffer
      ensures Valid()
      ensures Pending() == old(Pending())[k..] && scheduled == old(scheduled)
    {
      var n := len;
      ghost var rest := buffer[k..n];
      var i := 0;
      while i < n - k
        modifies buffer
        invariant 0 <= i <= n - k
        invariant forall j :: 0 <= j < i ==> buffer[j] == rest[j]
        invariant forall j :: k + i <= j < n ==> buffer[j] == rest[j - k]
      {
        buffer[i] := buffer[k + i];
        i := i + 1;
      }
      assert forall j :: 0 <= j < n - k ==> buffer[..n - k][j] == rest[j];
      assert buffer[..n - k] == rest;
      len := n - k;
    }

    /** The inner loop `while (!LProcessRcvPacket())`: process frames until
        none is complete at the front. */
    method DrainFrames()
      requires Valid()
      modifies this, buffer
      ensures Valid()
      ensures scheduled == old(scheduled) + Drain(old(Pending())).0
      ensures Pending() == Drain(old(Pending())).1
    {
      ghost var p0 := Pending();
      ghost var s0 := scheduled;
      ghost var p := Pending();
      ghost var s := scheduled;
      var rc := ProcessRcvPacket();
      DrainAdvance(p, s, Pending(), scheduled);
      while rc == 0
        invariant Valid()
        invariant rc == 0 || rc == -1
        invariant s0 + Drain(p0).0 == scheduled + Drain(Pending()).0
        invariant Drain(p0).1 == Drain(Pending()).1
        invariant rc == -1 ==> ParseInbound(Pending()).None?
        decreases len + (if rc == 0 then 1 else 0)
      {
        p := Pending();
        s := scheduled;
        rc := ProcessRcvPacket();
        DrainAdvance(p, s, Pending(), scheduled);
      }
      DrainDone(Pending());
    }

    /** One read handed to the application, as the outer loop of
        `LListenForServerData` evidently intends: append it, then, when the
        front holds a packet command, run the inner loop once and wait for
        the next read (as written the loop spins instead,
        `AsWrittenOuterLoopSpins`). */
    method Receive(data: seq<byte>)
      requires Valid() && len + |data| <= BufferCapacity
      modifies this, buffer
      ensures Valid()
      ensures var p := old(Pending()) + data;
        if p != [] && p[0] == PacketCmd then
          scheduled == old(scheduled) + Drain(p).0 && Pending() == Drain(p).1
        else
          scheduled == old(scheduled) && Pending() == p
    {
      Append(data);
      if len > 0 && buffer[0] == PacketCmd {
        DrainFrames();
      }
    }

    /** `LDispatchPacket`: a packet of `n` bytes (at most 60000 are copied)
        becomes the 21 + n byte frame command, application id, engine node id,
        delay 0, length n, data; an empty packet sends nothing. */
    method DispatchPacket(packet: seq<byte>) returns (frame: Option<seq<byte>>)
      ensures frame.None? <==> packet == []
      ensures frame.Some? ==>
        var data := packet[..Min(|packet|, MaxPacketSize)];
        |frame.value| == OutboundHeader + |data| &&
        Serialize(MsgSim2BB(appId, lnodeId, 0, data)) == Ok(frame.value)
    {
      var n := Min(|packet|, MaxPacketSize);
      if n == 0 {
        return None;
      }
      var data := packet[..n];
      var buf := new byte[OutboundHeader + n];
      // The command is a 16-bit value of which the first byte in memory is
      // copied; on a little-endian host that is the low byte.
      CopyInto(buf, 0, [PacketCmd]);
      assert buf[..1] == [PacketCmd];
      assert Pow256(4) == U32 && Pow256(8) > 0;
      CopyInto(buf, 1, ToBE(appId, 4));
      assert buf[..5] == [PacketCmd] + ToBE(appId, 4);
      CopyInto(buf, 5, ToBE(lnodeId, 4));
      assert buf[..9] == [PacketCmd] + ToBE(appId, 4) + ToBE(lnodeId, 4);
      CopyInto(buf, 9, ToBE(0, 8));
      assert buf[..17] == [PacketCmd] + ToBE(appId, 4) + ToBE(lnodeId, 4) + ToBE(0, 8);
      CopyInto(buf, 17, ToBE(n, 4));
      assert buf[..21] == [PacketCmd] + ToBE(appId, 4) + ToBE(lnodeId, 4) + ToBE(0, 8) + ToBE(n, 4);
      CopyInto(buf, 21, data);
      frame := Some(buf[..]);
      assert buf[..] == [PacketCmd] + ToBE(appId, 4) + ToBE(lnodeId, 4) + ToBE(0, 8) + ToBE(n, 4) + data;
      SerializeLayout(appId, lnodeId, data);
    }
  }

  /** One turn of the inner loop keeps the scheduled-so-far plus the
      still-to-schedule sends, and the final remainder, the same. */
  lemma DrainAdvance(p: seq<byte>, s: seq<Delivery>, p': seq<byte>, s': seq<Delivery>)
    requires ParseInbound(p).None? ==> p' == p && s' == s
    requires ParseInbound(p).Some? ==>
      p' == p[ParseInbound(p).value.1..] && s' == s + Delivered(ParseInbound(p).value.0)
    ensures s + Drain(p).0 == s' + Drain(p').0 && Drain(p).1 == Drain(p').1
  {
    if ParseInbound(p).Some? {
      var (d, n) := ParseInbound(p).value;
      DrainStep(p);
      assert s + (Delivered(d) + Drain(p').0) == (s + Delivered(d)) + Drain(p').0;
    }
  }

  lemma DrainDone(p: seq<byte>)
    requires ParseInbound(p).None?
    ensures Drain(p) == ([], p)
  {
  }

  /** One turn of the inner loop, as `Drain` unfolds it. */
  lemma DrainStep(p: seq<byte>)
    requires ParseInbound(p).Some?
    ensures var (d, n) := ParseInbound(p).value;
      Drain(p) == (Delivered(d) + Drain(p[n..]).0, Drain(p[n..]).1)
  {
  }

  /** The engine-bound frame layout, field by field. */
  lemma SerializeLayout(appId: u32, lnodeId: u32, data: seq<byte>)
    requires |data| <= MaxPacketSize
    ensures Pow256(4) == U32
    ensures Serialize(MsgSim2BB(appId, lnodeId, 0, data))
         == Ok([PacketCmd] + ToBE(appId, 4) + ToBE(lnodeId, 4) + ToBE(0, 8) + ToBE(|data|, 4) + data)
  {
    assert Pow256(4) == U32;
    assert Fits(MsgSim2BB(appId, lnodeId, 0, data));
  }

  function Min(a: nat, b: nat): nat {
    if a < b then a else b
  }

  /** Cross-language layout agreement: a frame the C++ side dispatches
      decodes, on the engine side, to exactly that one data frame with nothing
      left over. */
  lemma DispatchedFrameDecodes(appId: u32, lnodeId: u32, frame: seq<byte>, data: seq<byte>)
    requires Serialize(MsgSim2BB(appId, lnodeId, 0, data)) == Ok(frame)
    ensures Decode(Sim2BB, frame) == Ok(([MsgSim2BB(appId, lnodeId, 0, data)], []))
  {
    var m := MsgSim2BB(appId, lnodeId, 0, data);
    assert Fits(m);
    assert Sim2BBFrames([m]);
    DecodeComplete([m]);
    assert Encode([m]) == Serialize(m).value + Encode([m][1..]);
    assert [m][1..] == [];
    assert frame + [] == frame;
    assert Encode([m]) == frame;
  }

  /** `LProcessRcvPacket` as compiled: the completeness test `15 + pktlen >
      len` and the packet length `pktlen - 14` are computed in unsigned 32-bit
      arithmetic. `None` for -1, otherwise the packet length requested from
      the buffer and the number of bytes removed. */
  function AsWrittenRcv(buf: seq<byte>): Option<(nat, nat)> {
    if |buf| < InboundHeader || buf[0] != PacketCmd then None
    else
      var pktlen := FromBE(buf[11..15]);
      var need := (InboundHeader + pktlen) % U32;
      if need > |buf| then None
      else Some(((pktlen - EthHeaderSize) % U32, need))
  }

  /** Where no 32-bit wrap happens, the compiled reader agrees with
      `ParseInbound`: same frames accepted, same bytes removed, and the
      packet length is the payload after the Ethernet header. */
  lemma AsWrittenAgrees(buf: seq<byte>)
    requires |buf| >= InboundHeader && EthHeaderSize <= FromBE(buf[11..15]) < U32 - InboundHeader
    ensures AsWrittenRcv(buf).Some? <==> ParseInbound(buf).Some?
    ensures AsWrittenRcv(buf).Some? ==>
      var (d, n) := ParseInbound(buf).value;
      d.Some? && AsWrittenRcv(buf).value == (|d.value.packet|, n)
  {
  }

  /** A 15-byte buffer whose length field is 0xFFFFFFF1: the 32-bit sum 15 +
      pktlen wraps to 0, so the frame passes as complete, a packet of
      4294967267 bytes is requested from a 15-byte buffer and no byte is
      removed. The exact reader waits for more data. */
  lemma WrappedLengthAccepted()
    ensures var buf: seq<byte> := [1, 0, 0, 0, 0, 0, 0, 0, 0, 0, 0, 0xFF, 0xFF, 0xFF, 0xF1];
      AsWrittenRcv(buf) == Some((0xFFFF_FFE3, 0)) && ParseInbound(buf).None?
  {
    var buf: seq<byte> := [1, 0, 0, 0, 0, 0, 0, 0, 0, 0, 0, 0xFF, 0xFF, 0xFF, 0xF1];
    assert FromBE(buf[11..15]) == 0xFFFF_FFF1 by {
      assert buf[11..15] == [0xFF, 0xFF, 0xFF, 0xF1];
      FromBEFour(0xFF, 0xFF, 0xFF, 0xF1);
    }
  }

  /** A complete frame whose length field is 0: the packet length 0 - 14
      wraps to 4294967282. The exact reader removes the 15 bytes and
      schedules nothing. */
  lemma ShortFrameUnderflows()
    ensures var buf: seq<byte> := [1, 0, 0, 0, 0, 0, 0, 0, 0, 0, 0, 0, 0, 0, 0];
      AsWrittenRcv(buf) == Some((0xFFFF_FFF2, 15)) && ParseInbound(buf) == Some((None, 15))
  {
    var buf: seq<byte> := [1, 0, 0, 0, 0, 0, 0, 0, 0, 0, 0, 0, 0, 0, 0];
    assert FromBE(buf[11..15]) == 0 by {
      assert buf[11..15] == [0, 0, 0, 0];
      FromBEFour(0, 0, 0, 0);
    }
  }

  lemma FromBEFour(a: byte, b: byte, c: byte, d: byte)
    ensures FromBE([a, b, c, d]) == ((a * 256 + b) * 256 + c) * 256 + d
  {
    FromBESnoc([], a);
    assert [] + [a] == [a];
    FromBESnoc([a], b);
    assert [a] + [b] == [a, b];
    FromBESnoc([a, b], c);
    assert [a, b] + [c] == [a, b, c];
    FromBESnoc([a, b, c], d);
    assert [a, b, c] + [d] == [a, b, c, d];
  }
}

/** Unsigned big-endian integers over byte strings, the only integer encoding the
    wire protocol uses: Python's `int.from_bytes(b, 'big', signed=False)` and
    `n.to_bytes(width, 'big', signed=False)`, and the C++ side's
    `htonl`/`htobe64`/`ntohl` field copies. */
module Bytes {
  import opened Wrappers

  type byte = x: int | 0 <= x < 256

  function Pow256(n: nat): (r: nat)
    ensures r >= 1
  {
    if n == 0 then 1 else 256 * Pow256(n - 1)
  }

  /** `int.from_bytes(s, 'big', signed=False)`; the empty string decodes to 0. */
  function FromBE(s: seq<byte>): (r: nat)
    ensures r < Pow256(|s|)
  {
    if s == [] then 0 else FromBE(s[..|s| - 1]) * 256 + s[|s| - 1]
  }

  /** The big-endian encoding of `n` in exactly `width` bytes. */
  function ToBE(n: nat, width: nat): (r: seq<byte>)
    requires n < Pow256(width)
    ensures |r| == width
  {
    if width == 0 then [] else ToBE(n / 256, width - 1) + [n % 256]
  }

  /** `n.to_bytes(width, 'big', signed=False)`: a negative value or one that
      needs more than `width` bytes raises `OverflowError`. */
  function ToBytes(n: int, width: nat): (r: Result<seq<byte>>)
    ensures r.Ok? <==> 0 <= n < Pow256(width)
    ensures r.Ok? ==> |r.value| == width && FromBE(r.value) == n
    ensures r.Err? ==> r.error == OverflowError
  {
    if 0 <= n < Pow256(width) then
      FromBEToBE(n, width);
      Ok(ToBE(n, width))
    else
      Err(OverflowError)
  }

  lemma FromBESnoc(s: seq<byte>, b: byte)
    ensures FromBE(s + [b]) == FromBE(s) * 256 + b
  {
    assert (s + [b])[..|s|] == s;
  }

  /** Decoding an encoding gives the value back. */
  lemma {:induction false} FromBEToBE(n: nat, width: nat)
    requires n < Pow256(width)
    ensures FromBE(ToBE(n, width)) == n
  {
    if width > 0 {
      FromBEToBE(n / 256, width - 1);
      FromBESnoc(ToBE(n / 256, width - 1), n % 256);
    }
  }

  /** Encoding a decoded string in its own width gives the string back. */
  lemma {:induction false} ToBEFromBE(s: seq<byte>)
    ensures ToBE(FromBE(s), |s|) == s
  {
    if s != [] {
      var init := s[..|s| - 1];
      ToBEFromBE(init);
      assert FromBE(s) / 256 == FromBE(init);
      assert FromBE(s) % 256 == s[|s| - 1];
      assert init + [s[|s| - 1]] == s;
    }
  }

  /** Two strings of one width with the same value are equal. */
  lemma FromBEInjective(a: seq<byte>, b: seq<byte>)
    requires |a| == |b| && FromBE(a) == FromBE(b)
    ensures a == b
  {
    ToBEFromBE(a);
    ToBEFromBE(b);
  }
}

/**
 * The two text encodings the checksum is assembled from: lowercase base16
 * (`hex.EncodeToString`, section 8 of RFC 4648) and base64 over the standard
 * alphabet with the padding left off (`base64.RawStdEncoding`, sections 4
 * and 3.2 of RFC 4648). Each comes with a decoder, and the round trip is proved.
 */
module Encoding {
  import opened Outcomes
  import opened Bytes

  // ---------------------------------------------------------------- base16

  /** The lowercase hex digit of a nibble. */
  function HexDigit(v: int): (c: char)
    requires 0 <= v < 16
  {
    if v < 10 then ('0' as int + v) as char else ('a' as int + (v - 10)) as char
  }

  /** The nibble a lowercase hex digit stands for. */
  function HexDigitValue(c: char): (v: Option<int>)
    ensures v.Some? ==> 0 <= v.value < 16
  {
    if '0' <= c <= '9' then Some(c as int - '0' as int)
    else if 'a' <= c <= 'f' then Some(c as int - 'a' as int + 10)
    else None
  }

  predicate IsLowerHexDigit(c: char) {
    '0' <= c <= '9' || 'a' <= c <= 'f'
  }

  /** `hex.EncodeToString`: two lowercase digits per byte, high nibble first. */
  function Hex(b: seq<byte>): (s: string)
    ensures |s| == 2 * |b|
    ensures forall i :: 0 <= i < |s| ==> IsLowerHexDigit(s[i])
  {
    if b == [] then "" else [HexDigit(b[0] / 16), HexDigit(b[0] % 16)] + Hex(b[1..])
  }

  /** Reads lowercase hex back into bytes; an odd length or a foreign character is rejected. */
  function Unhex(s: string): (r: Option<seq<byte>>)
    ensures r.Some? ==> 2 * |r.value| == |s|
  {
    if s == [] then Some([])
    else if |s| == 1 then None
    else
      match (HexDigitValue(s[0]), HexDigitValue(s[1]), Unhex(s[2..]))
      case (Some(hi), Some(lo), Some(rest)) => Some([hi * 16 + lo] + rest)
      case _ => None
  }

  lemma HexDigitRoundTrip(v: int)
    requires 0 <= v < 16
    ensures HexDigitValue(HexDigit(v)) == Some(v)
  {
  }

  /** Unhex undoes Hex: the digest behind a hex string can be read back. */
  lemma {:induction false} HexRoundTrip(b: seq<byte>)
    ensures Unhex(Hex(b)) == Some(b)
  {
    if b != [] {
      HexRoundTrip(b[1..]);
      HexDigitRoundTrip(b[0] / 16);
      HexDigitRoundTrip(b[0] % 16);
      var s := Hex(b);
      assert s[2..] == Hex(b[1..]);
      assert [b[0]] + b[1..] == b;
    }
  }

  /** Hex is injective: different digests never print the same. */
  lemma HexInjective(a: seq<byte>, b: seq<byte>)
    requires Hex(a) == Hex(b)
    ensures a == b
  {
    HexRoundTrip(a);
    HexRoundTrip(b);
  }

  // ---------------------------------------------------------------- base64

  /** The character of a six-bit group in the standard alphabet: A-Z, a-z, 0-9, '+', '/'. */
  function Base64Char(v: int): (c: char)
    requires 0 <= v < 64
  {
    if v < 26 then ('A' as int + v) as char
    else if v < 52 then ('a' as int + (v - 26)) as char
    else if v < 62 then ('0' as int + (v - 52)) as char
    else if v == 62 then '+'
    else '/'
  }

  /** The six-bit group a character of the standard alphabet stands for. */
  function Base64Value(c: char): (v: Option<int>)
    ensures v.Some? ==> 0 <= v.value < 64
  {
    if 'A' <= c <= 'Z' then Some(c as int - 'A' as int)
    else if 'a' <= c <= 'z' then Some(c as int - 'a' as int + 26)
    else if '0' <= c <= '9' then Some(c as int - '0' as int + 52)
    else if c == '+' then Some(62)
    else if c == '/' then Some(63)
    else None
  }

  lemma Base64CharRoundTrip(v: int)
    requires 0 <= v < 64
    ensures Base64Value(Base64Char(v)) == Some(v)
  {
  }

  /**
   * The six-bit groups of `base64.RawStdEncoding`: every three bytes give
   * four groups; a final one or two bytes give two or three groups, the
   * unused low bits zero. No padding group is produced.
   */
  function Sextets(b: seq<byte>): (g: seq<int>)
    ensures |g| == (4 * |b| + 2) / 3
    ensures forall i :: 0 <= i < |g| ==> 0 <= g[i] < 64
  {
    if |b| == 0 then []
    else if |b| == 1 then [b[0] / 4, b[0] % 4 * 16]
    else if |b| == 2 then [b[0] / 4, b[0] % 4 * 16 + b[1] / 16, b[1] % 16 * 4]
    else [b[0] / 4, b[0] % 4 * 16 + b[1] / 16, b[1] % 16 * 4 + b[2] / 64, b[2] % 64] + Sextets(b[3..])
  }

  /** Reassembles bytes from six-bit groups; a lone trailing group cannot hold a byte and is rejected. */
  function Unsextets(g: seq<int>): (r: Option<seq<byte>>)
    requires forall i :: 0 <= i < |g| ==> 0 <= g[i] < 64
  {
    if |g| == 0 then Some([])
    else if |g| == 1 then None
    else if |g| == 2 then Some([g[0] * 4 + g[1] / 16])
    else if |g| == 3 then Some([g[0] * 4 + g[1] / 16, g[1] % 16 * 16 + g[2] / 4])
    else
      match Unsextets(g[4..])
      case Some(rest) => Some([g[0] * 4 + g[1] / 16, g[1] % 16 * 16 + g[2] / 4, g[2] % 4 * 64 + g[3]] + rest)
      case None => None
  }

  lemma {:induction false} SextetsRoundTrip(b: seq<byte>)
    ensures Unsextets(Sextets(b)) == Some(b)
  {
    var g := Sextets(b);
    if |b| == 1 {
      assert b == [b[0]];
    } else if |b| == 2 {
      assert b == [b[0], b[1]];
    } else if |b| >= 3 {
      SextetsRoundTrip(b[3..]);
      assert g[4..] == Sextets(b[3..]);
      assert [b[0], b[1], b[2]] + b[3..] == b;
    }
  }

  /** `base64.RawStdEncoding.EncodeToString`: each six-bit group printed in the standard alphabet, no '='. */
  function Base64Raw(b: seq<byte>): (s: string)
    ensures |s| == (4 * |b| + 2) / 3
  {
    var g := Sextets(b);
    seq(|g|, i requires 0 <= i < |g| => Base64Char(g[i]))
  }

  /** Reads unpadded base64 back into bytes; a character outside the alphabet or a lone trailing character is rejected. */
  function Base64RawDecode(s: string): (r: Option<seq<byte>>)
  {
    if forall i :: 0 <= i < |s| ==> Base64Value(s[i]).Some? then
      Unsextets(seq(|s|, i requires 0 <= i < |s| => Base64Value(s[i]).value))
    else None
  }

  /** Decoding undoes the unpadded encoding, for every byte sequence. */
  lemma Base64RawRoundTrip(b: seq<byte>)
    ensures Base64RawDecode(Base64Raw(b)) == Some(b)
  {
    var g := Sextets(b);
    var s := Base64Raw(b);
    forall i | 0 <= i < |s|
      ensures Base64Value(s[i]) == Some(g[i])
    {
      Base64CharRoundTrip(g[i]);
    }
    assert seq(|s|, i requires 0 <= i < |s| => Base64Value(s[i]).value) == g;
    SextetsRoundTrip(b);
  }
}

/**
 * genChecksum and genClientKey: the `x-cursor-checksum` and `x-client-key`
 * header values. The checksum is taken from the inbound request, else from
 * the `cursor.checksum` setting, which is either a literal value or an URL
 * fetched through a cache, and only when the setting is empty is it computed
 * locally from the token and the current half-hour window.
 */
module Checksum {
  import opened Outcomes
  import opened Bytes
  import opened Encoding
  import opened Text
  import opened Mixer
  import opened Clock

  /**
   * The foreign hash functions: `sha256` stands for `sha256.Sum256` over the
   * UTF-8 bytes of a string, `calcHex` for `common.CalcHex`, the cache key of a token.
   */
  datatype Hashes = Hashes(sha256: string -> seq<byte>, calcHex: string -> string)

  /** SHA-256 always yields 32 bytes. */
  ghost predicate DigestSized(h: Hashes) {
    forall s :: |h.sha256(s)| == 32
  }

  // ------------------------------------------------------------ local checksum

  /**
   * The six bytes of fetch.go:163-170: `(ts >> 8) & 0xff`, `ts & 0xff`, `(ts >> 24) & 0xff`,
   * `(ts >> 16) & 0xff`, `(ts >> 8) & 0xff`, `ts & 0xff` (an arithmetic shift is a floor division).
   */
  function Layout(ts: int): (r: seq<byte>)
    ensures |r| == 6
  {
    [ByteOf(ts / 0x100), ByteOf(ts), ByteOf(ts / 0x100_0000), ByteOf(ts / 0x1_0000), ByteOf(ts / 0x100), ByteOf(ts)]
  }

  /** Shifting right by k bits, k < 32, then keeping the low byte, sees only the low 32 bits of ts. */
  lemma ShiftedByteOfLow32(ts: int, d: int)
    requires d == 1 || d == 0x100 || d == 0x1_0000 || d == 0x100_0000
    ensures ByteOf((ts % TWO_32) / d) == ByteOf(ts / d)
  {
    var q := ts / TWO_32;
    var v := ts % TWO_32;
    assert ts == TWO_32 * q + v;
    if d == 1 {
      ByteOfShift(v, 0x100_0000 * q);
    } else if d == 0x100 {
      assert ts / 0x100 == 0x100_0000 * q + v / 0x100;
      ByteOfShift(v / 0x100, 0x1_0000 * q);
    } else if d == 0x1_0000 {
      assert ts / 0x1_0000 == 0x1_0000 * q + v / 0x1_0000;
      ByteOfShift(v / 0x1_0000, 0x100 * q);
    } else {
      assert ts / 0x100_0000 == 0x100 * q + v / 0x100_0000;
      ByteOfShift(v / 0x100_0000, q);
    }
  }

  /**
   * The layout holds the low 16 bits of ts twice: bytes 0-1 equal bytes 4-5,
   * and bytes 2-5 are the big-endian encoding of ts modulo 2^32.
   */
  lemma LayoutShape(ts: int)
    ensures Layout(ts)[..2] == Layout(ts)[4..]
    ensures Layout(ts)[0] as int * 0x100 + Layout(ts)[1] as int == ts % 0x1_0000
    ensures Layout(ts)[2..] == Be32(ts % TWO_32)
    ensures Be32Value(Layout(ts)[2..]) == ts % TWO_32
  {
    LayoutLow16(ts);
    LayoutLow32(ts);
    Be32RoundTrip(ts % TWO_32);
  }

  lemma LayoutLow16(ts: int)
    ensures Layout(ts)[0] as int * 0x100 + Layout(ts)[1] as int == ts % 0x1_0000
  {
    var q := ts / 0x1_0000;
    var r := ts % 0x1_0000;
    assert ts == 0x1_0000 * q + r;
    assert ts / 0x100 == 0x100 * q + r / 0x100;
    assert ByteOf(ts / 0x100) == (r / 0x100) % 256;
    assert ByteOf(ts) == r % 256;
  }

  lemma LayoutLow32(ts: int)
    ensures Layout(ts)[2..] == Be32(ts % TWO_32)
  {
    ShiftedByteOfLow32(ts, 1);
    ShiftedByteOfLow32(ts, 0x100);
    ShiftedByteOfLow32(ts, 0x1_0000);
    ShiftedByteOfLow32(ts, 0x100_0000);
    assert ts % TWO_32 == (ts % TWO_32) / 1;
  }

  /**
   * The local branch, fetch.go:148-177: the mixed layout in unpadded base64, the
   * hex SHA-256 of the token's second '.'-separated piece, '/', and the hex
   * SHA-256 of the whole token. A token without '.' has no second piece and
   * `salt[1]` panics.
   */
  function LocalChecksum(token: string, ts: int, h: Hashes): (r: Result<string>)
  {
    var salt := Split(token, '.');
    if |salt| < 2 then Err(IndexOutOfRange)
    else Ok(Base64Raw(Mixed(Layout(ts))) + Hex(h.sha256(salt[1])) + "/" + Hex(h.sha256(token)))
  }

  /** The local branch fails exactly for a token without a '.'. */
  lemma LocalChecksumFailsIff(token: string, ts: int, h: Hashes)
    ensures LocalChecksum(token, ts, h).Err? <==> '.' !in token
    ensures LocalChecksum(token, ts, h).Err? ==> LocalChecksum(token, ts, h).failure == IndexOutOfRange
  {
    SplitHasSecond(token, '.');
  }

  /**
   * With 32-byte digests the checksum is 8 + 64 + 1 + 64 = 137 characters:
   * the window part, the salt digest, '/', the token digest.
   */
  lemma LocalChecksumFormat(token: string, ts: int, h: Hashes)
    requires DigestSized(h) && '.' in token
    ensures LocalChecksum(token, ts, h).Ok?
    ensures var c := LocalChecksum(token, ts, h).value;
      |c| == 137 && c[72] == '/' &&
      c[..8] == Base64Raw(Mixed(Layout(ts))) &&
      c[8..72] == Hex(h.sha256(Split(token, '.')[1])) &&
      c[73..] == Hex(h.sha256(token))
  {
    SplitHasSecond(token, '.');
    var w := Base64Raw(Mixed(Layout(ts)));
    var a := Hex(h.sha256(Split(token, '.')[1]));
    var b := Hex(h.sha256(token));
    assert |a| == 64 && |b| == 64;
    ChecksumParts(w, a, b);
  }

  /** Where the three parts sit in `"%s%s/%s"` when they are 8, 64 and 64 characters long. */
  lemma ChecksumParts(w: string, a: string, b: string)
    requires |w| == 8 && |a| == 64 && |b| == 64
    ensures var c := w + a + "/" + b;
      |c| == 137 && c[72] == '/' && c[..8] == w && c[8..72] == a && c[73..] == b
  {
    var c := w + a + "/" + b;
    assert c[..8] == w;
    assert c[8..72] == a;
    assert c[73..] == b;
  }

  /**
   * Reads the window back out of a checksum: decode the first eight
   * characters, undo the mixer, and read bytes 2-5 as a big-endian number.
   */
  function ReadWindow(c: string): (ts32: Option<int>)
  {
    if |c| < 8 then None
    else
      match Base64RawDecode(c[..8])
      case Some(mixed) => if |mixed| == 6 then Some(Be32Value(Unmixed(mixed)[2..])) else None
      case None => None
  }

  /** The window part of a local checksum determines the timestamp modulo 2^32. */
  lemma ReadWindowOfLocal(token: string, ts: int, h: Hashes)
    requires DigestSized(h) && '.' in token
    ensures LocalChecksum(token, ts, h).Ok?
    ensures ReadWindow(LocalChecksum(token, ts, h).value) == Some(ts % TWO_32)
  {
    LocalChecksumFormat(token, ts, h);
    var mixed := Mixed(Layout(ts));
    Base64RawRoundTrip(mixed);
    UnmixMix(Layout(ts));
    LayoutShape(ts);
  }

  /**
   * Windows whose timestamps differ modulo 2^32 never share a checksum, and
   * in particular the checksum of a token changes from one window to the next.
   */
  lemma LocalChecksumChangesWithWindow(token: string, ts1: int, ts2: int, h: Hashes)
    requires DigestSized(h) && '.' in token
    requires ts1 % TWO_32 != ts2 % TWO_32
    ensures LocalChecksum(token, ts1, h) != LocalChecksum(token, ts2, h)
  {
    ReadWindowOfLocal(token, ts1, h);
    ReadWindowOfLocal(token, ts2, h);
  }

  /** Any two readings of the same half hour yield the same local checksum. */
  lemma LocalChecksumStableInWindow(token: string, a: LocalTime, b: LocalTime, zone: LocalTime -> int, h: Hashes)
    requires Valid(a) && Valid(b) && SameHalfHour(a, b)
    ensures LocalChecksum(token, WindowTimestamp(a, zone), h) == LocalChecksum(token, WindowTimestamp(b, zone), h)
  {
    SameHalfHourSameTimestamp(a, b, zone);
  }

  /**
   * Consecutive windows (1,800,000 ms apart) give different local checksums for
   * every reading within 10^15 ms of the epoch, about 31,700 years either way.
   */
  lemma NextWindowChangesChecksum(token: string, ms: int, h: Hashes)
    requires DigestSized(h) && '.' in token
    requires -1_000_000_000_000_000 <= ms < 1_000_000_000_000_000
    ensures LocalChecksum(token, Timestamp(ms), h) != LocalChecksum(token, Timestamp(ms + 1_800_000), h)
  {
    LaterWindowLaterTimestamp(ms, ms + 1_800_000);
    var t1, t2 := Timestamp(ms), Timestamp(ms + 1_800_000);
    assert -TWO_32 < t1 < t2 < TWO_32 && t2 - t1 <= 2;
    LocalChecksumChangesWithWindow(token, t1, t2, h);
  }

  // ------------------------------------------------------------ client key

  /** genClientKey: the hex SHA-256 of the token followed by "--client-key". */
  function ClientKey(token: string, h: Hashes): string {
    Hex(h.sha256(token + "--client-key"))
  }

  /** The client key is 64 lowercase hex digits that decode to the digest. */
  lemma ClientKeyShape(token: string, h: Hashes)
    requires DigestSized(h)
    ensures |ClientKey(token, h)| == 64
    ensures forall i :: 0 <= i < 64 ==> IsLowerHexDigit(ClientKey(token, h)[i])
    ensures Unhex(ClientKey(token, h)) == Some(h.sha256(token + "--client-key"))
  {
    HexRoundTrip(h.sha256(token + "--client-key"));
  }
}

/** Outcome wrappers shared by the checksum and the framing code. */
module Outcomes {
  datatype Option<+T> = None | Some(value: T)

  /** Why a call of the Go code does not return normally. */
  datatype Failure =
    | IndexOutOfRange    // an index or slice bound past the end: the Go runtime panics
    | MarshalFailed      // proto.Marshal reported an error

  datatype Result<+T> = Ok(value: T) | Err(failure: Failure)
}

/** Bytes as the integers 0..255, with Go's byte conversion, XOR and big-endian uint32 layout. */
module Bytes {
  type byte = x: int | 0 <= x < 256

  const TWO_32: int := 0x1_0000_0000

  function Pow2(k: nat): (p: nat)
    ensures p >= 1
  {
    if k == 0 then 1 else 2 * Pow2(k - 1)
  }

  /** Go's conversion `byte(x)`, and `x & 0xff`: the low eight bits, two's complement for negative x. */
  function ByteOf(x: int): byte {
    x % 256
  }

  /** Byte addition may truncate the addend first: `x + byte(i)` is `byte(x + i)`. */
  lemma ByteOfAddend(a: int, i: int)
    ensures ByteOf(a + ByteOf(i)) == ByteOf(a + i)
  {
    var q := i / 256;
    assert i == 256 * q + i % 256;
  }

  /** Adding and subtracting the same amount modulo 256, in either order, is the identity on bytes. */
  lemma ByteAddSub(x: byte, i: int)
    ensures ByteOf(ByteOf(x + i) - i) == x
    ensures ByteOf(ByteOf(x - i) + i) == x
  {
    var q := (x + i) / 256;
    assert ByteOf(x + i) - i == x + 256 * -q;
    ByteOfShift(x, -q);
    var r := (x - i) / 256;
    assert ByteOf(x - i) + i == x + 256 * -r;
    ByteOfShift(x, -r);
  }

  /** Adding a multiple of 256 does not change the low byte. */
  lemma ByteOfShift(w: int, m: int)
    ensures ByteOf(w + 256 * m) == ByteOf(w)
  {
    var q := w / 256;
    assert w + 256 * m == 256 * (q + m) + w % 256;
  }

  /** Bitwise exclusive or of the low k bits of a and b. */
  function XorBits(a: nat, b: nat, k: nat): (r: nat)
    ensures r < Pow2(k)
  {
    if k == 0 then 0 else 2 * XorBits(a / 2, b / 2, k - 1) + (a % 2 + b % 2) % 2
  }

  /** Go's `^` on two bytes. */
  function Xor(a: byte, b: byte): byte {
    assert Pow2(8) == 256;
    XorBits(a, b, 8)
  }

  lemma {:induction false} XorBitsCancel(a: nat, t: nat, k: nat)
    requires a < Pow2(k)
    ensures XorBits(XorBits(a, t, k), t, k) == a
  {
    if k > 0 {
      assert a / 2 < Pow2(k - 1);
      XorBitsCancel(a / 2, t / 2, k - 1);
      var y := XorBits(a / 2, t / 2, k - 1);
      var b := (a % 2 + t % 2) % 2;
      var x := 2 * y + b;
      assert XorBits(a, t, k) == x;
      LowBit(y, b);
      ParityCancel(a, t);
      assert XorBits(x, t, k) == 2 * XorBits(y, t / 2, k - 1) + (b + t % 2) % 2;
    }
  }

  /** The low bit and the rest of 2y + b, for a bit b. */
  lemma LowBit(y: nat, b: int)
    requires 0 <= b < 2
    ensures (2 * y + b) / 2 == y && (2 * y + b) % 2 == b
  {
  }

  /** Adding the low bit of t twice, modulo 2, leaves the low bit of a. */
  lemma ParityCancel(a: nat, t: nat)
    ensures ((a % 2 + t % 2) % 2 + t % 2) % 2 == a % 2
  {
  }

  /** XOR with the same byte twice is the identity: the step the mixer is undone by. */
  lemma XorCancel(a: byte, t: byte)
    ensures Xor(Xor(a, t), t) == a
  {
    assert Pow2(8) == 256;
    XorBitsCancel(a, t, 8);
  }

  /** `binary.BigEndian.PutUint32` as a value: the four bytes of v, most significant first. */
  function Be32(v: int): (r: seq<byte>)
    requires 0 <= v < TWO_32
  {
    [ByteOf(v / 0x100_0000), ByteOf(v / 0x1_0000), ByteOf(v / 0x100), ByteOf(v)]
  }

  /** `binary.BigEndian.Uint32`: the number whose big-endian bytes are b[0..4]; later bytes are ignored. */
  function Be32Value(b: seq<byte>): (v: int)
    requires |b| >= 4
    ensures 0 <= v < TWO_32
  {
    b[0] as int * 0x100_0000 + b[1] as int * 0x1_0000 + b[2] as int * 0x100 + b[3] as int
  }

  /** Shifting right by 16 and by 24 bits is shifting right by 8 bits two and three times. */
  lemma ShiftsCompose(v: int)
    ensures v / 0x1_0000 == (v / 0x100) / 0x100
    ensures v / 0x100_0000 == ((v / 0x100) / 0x100) / 0x100
  {
    var q1 := v / 256;
    var q2 := q1 / 256;
    var q3 := q2 / 256;
    assert v == 0x1_0000 * q2 + (256 * (q1 % 256) + v % 256);
    assert v == 0x100_0000 * q3 + (0x1_0000 * (q2 % 256) + 256 * (q1 % 256) + v % 256);
  }

  /** Decoding the big-endian bytes gives the number back. */
  lemma Be32RoundTrip(v: int)
    requires 0 <= v < TWO_32
    ensures |Be32(v)| == 4 && Be32Value(Be32(v)) == v
  {
    ShiftsCompose(v);
  }

  /** Encoding the decoded number gives the four bytes back: Be32 is a bijection onto 4-byte sequences. */
  lemma Be32Inverse(b: seq<byte>)
    requires |b| == 4
    ensures Be32(Be32Value(b)) == b
  {
    var v := Be32Value(b);
    ShiftsCompose(v);
    var q1 := b[0] as int * 0x1_0000 + b[1] as int * 0x100 + b[2] as int;
    var q2 := b[0] as int * 0x100 + b[1] as int;
    assert v == q1 * 256 + b[3];
    assert v / 0x100 == q1 && v % 256 == b[3];
    assert q1 == q2 * 256 + b[2];
    assert q1 / 0x100 == q2 && q1 % 256 == b[2];
    assert q2 / 0x100 == b[0] && q2 % 256 == b[1];
  }
}

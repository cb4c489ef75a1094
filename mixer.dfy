/**
 * The `calc` closure of genChecksum: an in-place, strictly left-to-right
 * byte mixer. A running byte starts at 165; each byte is XORed with it, its
 * own index is added modulo 256, and the new byte becomes the running byte.
 */
module Mixer {
  import opened Bytes

  const SEED: byte := 165

  /** One step of the mixer: `(data[i] ^ t) + byte(i)` in byte arithmetic. */
  function Step(x: byte, t: byte, i: int): byte {
    ByteOf(Xor(x, t) + ByteOf(i))
  }

  /**
   * The specification of `calc` from position i on, with running byte t: the
   * first byte is mixed with t, and the mixed byte is the running byte for the rest.
   */
  function MixFrom(s: seq<byte>, t: byte, i: int): (r: seq<byte>)
    ensures |r| == |s|
  {
    if s == [] then [] else
      var m := Step(s[0], t, i);
      [m] + MixFrom(s[1..], m, i + 1)
  }

  /** What `calc` leaves in the slice: the whole input mixed from position 0 with running byte 165. */
  function Mixed(s: seq<byte>): (r: seq<byte>)
    ensures |r| == |s|
  {
    MixFrom(s, SEED, 0)
  }

  /** `calc(data)`: mixes the array in place, carrying the running byte t. */
  method Mix(data: array<byte>)
    modifies data
    ensures data[..] == Mixed(old(data[..]))
  {
    ghost var input := data[..];
    var t: byte := SEED;
    for i := 0 to data.Length
      invariant data[..i] + MixFrom(input[i..], t, i) == Mixed(input)
      invariant data[i..] == input[i..]
    {
      ghost var done := data[..i];
      ghost var t0 := t;
      data[i] := ByteOf(Xor(data[i], t) + ByteOf(i));
      t := data[i];
      MixAdvance(done, input, i, t0);
      assert data[..i + 1] == done + [t];
    }
    assert input[data.Length..] == [];
    assert data[..data.Length] == data[..];
  }

  /** One iteration of `calc` keeps the loop invariant: the mixed prefix grows by one step. */
  lemma MixAdvance(done: seq<byte>, input: seq<byte>, i: nat, t: byte)
    requires |done| == i < |input|
    ensures done + MixFrom(input[i..], t, i)
      == (done + [Step(input[i], t, i)]) + MixFrom(input[i + 1..], Step(input[i], t, i), i + 1)
  {
    assert input[i..][1..] == input[i + 1..];
  }

  /** The running byte before output position j: the given t at j = 0, the previous output byte after. */
  function Prev(o: seq<byte>, t: byte, j: nat): byte
    requires j <= |o|
  {
    if j == 0 then t else o[j - 1]
  }

  /** Byte j of the output is one step applied to input byte j and the output byte before it. */
  lemma {:induction false} MixFromAt(s: seq<byte>, t: byte, i: int, j: nat)
    requires j < |s|
    ensures MixFrom(s, t, i)[j] == Step(s[j], Prev(MixFrom(s, t, i), t, j), i + j)
  {
    if j > 0 {
      var m := Step(s[0], t, i);
      MixFromAt(s[1..], m, i + 1, j - 1);
    }
  }

  lemma StepValue(x: byte, t: byte, i: int)
    ensures Step(x, t, i) == (Xor(x, t) + i) % 256
  {
    ByteOfAddend(Xor(x, t), i);
  }

  /**
   * The recurrence the loop implements: out[0] = in[0] xor 165 and, for i >= 1,
   * out[i] = (in[i] xor out[i-1]) + i modulo 256.
   */
  lemma MixedRecurrence(s: seq<byte>, i: nat)
    requires i < |s|
    ensures i == 0 ==> Mixed(s)[0] == Xor(s[0], SEED)
    ensures i > 0 ==> Mixed(s)[i] == (Xor(s[i], Mixed(s)[i - 1]) + i) % 256
  {
    var o := Mixed(s);
    var prev := Prev(o, SEED, i);
    assert o[i] == (Xor(s[i], prev) + i) % 256 by {
      MixFromAt(s, SEED, 0, i);
      StepValue(s[i], prev, i);
    }
  }

  /** Undoing one output byte: in[j] = (out[j] - (i + j) mod 256) xor prev. */
  function UnmixFrom(o: seq<byte>, t: byte, i: int): (r: seq<byte>)
    ensures |r| == |o|
  {
    seq(|o|, j requires 0 <= j < |o| => Xor(ByteOf(o[j] - (i + j)), Prev(o, t, j)))
  }

  /** The inverse of the mixer: in[i] = (out[i] - i mod 256) xor prev, prev being 165 or out[i-1]. */
  function Unmixed(o: seq<byte>): (r: seq<byte>)
    ensures |r| == |o|
  {
    UnmixFrom(o, SEED, 0)
  }

  lemma UnmixMixAt(s: seq<byte>, j: nat)
    requires j < |s|
    ensures Unmixed(Mixed(s))[j] == s[j]
  {
    var o := Mixed(s);
    var prev := Prev(o, SEED, j);
    var x := Xor(s[j], prev);
    assert o[j] == ByteOf(x + j) by {
      MixFromAt(s, SEED, 0, j);
      StepValue(s[j], prev, j);
    }
    assert ByteOf(o[j] - j) == x by {
      ByteAddSub(x, j);
    }
    assert Unmixed(o)[j] == Xor(x, prev);
    XorCancel(s[j], prev);
  }

  /** Unmixing recovers the input: the mixer loses no information. */
  lemma UnmixMix(s: seq<byte>)
    ensures Unmixed(Mixed(s)) == s
  {
    forall j | 0 <= j < |s|
      ensures Unmixed(Mixed(s))[j] == s[j]
    {
      UnmixMixAt(s, j);
    }
  }

  /** One step applied to the unmixed byte gives the mixed byte back. */
  lemma StepUndone(y: byte, t: byte, i: int)
    ensures Step(Xor(ByteOf(y - i), t), t, i) == y
  {
    XorCancel(ByteOf(y - i), t);
    StepValue(Xor(ByteOf(y - i), t), t, i);
    ByteAddSub(y, i);
  }

  lemma {:induction false} MixFromUnmix(o: seq<byte>, t: byte, i: int)
    ensures MixFrom(UnmixFrom(o, t, i), t, i) == o
  {
    if o != [] {
      var u := UnmixFrom(o, t, i);
      assert Step(u[0], t, i) == o[0] by {
        StepUndone(o[0], t, i);
      }
      UnmixFromTail(o, t, i);
      MixFromUnmix(o[1..], o[0], i + 1);
      assert [o[0]] + o[1..] == o;
    }
  }

  /** Past the first byte, unmixing continues from the next position with the first output byte as running byte. */
  lemma UnmixFromTail(o: seq<byte>, t: byte, i: int)
    requires o != []
    ensures UnmixFrom(o, t, i)[1..] == UnmixFrom(o[1..], o[0], i + 1)
  {
    var u := UnmixFrom(o, t, i);
    var v := UnmixFrom(o[1..], o[0], i + 1);
    forall j | 0 <= j < |v|
      ensures u[1..][j] == v[j]
    {
      assert Prev(o, t, j + 1) == Prev(o[1..], o[0], j);
      assert i + (j + 1) == (i + 1) + j;
    }
  }

  /** Mixing the unmixed bytes gives them back: every output has exactly one input. */
  lemma MixUnmix(o: seq<byte>)
    ensures Mixed(Unmixed(o)) == o
  {
    MixFromUnmix(o, SEED, 0);
  }

  /** Distinct inputs mix to distinct outputs. */
  lemma MixedInjective(a: seq<byte>, b: seq<byte>)
    requires Mixed(a) == Mixed(b)
    ensures a == b
  {
    UnmixMix(a);
    UnmixMix(b);
  }
}

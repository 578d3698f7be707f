/** Java's `byte` and `int` values and the 4-byte little-endian store `writeInt`
    of nabu.misc.sound.Services, the layout RIFF uses for its size fields. */
module LittleEndian {

  /** A Java `byte`, read as its unsigned bit pattern. */
  newtype byte = b: int | 0 <= b < 256

  /** The values of a Java `int`. */
  type Int32 = v: int | -0x8000_0000 <= v < 0x8000_0000

  const TWO_TO_32: int := 0x1_0000_0000

  /** The 32-bit two's complement pattern of `v`, read as an unsigned number. */
  function ToUnsigned(v: Int32): (u: int)
    ensures 0 <= u < TWO_TO_32
    ensures (u - v) % TWO_TO_32 == 0
  {
    if v < 0 then v + TWO_TO_32 else v
  }

  /** The Java `int` whose bit pattern is the unsigned number `u`. */
  function ToSigned(u: int): (v: Int32)
    requires 0 <= u < TWO_TO_32
    ensures (u - v) % TWO_TO_32 == 0
  {
    if u < 0x8000_0000 then u else u - TWO_TO_32
  }

  /** 256 to the power k. */
  function Pow256(k: nat): (p: nat)
    ensures p > 0
  {
    if k == 0 then 1 else 256 * Pow256(k - 1)
  }

  /** Java's `value >>> (8 * i)`: the bit pattern shifted right by i whole bytes. */
  function ShiftRightBytes(value: Int32, i: nat): int
  {
    ToUnsigned(value) / Pow256(i)
  }

  /** Java's narrowing cast `(byte) x`: the low 8 bits of x. */
  function NarrowToByte(x: int): byte
  {
    (x % 256) as byte
  }

  /** The byte that `writeInt` stores at `offset + i`. */
  function ByteOf(value: Int32, i: nat): byte
  {
    NarrowToByte(ShiftRightBytes(value, i))
  }

  /** The four bytes `writeInt` stores, least significant first. */
  function Encode(value: Int32): (w: seq<byte>)
    ensures |w| == 4
  {
    [ByteOf(value, 0), ByteOf(value, 1), ByteOf(value, 2), ByteOf(value, 3)]
  }

  /** Reads four bytes as an unsigned little-endian number. */
  function Decode(w: seq<byte>): (u: int)
    requires |w| == 4
    ensures 0 <= u < TWO_TO_32
  {
    w[0] as int + 0x100 * w[1] as int + 0x1_0000 * w[2] as int + 0x100_0000 * w[3] as int
  }

  /** `s` with `w` written over it from position `off` on. */
  function Overwrite<T>(s: seq<T>, off: nat, w: seq<T>): (r: seq<T>)
    requires off + |w| <= |s|
    ensures |r| == |s|
    ensures r[off..off + |w|] == w
    ensures forall j :: 0 <= j < |s| && !(off <= j < off + |w|) ==> r[j] == s[j]
  {
    s[..off] + w + s[off + |w|..]
  }

  /** Writing what is already there changes nothing. */
  lemma OverwriteSame<T>(s: seq<T>, off: nat, w: seq<T>)
    requires off + |w| <= |s|
    requires s[off..off + |w|] == w
    ensures Overwrite(s, off, w) == s
  {
    assert s == s[..off] + s[off..off + |w|] + s[off + |w|..];
  }

  /** Decoding what `writeInt` stores gives back `value` modulo 2^32. */
  lemma DecodeEncode(value: Int32)
    ensures Decode(Encode(value)) == ToUnsigned(value)
  {
    var u := ToUnsigned(value);
    assert Pow256(1) == 0x100 && Pow256(2) == 0x1_0000 && Pow256(3) == 0x100_0000;
    var q1 := u / 0x100;
    var q2 := q1 / 0x100;
    var q3 := q2 / 0x100;
    DivDiv(u, 0x100);
    DivDiv(u, 0x1_0000);
    assert u == u % 0x100 + 0x100 * q1;
    assert q1 == q1 % 0x100 + 0x100 * q2;
    assert q2 == q2 % 0x100 + 0x100 * q3;
    assert q3 < 0x100;
  }

  /** A Java `int` survives the store and a signed re-read unchanged. */
  lemma SignedRoundTrip(value: Int32)
    ensures ToSigned(Decode(Encode(value))) == value
  {
    DecodeEncode(value);
  }

  /** Every four bytes are what `writeInt` stores for the `int` they spell. */
  lemma EncodeDecode(w: seq<byte>)
    requires |w| == 4
    ensures Encode(ToSigned(Decode(w))) == w
  {
    var u := Decode(w);
    var v := ToSigned(u);
    assert ToUnsigned(v) == u;
    assert Pow256(1) == 0x100 && Pow256(2) == 0x1_0000 && Pow256(3) == 0x100_0000;
    var b0, b1, b2, b3 := w[0] as int, w[1] as int, w[2] as int, w[3] as int;
    var hi := b1 + 0x100 * b2 + 0x1_0000 * b3;
    assert u == b0 + 0x100 * hi;
    assert u / 0x100 == hi && u % 0x100 == b0;
    DivDiv(u, 0x100);
    assert hi == b1 + 0x100 * (b2 + 0x100 * b3);
    assert hi / 0x100 == b2 + 0x100 * b3 && hi % 0x100 == b1;
    DivDiv(u, 0x1_0000);
    var top := b2 + 0x100 * b3;
    assert top / 0x100 == b3 && top % 0x100 == b2;
    assert u / 0x100_0000 == b3;
    assert Encode(v)[0] == w[0] && Encode(v)[1] == w[1];
    assert Encode(v)[2] == w[2] && Encode(v)[3] == w[3];
  }

  /** Shifting right by one byte, then by one more, is shifting by both at once. */
  lemma DivDiv(u: int, a: int)
    requires u >= 0 && (a == 0x100 || a == 0x1_0000)
    ensures u / a / 0x100 == u / (a * 0x100)
  {
    var q, r := u / a, u % a;
    var q2, r2 := q / 0x100, q % 0x100;
    assert u == a * q + r;
    assert q == 0x100 * q2 + r2;
    assert u == (a * 0x100) * q2 + (a * r2 + r);
    assert 0 <= a * r2 + r < a * 0x100;
  }

  /** Java's `writeInt(value, array, offset)`: stores `value` little-endian
      into `buffer[offset..offset + 4]` and nothing else. */
  method WriteInt(value: Int32, buffer: array<byte>, offset: nat)
    requires offset + 4 <= buffer.Length
    modifies buffer
    ensures buffer[..] == Overwrite(old(buffer[..]), offset, Encode(value))
  {
    for i := 0 to 4
      invariant forall j :: 0 <= j < buffer.Length && !(offset <= j < offset + i) ==> buffer[j] == old(buffer[j])
      invariant forall j :: 0 <= j < i ==> buffer[offset + j] == ByteOf(value, j)
    {
      buffer[offset + i] := ByteOf(value, i);
    }
    assert buffer[..] == Overwrite(old(buffer[..]), offset, Encode(value)) by {
      var want := Overwrite(old(buffer[..]), offset, Encode(value));
      forall j | 0 <= j < buffer.Length ensures buffer[j] == want[j] {
        if offset <= j < offset + 4 {
          assert want[j] == want[offset..offset + 4][j - offset];
        }
      }
    }
  }
}

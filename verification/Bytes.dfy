/** Fixed-width integers as byte sequences: what encoding/binary's little-endian
    helpers and Go's narrowing conversions do.  Every function here takes an
    unbounded int and truncates it the way the Go conversion does. */
module Bytes {
  type byte = x: int | 0 <= x < 256
  type int16 = x: int | -0x8000 <= x < 0x8000
  type int32 = x: int | -0x8000_0000 <= x < 0x8000_0000

  const TWO_16 := 0x1_0000
  const TWO_28 := 0x1000_0000
  const TWO_32 := 0x1_0000_0000

  /** uint16(n), least significant byte first. */
  function LE16(n: int): (b: seq<byte>)
    ensures |b| == 2
  {
    [n % 0x100, n / 0x100 % 0x100]
  }

  function FromLE16(b: seq<byte>): (n: nat)
    requires |b| == 2
    ensures n < TWO_16
  {
    b[0] as int + 0x100 * b[1] as int
  }

  /** uint32(n), least significant byte first. */
  function LE32(n: int): (b: seq<byte>)
    ensures |b| == 4
  {
    [n % 0x100, n / 0x100 % 0x100, n / 0x1_0000 % 0x100, n / 0x100_0000 % 0x100]
  }

  function FromLE32(b: seq<byte>): (n: nat)
    requires |b| == 4
    ensures n < TWO_32
  {
    b[0] as int + 0x100 * b[1] as int + 0x1_0000 * b[2] as int + 0x100_0000 * b[3] as int
  }

  lemma LE16RoundTrip(n: int)
    ensures FromLE16(LE16(n)) == n % TWO_16
  {
    assert n / 0x100 / 0x100 == n / 0x1_0000;
  }

  lemma LE32RoundTrip(n: int)
    ensures FromLE32(LE32(n)) == n % TWO_32
  {
    assert n / 0x100 / 0x100 == n / 0x1_0000;
    assert n / 0x1_0000 / 0x100 == n / 0x100_0000;
    assert n / 0x100_0000 / 0x100 == n / TWO_32;
  }

  /** Which byte goes where. */
  lemma LittleEndian(a: byte, b: byte, c: byte, d: byte)
    ensures LE16(a + 0x100 * b) == [a, b] && FromLE16([a, b]) == a + 0x100 * b
    ensures var n := a + 0x100 * b + 0x1_0000 * c + 0x100_0000 * d;
            LE32(n) == [a, b, c, d] && FromLE32([a, b, c, d]) == n
  {
    LowByte(a, b);
    LowByte(a, b + 0x100 * c + 0x1_0000 * d);
    LowByte(b, c + 0x100 * d);
    LowByte(c, d);
    var n := a + 0x100 * b + 0x1_0000 * c + 0x100_0000 * d;
    assert n / 0x100 == b + 0x100 * c + 0x1_0000 * d;
    assert n / 0x1_0000 == n / 0x100 / 0x100 && n / 0x100_0000 == n / 0x1_0000 / 0x100;
  }

  lemma LowByte(a: byte, rest: nat)
    ensures (a + 0x100 * rest) % 0x100 == a && (a + 0x100 * rest) / 0x100 == rest
  {
  }

  /** Narrowing keeps the value modulo the width. */
  lemma NarrowingWraps(u: nat, v: nat)
    requires u < TWO_16 && v < TWO_32
    ensures (u - ToInt16(u)) % 0x1_0000 == 0 && (v - ToInt32(v)) % 0x1_0000_0000 == 0
  {
  }

  /** int16(u) for a uint16 u. */
  function ToInt16(u: nat): int16
    requires u < TWO_16
  {
    if u < 0x8000 then u else u - TWO_16
  }

  /** int32(u) for a uint32 u. */
  function ToInt32(u: nat): int32
    requires u < TWO_32
  {
    if u < 0x8000_0000 then u else u - TWO_32
  }

  lemma Int16RoundTrip(s: int16)
    ensures ToInt16(FromLE16(LE16(s))) == s
  {
    LE16RoundTrip(s);
  }

  lemma Int32RoundTrip(v: int32)
    ensures ToInt32(FromLE32(LE32(v))) == v
  {
    LE32RoundTrip(v);
    Wrapped32(v, FromLE32(LE32(v)));
  }

  lemma Wrapped32(v: int32, u: nat)
    requires u == v % TWO_32
    ensures u < TWO_32 && ToInt32(u) == v
  {
  }

  function Zeros(n: nat): (z: seq<byte>)
    ensures |z| == n
  {
    seq(n, _ => 0)
  }

  /** A four-character identifier, as chunk formats use them. */
  datatype FourCC = FourCC(a: byte, b: byte, c: byte, d: byte)

  function IdOf(b: seq<byte>): FourCC
    requires |b| == 4
  {
    FourCC(b[0], b[1], b[2], b[3])
  }

  lemma IdInOrder(a: byte, b: byte, c: byte, d: byte)
    ensures IdBytes(FourCC(a, b, c, d)) == [a, b, c, d] && IdOf([a, b, c, d]) == FourCC(a, b, c, d)
  {
  }

  function IdBytes(id: FourCC): (b: seq<byte>)
    ensures |b| == 4 && IdOf(b) == id
  {
    [id.a, id.b, id.c, id.d]
  }
}

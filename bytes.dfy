/** Bytes, optional values and the little helpers every other module of the
    adapter and of the relay shares. A byte is an 8-bit vector so that the
    masks of the controller reports read as they do in C. */
module Bytes {

  type byte = bv8

  datatype Option<T> = None | Some(value: T)

  /** The first `n` elements of `s`, or all of `s` when it is shorter: what a
      read of at most `n` bytes hands back from a buffer holding `s`. */
  function Take<T>(s: seq<T>, n: nat): (r: seq<T>)
    ensures |r| == if |s| < n then |s| else n
    ensures r == s[..|r|]
  {
    if |s| < n then s else s[..n]
  }

  function Min(a: int, b: int): int
  {
    if a < b then a else b
  }

  /** A number below 256 as a byte. */
  function ToByte(n: nat): (b: byte)
    requires n < 256
    ensures b as int == n
  {
    assert CountTo(n) as int == n;
    var b: byte :| b as int == n;
    b
  }

  /** The byte reached by counting up n times from zero. */
  ghost function CountTo(n: nat): (b: byte)
    requires n < 256
    ensures b as int == n
  {
    if n == 0 then 0 else CountTo(n - 1) + 1
  }

  /** The low eight bits of a non-negative integer, as C's `x & 0xFF`. */
  function Lo8(x: nat): (b: byte)
    ensures b as int == x % 256
  {
    ToByte(x % 256)
  }

  /** Bits 8..15 of a non-negative integer, as C's `(x >> 8) & 0xFF`. */
  function Hi8(x: nat): (b: byte)
    ensures b as int == (x / 256) % 256
  {
    ToByte((x / 256) % 256)
  }

  /** The value of a byte, counted up from zero. It is `b as int` (see
      ValIsInt), in a form whose definition is unfolded only on demand. */
  function Val(b: byte): nat
  {
    if b == 0 then 0 else Val(b - 1) + 1
  }

  lemma {:induction false} ValIsInt(b: byte)
    ensures Val(b) == b as int
    decreases b
  {
    if b != 0 {
      ValIsInt(b - 1);
      assert (b - 1) as int == b as int - 1;
    }
  }

  /** A 16-bit value from its two bytes, high byte first. */
  function Be16(hi: byte, lo: byte): (n: nat)
    ensures n < 65536
  {
    ValIsInt(hi);
    ValIsInt(lo);
    Val(hi) * 256 + Val(lo)
  }

  lemma {:induction false} Be16Value(hi: byte, lo: byte)
    ensures Be16(hi, lo) == hi as int * 256 + lo as int
  {
    ValIsInt(hi);
    ValIsInt(lo);
  }

  lemma {:induction false} Be16OfSplit(x: nat)
    requires x < 65536
    ensures Be16(Hi8(x), Lo8(x)) == x
  {
    var h := x / 256;
    var l := x % 256;
    assert x == h * 256 + l;
    assert h % 256 == h;
    assert Hi8(x) as int == h && Lo8(x) as int == l;
    Be16Value(Hi8(x), Lo8(x));
  }

  lemma {:induction false} SplitOfBe16(hi: byte, lo: byte)
    ensures Hi8(Be16(hi, lo)) == hi && Lo8(Be16(hi, lo)) == lo
  {
    var n := Be16(hi, lo);
    Be16Value(hi, lo);
    var h := hi as int;
    assert h < 256;
    assert n / 256 == h;
    assert h % 256 == h;
    assert n % 256 == lo as int;
    ByteInjective(Hi8(n), hi);
    ByteInjective(Lo8(n), lo);
  }

  lemma {:induction false} ByteIntRoundTrip(b: byte)
    ensures ToByte(b as int) == b
  {
    ByteInjective(ToByte(b as int), b);
  }

  /** A byte is determined by its value. */
  lemma ByteInjective(a: byte, b: byte)
    requires a as int == b as int
    ensures a == b
  {
  }

  /** C's `int16_t`. */
  type Int16 = x: int | -32768 <= x < 32768

  /** The two's-complement bit pattern of an `int16_t`. */
  function Bits16(v: Int16): (u: nat)
    ensures u < 65536
    ensures u == v % 65536
  {
    if v < 0 then v + 65536 else v
  }

  /** The two bytes C stores for an `int16_t` written little-endian as
      `v & 0xFF` and `(v >> 8) & 0xFF`: the low and high byte of its bit
      pattern. */
  function Le16(v: Int16): (b: seq<byte>)
    ensures |b| == 2
    ensures b[0] as int + 256 * b[1] as int == v % 65536
  {
    var u := Bits16(v);
    Be16OfSplit(u);
    Be16Value(Hi8(u), Lo8(u));
    [Lo8(u), Hi8(u)]
  }

  /** The `int16_t` whose little-endian bytes are `lo` and `hi`, as the cast
      `(int16_t)(lo | hi << 8)` reads it. */
  function FromLe16(lo: byte, hi: byte): (v: Int16)
    ensures Bits16(v) == Be16(hi, lo)
  {
    var u := Be16(hi, lo);
    if u >= 32768 then u - 65536 else u
  }

  /** Reading back what was stored gives the value again. */
  lemma {:induction false} Le16RoundTrip(v: Int16)
    ensures FromLe16(Le16(v)[0], Le16(v)[1]) == v
  {
    Be16OfSplit(Bits16(v));
  }

  /** Storing what was read gives the bytes again. */
  lemma {:induction false} FromLe16RoundTrip(lo: byte, hi: byte)
    ensures Le16(FromLe16(lo, hi)) == [lo, hi]
  {
    SplitOfBe16(hi, lo);
  }
}

/** The CRC-32 the DualSense expects at the end of a Bluetooth output
    report: the Ethernet frame check sequence of IEEE 802.3 (section 3.2.9),
    computed bit-reflected with polynomial 0xEDB88320, register preset to
    all ones and complemented at the end. The adapter computes it a byte at
    a time from a 256-entry table; the bit-at-a-time definition here is the
    reference the table-driven loop is proved against.

    The 32-bit register (`uint32_t` in the adapter) is a sequence of 32
    bits with bit k, the coefficient of 2^k, at index k. Shifts, `&` and
    `^` then act position by position, which keeps the proofs about them
    small. */
module Crc32 {
  import opened Bytes

  type Word = s: seq<bool> | |s| == 32
    witness [false, false, false, false, false, false, false, false, false, false, false, false, false, false, false, false, false, false, false, false, false, false, false, false, false, false, false, false, false, false, false, false]

  function Pow2(k: nat): (p: nat)
    ensures p > 0
  {
    if k == 0 then 1 else 2 * Pow2(k - 1)
  }

  /** The low k bits of n, least significant first. */
  function Bits(n: nat, k: nat): (s: seq<bool>)
    ensures |s| == k
  {
    if k == 0 then [] else [n % 2 == 1] + Bits(n / 2, k - 1)
  }

  /** The number a bit sequence stands for. */
  function Value(s: seq<bool>): (v: nat)
    ensures v < Pow2(|s|)
  {
    if s == [] then 0 else (if s[0] then 1 else 0) + 2 * Value(s[1..])
  }

  /** Bits and Value are inverse below 2^k. */
  lemma {:induction false} ValueOfBits(n: nat, k: nat)
    requires n < Pow2(k)
    ensures Value(Bits(n, k)) == n
  {
    if k > 0 {
      ValueOfBits(n / 2, k - 1);
      assert Bits(n, k)[1..] == Bits(n / 2, k - 1);
    }
  }

  lemma {:induction false} BitsOfValue(s: seq<bool>, m: nat)
    ensures Bits(Value(s), |s| + m) == s + Zeros(m)
  {
    if s == [] {
      ZeroBits(m);
    } else {
      var v := Value(s[1..]);
      assert Value(s) / 2 == v && (Value(s) % 2 == 1) == s[0];
      BitsOfValue(s[1..], m);
      assert s == [s[0]] + s[1..];
    }
  }

  /** The low bits of a concatenation are its first part. */
  lemma {:induction false} ValueAppend(a: seq<bool>, b: seq<bool>)
    ensures Value(a + b) == Value(a) + Pow2(|a|) * Value(b)
  {
    if a == [] {
      assert a + b == b;
    } else {
      assert (a + b)[1..] == a[1..] + b;
      ValueAppend(a[1..], b);
      var h: int := if a[0] then 1 else 0;
      var p: int, v: int, r: int := Pow2(|a| - 1), Value(b), Value(a[1..]);
      assert Value(a + b) == h + 2 * Value(a[1..] + b);
      Times2Assoc(p, v);
      assert Value(a) == h + 2 * r && Pow2(|a|) == 2 * p;
    }
  }

  lemma Times2Assoc(p: int, v: int)
    ensures 2 * (p * v) == (2 * p) * v
  {
  }

  lemma {:induction false} ZeroBits(m: nat)
    ensures Bits(0, m) == Zeros(m)
  {
    if m > 0 {
      ZeroBits(m - 1);
    }
  }

  /** The 32-bit value of a number below 2^32, as C's assignment of a small
      integer to a `uint32_t`. */
  function ToWord(n: nat): Word
  {
    Bits(n, 32)
  }

  /** k zero bits. */
  function Zeros(k: nat): (s: seq<bool>)
    ensures |s| == k && forall i :: 0 <= i < k ==> !s[i]
  {
    seq(k, _ => false)
  }

  /** The rounds of the reflected division per byte. */
  const BYTE_BITS: nat := 8

  const ZERO: Word := Zeros(32)
  const ONES: Word := Not(ZERO)
  const POLY: Word := ToWord(0xEDB8_8320)

  function Xor(a: Word, b: Word): (c: Word)
    ensures forall i :: 0 <= i < 32 ==> c[i] == (a[i] != b[i])
  {
    seq(32, i requires 0 <= i < 32 => a[i] != b[i])
  }

  /** `~c` */
  function Not(c: Word): (d: Word)
    ensures forall i :: 0 <= i < 32 ==> d[i] == !c[i]
  {
    seq(32, i requires 0 <= i < 32 => !c[i])
  }

  /** `c >> 1` */
  function Shr1(c: Word): Word
  {
    c[1..] + [false]
  }

  /** `c >> 8` */
  function Shr8(c: Word): Word
  {
    c[8..] + Zeros(8)
  }

  /** `c & 0xFF` read as an index. */
  function Low8(c: Word): (v: nat)
    ensures v < 256
  {
    Value(c[..8])
  }

  /** A byte widened to 32 bits. */
  function Widen(b: byte): Word
  {
    ToWord(b as int)
  }

  /** The polynomial is subtracted exactly when the bit shifted out was
      set: `(crc & 1) ? 0xEDB88320 : 0`. */
  function Subtrahend(c: Word): Word
  {
    if c[0] then POLY else ZERO
  }

  /** One bit of the reflected division. */
  function Round(c: Word): Word
  {
    Xor(Shr1(c), Subtrahend(c))
  }

  function Rounds(c: Word, n: nat): Word
    decreases n
  {
    if n == 0 then c else Round(Rounds(c, n - 1))
  }

  /** Entry i of the table: i divided through its eight bits. Entry 0 is
      0, and entry 128, whose one bit is the last to be shifted out, is the
      polynomial itself. */
  function TableEntry(i: nat): (e: Word)
    requires i < 256
    ensures i == 0 ==> e == ZERO
    ensures i == 128 ==> e == POLY
  {
    RoundsOfZero(BYTE_BITS);
    ZeroBits(32);
    RoundsOfTop();
    Rounds(ToWord(i), BYTE_BITS)
  }

  /** Dividing zero leaves zero. */
  lemma {:induction false} RoundsOfZero(n: nat)
    ensures Rounds(ZERO, n) == ZERO
    decreases n
  {
    if n > 0 {
      RoundsOfZero(n - 1);
      assert Shr1(ZERO) == ZERO;
      assert Xor(ZERO, ZERO) == ZERO;
    }
  }

  /** A round on an even register is a plain halving. */
  lemma {:induction false} RoundOfEven(n: nat)
    requires n < 0x8000_0000
    ensures Round(ToWord(2 * n)) == ToWord(n)
  {
    var c := ToWord(2 * n);
    assert c == [false] + Bits(n, 31);
    Pow2Of32();
    ValueOfBits(n, 31);
    BitsOfValue(Bits(n, 31), 1);
    assert Zeros(1) == [false];
    assert Shr1(c) == ToWord(n);
    assert Xor(Shr1(c), ZERO) == Shr1(c);
  }

  /** Seven halvings bring bit 7 down to bit 0, and the eighth round
      shifts it out and subtracts the polynomial. */
  lemma {:induction false} RoundsOfTop()
    ensures Rounds(ToWord(128), BYTE_BITS) == POLY
  {
    RoundOfEven(64);
    RoundOfEven(32);
    RoundOfEven(16);
    RoundOfEven(8);
    RoundOfEven(4);
    RoundOfEven(2);
    RoundOfEven(1);
    assert Rounds(ToWord(128), 1) == ToWord(64);
    assert Rounds(ToWord(128), 2) == ToWord(32);
    assert Rounds(ToWord(128), 3) == ToWord(16);
    assert Rounds(ToWord(128), 4) == ToWord(8);
    assert Rounds(ToWord(128), 5) == ToWord(4);
    assert Rounds(ToWord(128), 6) == ToWord(2);
    assert Rounds(ToWord(128), 7) == ToWord(1);
    var one := ToWord(1);
    assert one == [true] + Bits(0, 31);
    ZeroBits(31);
    assert Shr1(one) == ZERO;
    assert Xor(ZERO, POLY) == POLY;
  }

  /** The bitwise register update for one byte. */
  function ByteStep(crc: Word, b: byte): Word
  {
    Rounds(Xor(crc, Widen(b)), BYTE_BITS)
  }

  /** The register after the bytes of `data`, bit by bit. */
  function Update(crc: Word, data: seq<byte>): Word
  {
    if data == [] then crc else ByteStep(Update(crc, data[..|data| - 1]), data[|data| - 1])
  }

  /** The reference checksum. */
  function Checksum(data: seq<byte>): Word
  {
    Not(Update(ONES, data))
  }

  /** The checksum as the number C returns. */
  function ChecksumValue(data: seq<byte>): (v: nat)
    ensures v < 0x1_0000_0000
  {
    Pow2Of32();
    Value(Checksum(data))
  }

  lemma Pow2Of32()
    ensures Pow2(32) == 0x1_0000_0000
  {
    assert Pow2(4) == 0x10;
    assert Pow2(8) == 0x100;
    assert Pow2(12) == 0x1000;
    assert Pow2(16) == 0x1_0000;
    assert Pow2(20) == 0x10_0000;
    assert Pow2(24) == 0x100_0000;
    assert Pow2(28) == 0x1000_0000;
  }

  /** The polynomial constant is 0xEDB88320. */
  lemma PolyValue()
    ensures Value(POLY) == 0xEDB8_8320
  {
    Pow2Of32();
    ValueOfBits(0xEDB8_8320, 32);
  }

  /** The empty message has checksum zero: the preset is complemented
      away. */
  lemma ChecksumOfEmpty()
    ensures ChecksumValue([]) == 0
  {
    assert Checksum([]) == ZERO;
    ZeroBits(32);
    ValueOfBits(0, 32);
  }

  /** The register runs over a message piece by piece: the checksum of a
      concatenation continues from the register of its first part. */
  lemma {:induction false} UpdateAppend(crc: Word, a: seq<byte>, b: seq<byte>)
    ensures Update(crc, a + b) == Update(Update(crc, a), b)
    decreases |b|
  {
    if b == [] {
      assert a + b == a;
    } else {
      var b' := b[..|b| - 1];
      assert (a + b)[..|a + b| - 1] == a + b';
      UpdateAppend(crc, a, b');
    }
  }

  /** One round is linear in the register. */
  lemma {:induction false} RoundXor(a: Word, b: Word)
    ensures Round(Xor(a, b)) == Xor(Round(a), Round(b))
  {
    var l := Round(Xor(a, b));
    var r := Xor(Round(a), Round(b));
    forall i | 0 <= i < 32
      ensures l[i] == r[i]
    {
    }
  }

  /** So are any number of rounds. */
  lemma {:induction false} RoundsXor(a: Word, b: Word, n: nat)
    ensures Rounds(Xor(a, b), n) == Xor(Rounds(a, n), Rounds(b, n))
  {
    if n > 0 {
      RoundsXor(a, b, n - 1);
      RoundXor(Rounds(a, n - 1), Rounds(b, n - 1));
    }
  }

  /** Bits above the low byte are only shifted by up to eight rounds. */
  lemma {:induction false} RoundsOfHigh(h: Word, k: nat)
    requires k <= 8
    requires forall i :: 0 <= i < 8 ==> !h[i]
    ensures Rounds(h, k) == h[k..] + Zeros(k)
  {
    if k > 0 {
      RoundsOfHigh(h, k - 1);
      var c := Rounds(h, k - 1);
      assert !c[0];
      assert Subtrahend(c) == ZERO;
      assert Round(c) == Shr1(c);
    }
  }

  /** The table step the adapter uses is the bitwise step: eight rounds of
      the register xor the byte are the register shifted by eight xor the
      table entry of the low byte. */
  lemma {:induction false} TableStep(crc: Word, b: byte)
    ensures Xor(Shr8(crc), TableEntry(Low8(Xor(crc, Widen(b))))) == ByteStep(crc, b)
  {
    var x := Xor(crc, Widen(b));
    var lo := x[..8] + Zeros(24);
    var hi := Zeros(8) + x[8..];
    WidenHigh(b);
    assert x == Xor(hi, lo);
    BitsOfValue(x[..8], 24);
    assert ToWord(Low8(x)) == lo;
    RoundsOfHigh(hi, 8);
    HighOfXorWiden(crc, b);
    assert hi[8..] == x[8..];
    RoundsXor(hi, lo, 8);
  }

  /** Xor with a widened byte leaves the bits above the low eight alone. */
  lemma {:induction false} HighOfXorWiden(crc: Word, b: byte)
    ensures Xor(crc, Widen(b))[8..] == crc[8..]
  {
    var x := Xor(crc, Widen(b));
    WidenHigh(b);
    forall i | 8 <= i < 32
      ensures x[i] == crc[i]
    {
    }
  }

  /** A widened byte has no bits above the low eight. */
  lemma {:induction false} WidenHigh(b: byte)
    ensures forall i :: 8 <= i < 32 ==> !Widen(b)[i]
  {
    BitsOfValue(Bits(b as int, 8), 24);
    ValueOfBits(b as int, 8);
    assert Bits(b as int, 32) == Bits(b as int, 8) + Zeros(24);
  }

  function TableUpTo(n: nat): (t: seq<Word>)
    requires n <= 256
    ensures |t| == n && forall k :: 0 <= k < n ==> t[k] == TableEntry(k)
  {
    seq(n, k requires 0 <= k < n => TableEntry(k))
  }

  /** `crc32_table` with its `crc32_initialized` flag. */
  class Table {
    const entries: array<Word>
    var initialized: bool

    predicate Valid()
      reads this, entries
    {
      entries.Length == 256 &&
      (initialized ==> forall i :: 0 <= i < 256 ==> entries[i] == TableEntry(i))
    }

    /** The table as the program starts: zero-filled, not initialized. */
    constructor ()
      ensures Valid() && !initialized && fresh(entries)
      ensures entries[..] == seq(256, _ => ZERO)
    {
      entries := new Word[256](_ => ZERO);
      initialized := false;
    }

    /** `init_crc32_table`: fills the table once. */
    method Init()
      requires Valid()
      modifies this, entries
      ensures Valid() && initialized
      ensures old(initialized) ==> entries[..] == old(entries[..])
    {
      if initialized {
        return;
      }
      for i := 0 to 256
        invariant entries[..i] == TableUpTo(i)
      {
        var crc := ToWord(i);
        for j := 0 to 8
          invariant crc == Rounds(ToWord(i), j)
        {
          crc := Xor(Shr1(crc), if crc[0] then POLY else ZERO);
        }
        assert crc == TableEntry(i);
        entries[i] := crc;
        assert entries[..i + 1] == entries[..i] + [crc];
        assert TableUpTo(i + 1) == TableUpTo(i) + [TableEntry(i)];
      }
      initialized := true;
      assert entries[..] == entries[..256];
    }

    /** `dualsense_calc_crc32`: once the table is filled, the table-driven
        loop computes the reference checksum. */
    method Calc(data: seq<byte>) returns (crc: Word)
      requires Valid()
      ensures initialized ==> crc == Checksum(data)
    {
      var c := ONES;
      for i := 0 to |data|
        invariant initialized ==> c == Update(ONES, data[..i])
      {
        if initialized {
          assert data[..i + 1][..i] == data[..i];
          TableStep(c, data[i]);
        }
        c := Xor(Shr8(c), entries[Low8(Xor(c, Widen(data[i])))]);
      }
      assert data[..|data|] == data;
      return Not(c);
    }
  }
}

/** Two-digit upper-case hexadecimal rendering of a byte, as `%02X` in C's
    `printf` family and `{b:02X}` in Python format strings, and the digit
    scanning `%X` does in `sscanf`. */
module HexText {
  import opened Bytes

  /** An upper-case hexadecimal digit. */
  predicate IsHexDigit(c: char)
  {
    '0' <= c <= '9' || 'A' <= c <= 'F'
  }

  /** The digit for a value below 16: `0`-`9`, then `A`-`F`. */
  function HexDigit(n: nat): (c: char)
    requires n < 16
    ensures IsHexDigit(c)
  {
    if n < 10 then ('0' as int + n) as char else ('A' as int + n - 10) as char
  }

  /** The value of a hexadecimal digit of either case, as `sscanf` reads it. */
  function DigitValue(c: char): (v: Option<nat>)
    ensures v.Some? ==> v.value < 16
  {
    if '0' <= c <= '9' then Some(c as int - '0' as int)
    else if 'A' <= c <= 'F' then Some(c as int - 'A' as int + 10)
    else if 'a' <= c <= 'f' then Some(c as int - 'a' as int + 10)
    else None
  }

  lemma {:induction false} DigitValueOfHexDigit(n: nat)
    requires n < 16
    ensures DigitValue(HexDigit(n)) == Some(n)
  {
  }

  /** `%02X` of one byte: always exactly two upper-case digits, high nibble first. */
  function Hex2(b: byte): (s: string)
    ensures |s| == 2
    ensures IsHexDigit(s[0]) && IsHexDigit(s[1])
  {
    [HexDigit(b as int / 16), HexDigit(b as int % 16)]
  }

  /** The two digits read back as the high and the low nibble. */
  lemma {:induction false} Hex2Digits(b: byte)
    ensures DigitValue(Hex2(b)[0]) == Some(b as int / 16)
    ensures DigitValue(Hex2(b)[1]) == Some(b as int % 16)
  {
    DigitValueOfHexDigit(b as int / 16);
    DigitValueOfHexDigit(b as int % 16);
  }

  /** Two rendered bytes are equal only if the bytes are. */
  lemma {:induction false} Hex2Injective(a: byte, b: byte)
    requires Hex2(a) == Hex2(b)
    ensures a == b
  {
    Hex2Digits(a);
    Hex2Digits(b);
    NibbleSum(a as int);
    NibbleSum(b as int);
    ByteInjective(a, b);
  }

  lemma NibbleSum(v: nat)
    ensures (v / 16) * 16 + v % 16 == v
  {
  }

  /** The two-digit renderings of the bytes, one separator between each two. */
  function HexJoin(data: seq<byte>, sep: char): (s: string)
    ensures |s| == if data == [] then 0 else 3 * |data| - 1
  {
    if data == [] then ""
    else if |data| == 1 then Hex2(data[0])
    else Hex2(data[0]) + [sep] + HexJoin(data[1..], sep)
  }

  /** Byte i is rendered at columns 3i and 3i+1, and the separator follows
      every byte but the last. */
  lemma {:induction false} HexJoinAt(data: seq<byte>, sep: char, i: nat)
    requires i < |data|
    ensures HexJoin(data, sep)[3 * i..3 * i + 2] == Hex2(data[i])
    ensures i + 1 < |data| ==> HexJoin(data, sep)[3 * i + 2] == sep
  {
    if i == 0 {
      HexJoinHead(data, sep);
    } else {
      var t := HexJoin(data[1..], sep);
      HexJoinTail(data, sep);
      HexJoinAt(data[1..], sep, i - 1);
      assert data[1..][i - 1] == data[i];
      AfterPrefix(Hex2(data[0]) + [sep], t, 3 * (i - 1));
    }
  }

  lemma {:induction false} HexJoinHead(data: seq<byte>, sep: char)
    requires data != []
    ensures HexJoin(data, sep)[..2] == Hex2(data[0])
    ensures |data| > 1 ==> HexJoin(data, sep)[2] == sep
  {
    if |data| > 1 {
      HexJoinTail(data, sep);
    }
  }

  lemma {:induction false} HexJoinTail(data: seq<byte>, sep: char)
    requires |data| > 1
    ensures HexJoin(data, sep) == Hex2(data[0]) + [sep] + HexJoin(data[1..], sep)
  {
  }

  /** Columns j.. of t are columns j+3.. of a three-character prefix and t. */
  lemma {:induction false} AfterPrefix(p: string, t: string, j: nat)
    requires |p| == 3 && j + 2 <= |t|
    ensures (p + t)[j + 3..j + 5] == t[j..j + 2]
    ensures j + 2 < |t| ==> (p + t)[j + 5] == t[j + 2]
  {
  }

  /** The rendering is made of digits and separators only. */
  lemma {:induction false} HexJoinChars(data: seq<byte>, sep: char)
    ensures forall c :: c in HexJoin(data, sep) ==> IsHexDigit(c) || c == sep
  {
    if |data| > 1 {
      HexJoinChars(data[1..], sep);
    }
  }

  /** The rendering shows every byte: equal renderings come from equal bytes. */
  lemma {:induction false} HexJoinInjective(a: seq<byte>, b: seq<byte>, sep: char)
    requires HexJoin(a, sep) == HexJoin(b, sep)
    ensures a == b
  {
    assert |a| == |b|;
    forall i | 0 <= i < |a|
      ensures a[i] == b[i]
    {
      HexJoinAt(a, sep, i);
      HexJoinAt(b, sep, i);
      Hex2Injective(a[i], b[i]);
    }
  }
}

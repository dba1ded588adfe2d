/** Bluetooth device addresses as the adapter handles them: six bytes, most
    significant first, written as `XX:XX:XX:XX:XX:XX` and read back with
    `sscanf`. BlueZ keeps a `bdaddr_t` in the opposite byte order. */
module MacAddress {
  import opened Bytes
  import opened HexText

  type Mac = m: seq<byte> | |m| == 6 witness [0, 0, 0, 0, 0, 0]

  const ZERO_MAC: Mac := [0, 0, 0, 0, 0, 0]

  /** `bt_hid_mac_to_str`: `%02X` of each byte, joined by colons. */
  function MacToStr(m: Mac): (s: string)
    ensures |s| == 17
  {
    HexJoin(m, ':')
  }

  /** Byte k is written at columns 3k and 3k+1, a colon after all but the
      last. */
  lemma {:induction false} MacToStrAt(m: Mac, k: nat)
    requires k < 6
    ensures MacToStr(m)[3 * k..3 * k + 2] == Hex2(m[k])
    ensures k < 5 ==> MacToStr(m)[3 * k + 2] == ':'
  {
    HexJoinAt(m, ':', k);
  }

  /** The characters `sscanf` skips before a numeric conversion. */
  predicate IsSpace(c: char)
  {
    c == ' ' || c == '\t' || c == '\n' || c == '\r' || c == '\U{B}' || c == '\U{C}'
  }

  function SkipSpace(s: string, i: nat): (j: nat)
    requires i <= |s|
    ensures i <= j <= |s|
    ensures j < |s| ==> !IsSpace(s[j])
    ensures forall k :: i <= k < j ==> IsSpace(s[k])
    decreases |s| - i
  {
    if i < |s| && IsSpace(s[i]) then SkipSpace(s, i + 1) else i
  }

  /** The range of C's `unsigned int`, which `%X` stores into. */
  const UINT_RANGE: nat := 0x1_0000_0000

  /** One `%02X` conversion at position i, as glibc's `sscanf` makes it:
      leading white space skipped, then a field of at most two characters,
      which is a sign and one digit, a `0x` or `0X` prefix (read as a bare
      `0`), or one or two hexadecimal digits of either case. A `-` negates
      the number as an `unsigned int`. Gives the value stored and the
      position after the field. */
  function ScanHex2(s: string, i: nat): (r: Option<(nat, nat)>)
    requires i <= |s|
    ensures r.Some? ==> r.value.0 < UINT_RANGE && i < r.value.1 <= |s|
  {
    var j := SkipSpace(s, i);
    if j == |s| then None
    else if s[j] == '+' || s[j] == '-' then
      if j + 1 < |s| && DigitValue(s[j + 1]).Some? then
        var d := DigitValue(s[j + 1]).value;
        Some((if s[j] == '-' then (UINT_RANGE - d) % UINT_RANGE else d, j + 2))
      else None
    else if DigitValue(s[j]).None? then None
    else if s[j] == '0' && j + 1 < |s| && (s[j + 1] == 'x' || s[j + 1] == 'X') then Some((0, j + 2))
    else if j + 1 < |s| && DigitValue(s[j + 1]).Some? then
      Some((DigitValue(s[j]).value * 16 + DigitValue(s[j + 1]).value, j + 2))
    else Some((DigitValue(s[j]).value, j + 1))
  }

  lemma {:induction false} Lo8OfByte(b: byte)
    ensures Lo8(b as int) == b
  {
    assert (b as int) % 256 == b as int;
    ByteIntRoundTrip(b);
  }

  /** A field `-d` stores the number minus d as an `unsigned int`, and so
      the byte 256 - d (0 for `-0`); a field `+d` stores d. */
  lemma {:induction false} SignedField(s: string, i: nat, d: nat)
    requires i + 2 <= |s| && (s[i] == '-' || s[i] == '+')
    requires DigitValue(s[i + 1]) == Some(d)
    ensures ScanHex2(s, i).Some? && ScanHex2(s, i).value.1 == i + 2
    ensures s[i] == '-' ==> ScanHex2(s, i).value.0 % 256 == (256 - d) % 256
    ensures s[i] == '+' ==> ScanHex2(s, i).value.0 == d
  {
    assert SkipSpace(s, i) == i;
    var v: nat := if s[i] == '-' then (UINT_RANGE - d) % UINT_RANGE else d;
    assert ScanHex2(s, i).value.0 == v;
    NegatedLowByte(d);
  }

  /** The low byte of 2^32 - d, as the `unsigned int` negation leaves it. */
  lemma {:induction false} NegatedLowByte(d: nat)
    requires d < 16
    ensures ((UINT_RANGE - d) % UINT_RANGE) % 256 == (256 - d) % 256
  {
    if d > 0 {
      assert (UINT_RANGE - d) % UINT_RANGE == UINT_RANGE - d;
      assert UINT_RANGE - d == 256 * 16777215 + (256 - d);
    }
  }

  /** The remaining n conversions of the format, each after a literal `:`,
      each stored as its low byte (`(uint8_t)tmp[i]`). */
  function ScanFields(s: string, i: nat, n: nat): (r: Option<seq<byte>>)
    requires i <= |s|
    ensures r.Some? ==> |r.value| == n
    ensures n > 0 && r.Some? ==> i < |s| && s[i] == ':' && ScanHex2(s, i + 1).Some?
    ensures n > 0 && r.Some? ==> r.value[0] as int == ScanHex2(s, i + 1).value.0 % 256
    decreases n
  {
    if n == 0 then Some([])
    else if i == |s| || s[i] != ':' then None
    else match ScanHex2(s, i + 1)
      case None => None
      case Some((v, j)) =>
        match ScanFields(s, j, n - 1)
          case None => None
          case Some(rest) => Some([Lo8(v)] + rest)
  }

  /** `bt_hid_str_to_mac`: the address when all six conversions succeed
      (text after the sixth is ignored), nothing otherwise, in which case
      the caller's buffer is left as it was. */
  function StrToMac(s: string): (r: Option<Mac>)
    ensures r.Some? <==> ScanHex2(s, 0).Some? && ScanFields(s, ScanHex2(s, 0).value.1, 5).Some?
    ensures r.Some? ==>
      r.value[0] as int == ScanHex2(s, 0).value.0 % 256 &&
      r.value[1..] == ScanFields(s, ScanHex2(s, 0).value.1, 5).value
  {
    match ScanHex2(s, 0)
      case None => None
      case Some((v, j)) =>
        match ScanFields(s, j, 5)
          case None => None
          case Some(rest) =>
            var m: Mac := [Lo8(v)] + rest;
            Some(m)
  }

  /** A field `0x` or `0X` is the number 0: the prefix fills the width. */
  lemma {:induction false} PrefixOnlyField(s: string, i: nat)
    requires i + 2 <= |s| && s[i] == '0' && (s[i + 1] == 'x' || s[i + 1] == 'X')
    ensures ScanHex2(s, i).Some? && ScanHex2(s, i).value == (0, i + 2)
  {
    assert SkipSpace(s, i) == i;
  }

  /** The byte a signed field `-d` or `+d` leaves in the address. */
  function SignedByte(sign: char, d: nat): (b: byte)
    requires d < 16
    ensures sign == '-' ==> b as int == (256 - d) % 256
    ensures sign != '-' ==> b as int == d
  {
    ToByte(if sign == '-' then (256 - d) % 256 else d)
  }

  /** An address whose first field is signed, such as `-1:02:03:04:05:06`
      (read as FF:02:03:04:05:06), is accepted. */
  lemma {:induction false} SignedFirstField(s: string, d: nat, tail: seq<byte>)
    requires 2 <= |s| && (s[0] == '-' || s[0] == '+') && DigitValue(s[1]) == Some(d)
    requires ScanFields(s, 2, 5) == Some(tail)
    ensures StrToMac(s).Some?
    ensures StrToMac(s).value == [SignedByte(s[0], d)] + tail
  {
    SignedField(s, 0, d);
    var v := ScanHex2(s, 0).value.0;
    SignedLowByte(v, s[0], d);
    assert StrToMac(s).value == [Lo8(v)] + tail;
  }

  /** A signed field after a colon, such as the `+A` of
      `01:02:03:04:05:+A`, is accepted too. */
  lemma {:induction false} SignedLaterField(s: string, i: nat, n: nat, d: nat, tail: seq<byte>)
    requires i + 3 <= |s| && s[i] == ':' && n > 0
    requires (s[i + 1] == '-' || s[i + 1] == '+') && DigitValue(s[i + 2]) == Some(d)
    requires ScanFields(s, i + 3, n - 1) == Some(tail)
    ensures ScanFields(s, i, n) == Some([SignedByte(s[i + 1], d)] + tail)
  {
    SignedField(s, i + 1, d);
    SignedLowByte(ScanHex2(s, i + 1).value.0, s[i + 1], d);
  }

  lemma {:induction false} SignedLowByte(v: nat, sign: char, d: nat)
    requires d < 16
    requires sign == '-' ==> v % 256 == (256 - d) % 256
    requires sign != '-' ==> v == d
    ensures Lo8(v) == SignedByte(sign, d)
  {
    var t: int := if sign != '-' then d else if d == 0 then 0 else 256 - d;
    assert (256 - d) % 256 == if d == 0 then 0 else 256 - d;
    assert Lo8(v) as int == t;
    assert SignedByte(sign, d) as int == t;
    ByteInjective(Lo8(v), SignedByte(sign, d));
  }

  /** The conversion reads back the byte `%02X` wrote at column 3k. */
  lemma {:induction false} ScanRendered(m: Mac, rest: string, k: nat)
    requires k < 6
    ensures var s := MacToStr(m) + rest;
      ScanHex2(s, 3 * k) == Some((m[k] as int, 3 * k + 2))
  {
    var t := MacToStr(m);
    var s := t + rest;
    MacToStrAt(m, k);
    assert s[3 * k..3 * k + 2] == t[3 * k..3 * k + 2];
    ScanHex2Of(s, 3 * k, m[k]);
  }

  /** A `%02X` conversion over the digits of a byte reads the byte. */
  lemma {:induction false} ScanHex2Of(s: string, i: nat, b: byte)
    requires i + 2 <= |s| && s[i..i + 2] == Hex2(b)
    ensures ScanHex2(s, i) == Some((b as int, i + 2))
  {
    var h := Hex2(b);
    Hex2Digits(b);
    assert s[i] == h[0] && s[i + 1] == h[1];
    assert !IsSpace(s[i]);
    assert SkipSpace(s, i) == i;
    NibbleSum(b as int);
  }

  /** The fields after the k-th of a formatted address (those from column
      i = 3k+2 on, n = 5-k of them, starting with byte j = k+1), each after
      its colon, scan to the bytes after the k-th. */
  lemma {:induction false} ScanFieldsOf(m: Mac, rest: string, k: nat, i: nat, n: nat, j: nat)
    requires k < 6 && i == 3 * k + 2 && n == 5 - k && j == k + 1
    ensures i <= |MacToStr(m) + rest|
    ensures ScanFields(MacToStr(m) + rest, i, n) == Some(m[j..])
    decreases n
  {
    if k < 5 {
      ScanFieldsOf(m, rest, k + 1, i + 3, n - 1, j + 1);
      ScanFieldOf(m, rest, k, i, n, j);
    } else {
      assert m[j..] == [];
    }
  }

  /** The field after the k-th, once the fields after it scan. */
  lemma {:induction false} ScanFieldOf(m: Mac, rest: string, k: nat, i: nat, n: nat, j: nat)
    requires k < 5 && i == 3 * k + 2 && n == 5 - k && j == k + 1
    requires ScanFields(MacToStr(m) + rest, i + 3, n - 1) == Some(m[j + 1..])
    ensures ScanFields(MacToStr(m) + rest, i, n) == Some(m[j..])
  {
    var s := MacToStr(m) + rest;
    ScanRendered(m, rest, j);
    ColonAt(m, rest, k);
    ScanFieldsStep(s, i, n, m[j], m[j + 1..]);
    SuffixCons(m, j);
  }

  lemma {:induction false} SuffixCons(m: seq<byte>, i: nat)
    requires i < |m|
    ensures m[i..] == [m[i]] + m[i + 1..]
  {
  }

  lemma {:induction false} ColonAt(m: Mac, rest: string, k: nat)
    requires k < 5
    ensures (MacToStr(m) + rest)[3 * k + 2] == ':'
  {
    MacToStrAt(m, k);
  }

  /** One field of the format: a colon, then a conversion, then the rest. */
  lemma {:induction false} ScanFieldsStep(s: string, i: nat, n: nat, b: byte, tail: seq<byte>)
    requires i < |s| && s[i] == ':' && n > 0
    requires ScanHex2(s, i + 1) == Some((b as int, i + 3))
    requires ScanFields(s, i + 3, n - 1) == Some(tail)
    ensures ScanFields(s, i, n) == Some([b] + tail)
  {
    Lo8OfByte(b);
  }

  /** The whole conversion, once the first field and the five after it
      scan. */
  lemma {:induction false} StrToMacOf(s: string, m: Mac)
    requires 2 <= |s| && ScanHex2(s, 0) == Some((m[0] as nat, 2))
    requires ScanFields(s, 2, 5) == Some(m[1..])
    ensures StrToMac(s) == Some(m)
  {
    Lo8OfByte(m[0]);
    assert m == [m[0]] + m[1..];
  }

  /** Reading back a formatted address gives the address, whatever text
      follows it. */
  lemma {:induction false} MacRoundTrip(m: Mac, rest: string)
    ensures StrToMac(MacToStr(m) + rest) == Some(m)
  {
    var s := MacToStr(m) + rest;
    ScanRendered(m, rest, 0);
    ScanFieldsOf(m, rest, 0, 2, 5, 1);
    StrToMacOf(s, m);
  }

  /** A formatted address is made of hexadecimal digits and colons only, so
      it holds no line break. */
  lemma {:induction false} MacToStrHasNoNewline(m: Mac)
    ensures '\n' !in MacToStr(m)
  {
    HexJoinChars(m, ':');
  }

  /** The byte order of a `bdaddr_t`: the address reversed (the loops of
      `bt_hid_init` and `l2cap_connect_psm`). */
  function Reverse(m: Mac): (b: Mac)
    ensures forall i :: 0 <= i < 6 ==> b[i] == m[5 - i]
  {
    [m[5], m[4], m[3], m[2], m[1], m[0]]
  }

  /** Converting to BlueZ order and back gives the address again. */
  lemma ReverseInvolution(m: Mac)
    ensures Reverse(Reverse(m)) == m
  {
  }
}

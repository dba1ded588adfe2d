/** The frame format both relay nodes use on their TCP link:
    `[channel:1][length:2, big-endian][payload]`. The Python node writes a
    frame with one `sendall`, the C node with a header `send` followed by a
    payload `send`; both compute the header the same way, defined here once. */
module Wire {
  import opened Bytes

  /** L2CAP PSM of the HID control channel, also its tag on the TCP link. */
  const CONTROL: byte := 0x11
  /** L2CAP PSM of the HID interrupt channel, also its tag on the TCP link. */
  const INTERRUPT: byte := 0x13

  /** The three header bytes for a payload of `n` bytes. Neither node checks
      that `n` fits in 16 bits: the length field keeps `n` modulo 65536. */
  function Header(channel: byte, n: nat): (h: seq<byte>)
    ensures |h| == 3 && h[0] == channel
    ensures Be16(h[1], h[2]) == n % 65536
  {
    var h := [channel, Hi8(n), Lo8(n)];
    Be16Value(h[1], h[2]);
    assert Be16(h[1], h[2]) == (n / 256) % 256 * 256 + n % 256;
    assert (n / 256) % 256 * 256 + n % 256 == n % 65536 by {
      DivModSplit(n);
    }
    h
  }

  lemma {:induction false} DivModSplit(n: nat)
    ensures (n / 256) % 256 * 256 + n % 256 == n % 65536
  {
    var q := n / 65536;
    var r := n % 65536;
    assert n == q * 65536 + r;
    assert n / 256 == q * 256 + r / 256;
    assert (n / 256) % 256 == r / 256;
    assert n % 256 == r % 256;
  }

  /** The bytes of one frame: the header, then the payload verbatim. */
  function Encode(channel: byte, payload: seq<byte>): (f: seq<byte>)
    ensures |f| == 3 + |payload|
    ensures f[0] == channel && Be16(f[1], f[2]) == |payload| % 65536
    ensures f[3..] == payload
  {
    Header(channel, |payload|) + payload
  }

  /** The length a header declares. */
  function DeclaredLength(h: seq<byte>): (n: nat)
    requires |h| >= 3
    ensures n < 65536
  {
    Be16(h[1], h[2])
  }

  /** A frame whose payload fits the length field decodes back to the tag and
      the exact payload length, whatever follows it on the stream. */
  lemma {:induction false} EncodeDecodes(channel: byte, payload: seq<byte>, more: seq<byte>)
    requires |payload| < 65536
    ensures var s := Encode(channel, payload) + more;
      s[0] == channel && DeclaredLength(s) == |payload| &&
      s[3..3 + DeclaredLength(s)] == payload && s[3 + |payload|..] == more
  {
    var f := Encode(channel, payload);
    var s := f + more;
    assert s[..|f|] == f;
    assert s[1] == f[1] && s[2] == f[2];
    assert DeclaredLength(s) == Be16(f[1], f[2]);
    assert |payload| % 65536 == |payload|;
    assert s[3..3 + |payload|] == f[3..];
  }
}

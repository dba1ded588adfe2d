/** The traffic log line the Python relay node prints for every packet it
    sees: `<timestamp> <direction> <channel> <bytes>` with the bytes as
    space-separated two-digit upper-case hexadecimal. The timestamp is a
    floating-point clock reading and is not part of this model. */
module PacketLog {
  import opened Bytes
  import opened HexText

  /** `' '.join(f'{b:02X}' for b in data)`. */
  function HexString(data: seq<byte>): (s: string)
    ensures |s| == if data == [] then 0 else 3 * |data| - 1
  {
    HexJoin(data, ' ')
  }

  /** The name a channel tag is logged under: anything but the control tag
      is logged as the interrupt channel. */
  function ChannelName(tag: byte): (name: string)
    ensures name == "CTRL" <==> tag == 0x11
    ensures name == "CTRL" || name == "INTR"
  {
    if tag == 0x11 then "CTRL" else "INTR"
  }

  /** One log line without its timestamp. */
  function LogText(direction: string, channel: string, data: seq<byte>): (line: string)
    ensures |line| == |direction| + |channel| + 2 + |HexString(data)|
    ensures line[|direction|] == ' ' && line[|direction| + 1 + |channel|] == ' '
    ensures line[..|direction|] == direction
    ensures line[|direction| + 1..|direction| + 1 + |channel|] == channel
    ensures line[|direction| + |channel| + 2..] == HexString(data)
  {
    direction + " " + channel + " " + HexString(data)
  }

  /** The lines of two packets with the same direction and channel differ
      whenever their bytes do. */
  lemma {:induction false} LogTextInjective(direction: string, channel: string, a: seq<byte>, b: seq<byte>)
    requires LogText(direction, channel, a) == LogText(direction, channel, b)
    ensures a == b
  {
    var k := |direction| + |channel| + 2;
    assert LogText(direction, channel, a)[k..] == HexString(a);
    assert LogText(direction, channel, b)[k..] == HexString(b);
    HexJoinInjective(a, b, ' ');
  }
}

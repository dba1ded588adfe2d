/** The two ends of the TCP relay together: the adapter's `relay_send` and
    `relay_recv` against the Python node's `recv_tcp_packet` and
    `send_tcp_packet`. Both use the same frame, so each side reads what the
    other writes. */
module Interop {
  import opened Bytes
  import opened Wire
  import opened TcpReceive
  import opened BtRelay
  import opened RelayNode

  /** A frame the adapter sends reaches the Python node whole: however the
      kernel splits it, `recv_tcp_packet` returns its channel and payload
      and leaves what follows unread. */
  lemma {:induction false} AdapterFrameReachesNode(channel: byte, data: seq<byte>, t: seq<RecvEvent>, more: seq<byte>)
    requires |data| < 65536
    requires t != [] && !t[0].WouldBlock?
    requires Stream(t) == RelaySend(true, channel, data, 3, |data|).wire + more
    ensures RelaySend(true, channel, data, 3, |data|).ret == 0
    ensures RecvSpec(t).0 == Received(channel, data) && Stream(RecvSpec(t).1) == more
  {
    RecvFrame(t, channel, data, more);
  }

  /** A packet the Python node reads from a controller socket reaches the
      matching console channel whole: the node frames at most 256 bytes of
      it, so the adapter's output thread, even as written, forwards exactly
      those bytes and stays at a frame boundary. */
  lemma {:induction false} NodeFrameReachesConsole(s: Relay, b: seq<byte>, onControl: bool, more: seq<byte>, ctrlSock: int, intrSock: int)
    requires s.running && b != [] && ctrlSock >= 0 && intrSock >= 0
    ensures var r := Some(LocalRead(Packet(b), true));
      var s' := Step(s, Selected(false, None, if onControl then r else None, if onControl then None else r));
      var d := Take(b, RECV_SIZE);
      |s'.toTcp| >= |s.toTcp| &&
      OutputStep(s'.toTcp[|s.toTcp|..] + more, ctrlSock, intrSock) ==
        (if onControl then ToControl(ctrlSock, Payload(d)) else ToInterrupt(intrSock, Payload(d)), more)
  {
    var r := Some(LocalRead(Packet(b), true));
    var s' := Step(s, Selected(false, None, if onControl then r else None, if onControl then None else r));
    var tag := if onControl then CONTROL else INTERRUPT;
    var d := Take(b, RECV_SIZE);
    ForwardFromController(s, b, onControl);
    assert s'.toTcp[|s.toTcp|..] == Encode(tag, d);
    ConsoleGetsFrame(tag, d, more, ctrlSock, intrSock);
  }

  /** The adapter's output thread on a frame of 1 to 256 bytes for an open
      channel: it forwards the payload and consumes the frame. */
  lemma {:induction false} ConsoleGetsFrame(tag: byte, d: seq<byte>, more: seq<byte>, ctrlSock: int, intrSock: int)
    requires 0 < |d| <= BUFFER_SIZE && (tag == CONTROL || tag == INTERRUPT)
    requires ctrlSock >= 0 && intrSock >= 0
    ensures OutputStep(Encode(tag, d) + more, ctrlSock, intrSock) ==
      (if tag == CONTROL then ToControl(ctrlSock, Payload(d)) else ToInterrupt(intrSock, Payload(d)), more)
  {
    EncodeDecodes(tag, d, more);
  }
}

/** The Python relay node's main loop (`relay_loop`). Each pass waits in
    `select` on the TCP link to the adapter and on the two L2CAP sockets of
    the real controller, then handles the readable sockets in that order:
    a frame from TCP goes, logged, to the controller socket its tag names; a
    packet from a controller socket goes, logged, into one TCP frame. Any
    loss stops the loop. What the sockets answer in one pass is given as an
    `Iteration`; what the TCP link delivers is the receive trace of
    `TcpReceive`. */
module RelayNode {
  import opened Bytes
  import opened Wire
  import opened TcpReceive
  import opened PacketLog

  /** The two ends of the relayed link, as the log names them. */
  datatype Side = PS3 | DS3

  function SideName(side: Side): string
  {
    if side == PS3 then "PS3" else "DS3"
  }

  /** One logged packet: where it came from, its channel tag, its bytes. */
  datatype Logged = Logged(from: Side, tag: byte, data: seq<byte>)

  /** The line printed for a logged packet, timestamp left out. */
  function LineText(l: Logged): string
  {
    LogText(SideName(l.from), ChannelName(l.tag), l.data)
  }

  /** The node's state: the global `running` flag; whether `recv_tcp_packet`
      is spinning for ever on a frame the adapter never finishes; the TCP
      receive trace still to come; the packets sent to the controller's
      control and interrupt sockets; the bytes written to the TCP link; and
      the log. */
  datatype Relay = Relay(
    running: bool,
    hung: bool,
    tcpIn: seq<RecvEvent>,
    toControl: seq<seq<byte>>,
    toInterrupt: seq<seq<byte>>,
    toTcp: seq<byte>,
    log: seq<Logged>)

  /** What `recv(256)` on a controller socket does: hand back a packet, raise
      `BlockingIOError`, or raise anything else. An empty packet means the
      controller closed the channel. */
  datatype LocalRecv = Packet(bytes: seq<byte>) | NoData | RecvError

  /** A read from a controller socket, and whether forwarding it on TCP
      would succeed. */
  datatype LocalRead = LocalRead(recv: LocalRecv, sendOk: bool)

  /** One pass of the loop: `select` failed, or it reported whether a socket
      is in error and which sockets are readable. A readable TCP socket
      carries whether a send to the controller would succeed. */
  datatype Iteration =
    | SelectError
    | Selected(exceptional: bool, tcp: Option<bool>, control: Option<LocalRead>, interrupt: Option<LocalRead>)

  /** The most a controller socket read returns; the rest of a longer
      packet is discarded by the socket. */
  const RECV_SIZE: nat := 256

  /** The readable TCP socket: read one frame and forward it. The second
      component says whether the handler left the `for` loop (`break`). */
  function OnTcp(s: Relay, sendOk: bool): (Relay, bool)
  {
    var (p, rest) := RecvSpec(s.tcpIn);
    var s1 := s.(tcpIn := rest);
    match p
      case NoPacket => (s1, false)
      case Disconnected => (s1.(running := false), true)
      case Stalled => (s1.(hung := true), true)
      case Received(c, d) =>
        var s2 := s1.(log := s1.log + [Logged(PS3, c, d)]);
        if c != CONTROL && c != INTERRUPT then (s2, false)
        else if !sendOk then (s2.(running := false), true)
        else if c == CONTROL then (s2.(toControl := s2.toControl + [d]), false)
        else (s2.(toInterrupt := s2.toInterrupt + [d]), false)
  }

  /** A readable controller socket: read one packet, log it and forward it
      under the socket's tag. */
  function OnLocal(s: Relay, r: LocalRead, tag: byte): (Relay, bool)
  {
    match r.recv
      case NoData => (s, false)
      case RecvError => (s.(running := false), true)
      case Packet(b) =>
        var d := Take(b, RECV_SIZE);
        if d == [] then (s.(running := false), true)
        else
          var s1 := s.(log := s.log + [Logged(DS3, tag, d)]);
          if r.sendOk then (s1.(toTcp := s1.toTcp + Encode(tag, d)), false)
          else (s1.(running := false), true)
  }

  /** One pass of the `while running` loop. A socket in error clears
      `running` but only leaves the `for exceptional` loop, so the readable
      sockets of the same pass are still handled. A failing `select` leaves
      the loop, after which the node stops. */
  function Step(s: Relay, it: Iteration): Relay
  {
    match it
      case SelectError => s.(running := false)
      case Selected(exc, tcp, ctrl, intr) =>
        var s0 := if exc then s.(running := false) else s;
        var (s1, b1) := if tcp.Some? then OnTcp(s0, tcp.value) else (s0, false);
        if b1 then s1
        else
          var (s2, b2) := if ctrl.Some? then OnLocal(s1, ctrl.value, CONTROL) else (s1, false);
          if b2 then s2
          else if intr.Some? then OnLocal(s2, intr.value, INTERRUPT).0
          else s2
  }

  /** The loop over a sequence of passes: it ends when `running` is cleared,
      when the TCP reader hangs, or when the passes run out. */
  function Run(s: Relay, its: seq<Iteration>): Relay
    decreases |its|
  {
    if !s.running || s.hung || its == [] then s
    else Run(Step(s, its[0]), its[1..])
  }

  /** `relay_loop`. */
  method RelayLoop(s0: Relay, its: seq<Iteration>) returns (s: Relay)
    ensures s == Run(s0, its)
  {
    s := s0;
    var i := 0;
    while s.running && !s.hung && i < |its|
      invariant i <= |its|
      invariant Run(s, its[i..]) == Run(s0, its)
      decreases |its| - i
    {
      var it := its[i];
      assert its[i..][1..] == its[i + 1..];
      i := i + 1;
      if it.SelectError? {
        s := s.(running := false);
        break;
      }
      var before := s;
      if it.exceptional {
        s := s.(running := false);
      }
      var broke := false;
      if it.tcp.Some? {
        var (s1, b1) := OnTcp(s, it.tcp.value);
        s, broke := s1, b1;
      }
      if !broke && it.control.Some? {
        var (s2, b2) := OnLocal(s, it.control.value, CONTROL);
        s, broke := s2, b2;
      }
      if !broke && it.interrupt.Some? {
        var (s3, b3) := OnLocal(s, it.interrupt.value, INTERRUPT);
        s, broke := s3, b3;
      }
      assert s == Step(before, it);
    }
  }

  /** Running the loop over two batches of passes is running it over their
      concatenation; in particular, once the loop has stopped, no further
      pass changes anything. */
  lemma {:induction false} RunAppend(s: Relay, a: seq<Iteration>, b: seq<Iteration>)
    ensures Run(s, a + b) == Run(Run(s, a), b)
    decreases |a|
  {
    if !s.running || s.hung {
    } else if a == [] {
      assert a + b == b;
    } else {
      assert (a + b)[1..] == a[1..] + b;
      RunAppend(Step(s, a[0]), a[1..], b);
    }
  }

  lemma {:induction false} StoppedStaysStopped(s: Relay, a: seq<Iteration>, b: seq<Iteration>)
    requires !Run(s, a).running
    ensures Run(s, a + b) == Run(s, a)
  {
    RunAppend(s, a, b);
  }

  /** The TCP handler ends the loop exactly when the adapter is lost or a
      frame for one of the controller sockets cannot be sent. */
  predicate TcpStops(s: Relay, sendOk: bool)
  {
    var p := RecvSpec(s.tcpIn).0;
    p.Disconnected? || (p.Received? && (p.channel == CONTROL || p.channel == INTERRUPT) && !sendOk)
  }

  /** A controller socket handler ends the loop exactly when the read fails,
      the controller closed the channel, or the TCP send fails. */
  predicate LocalStops(r: LocalRead)
  {
    r.recv.RecvError? || (r.recv.Packet? && (Take(r.recv.bytes, RECV_SIZE) == [] || !r.sendOk))
  }

  lemma {:induction false} OnTcpStops(s: Relay, ok: bool)
    requires !RecvSpec(s.tcpIn).0.Stalled?
    ensures OnTcp(s, ok).1 <==> TcpStops(s, ok)
    ensures OnTcp(s, ok).0.running == (s.running && !TcpStops(s, ok))
    ensures OnTcp(s, ok).0.hung == s.hung
  {
  }

  lemma {:induction false} OnLocalStops(s: Relay, r: LocalRead, tag: byte)
    ensures OnLocal(s, r, tag).1 <==> LocalStops(r)
    ensures OnLocal(s, r, tag).0.running == (s.running && !LocalStops(r))
    ensures OnLocal(s, r, tag).0.hung == s.hung
  {
  }

  /** A pass leaves `running` set exactly when none of the stop causes
      occurs: no `select` failure, no socket in error, and no loss or failed
      send in any handled socket. A stalled TCP frame is the one case that
      neither stops nor continues; it is excluded here. */
  lemma {:induction false} StepStopsIff(s: Relay, it: Iteration)
    requires s.running
    requires !(it.Selected? && it.tcp.Some? && RecvSpec(s.tcpIn).0.Stalled?)
    ensures Step(s, it).running <==>
      it.Selected? && !it.exceptional &&
      !(it.tcp.Some? && TcpStops(s, it.tcp.value)) &&
      !(it.control.Some? && LocalStops(it.control.value)) &&
      !(it.interrupt.Some? && LocalStops(it.interrupt.value))
  {
    if it.Selected? {
      var s0 := if it.exceptional then s.(running := false) else s;
      assert s0.tcpIn == s.tcpIn;
      var (s1, b1) := if it.tcp.Some? then OnTcp(s0, it.tcp.value) else (s0, false);
      if it.tcp.Some? {
        OnTcpStops(s0, it.tcp.value);
        assert TcpStops(s0, it.tcp.value) == TcpStops(s, it.tcp.value);
      }
      if !b1 {
        var (s2, b2) := if it.control.Some? then OnLocal(s1, it.control.value, CONTROL) else (s1, false);
        if it.control.Some? {
          OnLocalStops(s1, it.control.value, CONTROL);
        }
        if !b2 && it.interrupt.Some? {
          OnLocalStops(s2, it.interrupt.value, INTERRUPT);
        }
      }
    }
  }

  /** A frame from the adapter is logged, then forwarded to the control
      socket if tagged 0x11, to the interrupt socket if tagged 0x13, and
      nowhere otherwise; the loop goes on. */
  lemma {:induction false} ForwardFromAdapter(s: Relay, c: byte, d: seq<byte>, rest: seq<RecvEvent>)
    requires s.running && RecvSpec(s.tcpIn) == (Received(c, d), rest)
    ensures Step(s, Selected(false, Some(true), None, None)) ==
      s.(tcpIn := rest,
         log := s.log + [Logged(PS3, c, d)],
         toControl := s.toControl + (if c == CONTROL then [d] else []),
         toInterrupt := s.toInterrupt + (if c == INTERRUPT then [d] else []))
  {
    if c != CONTROL {
      assert s.toControl + [] == s.toControl;
    }
    if c != INTERRUPT {
      assert s.toInterrupt + [] == s.toInterrupt;
    }
  }

  /** A packet from a controller socket is logged and sent as one TCP frame
      with that socket's tag and the packet's first 256 bytes. */
  lemma {:induction false} ForwardFromController(s: Relay, b: seq<byte>, onControl: bool)
    requires s.running && b != []
    ensures var r := Some(LocalRead(Packet(b), true));
      var tag := if onControl then CONTROL else INTERRUPT;
      var d := Take(b, RECV_SIZE);
      Step(s, Selected(false, None, if onControl then r else None, if onControl then None else r)) ==
      s.(log := s.log + [Logged(DS3, tag, d)], toTcp := s.toTcp + Encode(tag, d))
  {
    assert |Take(b, RECV_SIZE)| > 0;
  }

  /** `BlockingIOError` on a controller socket changes nothing. */
  lemma {:induction false} NoDataIsNoOp(s: Relay, ok: bool)
    requires s.running
    ensures Step(s, Selected(false, None, Some(LocalRead(NoData, ok)), Some(LocalRead(NoData, ok)))) == s
  {
    var (s1, b1) := OnLocal(s, LocalRead(NoData, ok), CONTROL);
    assert s1 == s && !b1;
  }

  /** The payloads of the logged packets with a given origin and tag, in
      order. */
  function Payloads(log: seq<Logged>, from: Side, tag: byte): seq<seq<byte>>
  {
    if log == [] then []
    else
      var l := log[|log| - 1];
      Payloads(log[..|log| - 1], from, tag) + (if l.from == from && l.tag == tag then [l.data] else [])
  }

  /** The TCP frames of the logged controller packets, in order. */
  function Frames(log: seq<Logged>): seq<byte>
  {
    if log == [] then []
    else
      var l := log[|log| - 1];
      Frames(log[..|log| - 1]) + (if l.from == DS3 then Encode(l.tag, l.data) else [])
  }

  /** The log accounts for the traffic: the control and interrupt sockets
      received exactly the logged adapter packets with their tag, and the
      TCP link carries exactly the frames of the logged controller packets. */
  predicate Accounted(s: Relay)
  {
    s.toControl == Payloads(s.log, PS3, CONTROL) &&
    s.toInterrupt == Payloads(s.log, PS3, INTERRUPT) &&
    s.toTcp == Frames(s.log)
  }

  lemma {:induction false} LogAppend(log: seq<Logged>, l: Logged, from: Side, tag: byte)
    ensures Payloads(log + [l], from, tag) == Payloads(log, from, tag) + (if l.from == from && l.tag == tag then [l.data] else [])
    ensures Frames(log + [l]) == Frames(log) + (if l.from == DS3 then Encode(l.tag, l.data) else [])
  {
    assert (log + [l])[..|log|] == log;
  }

  lemma {:induction false} OnTcpAccounted(s: Relay, ok: bool)
    requires Accounted(s)
    ensures !OnTcp(s, ok).1 || OnTcp(s, ok).0.running ==> Accounted(OnTcp(s, ok).0)
  {
    var (p, rest) := RecvSpec(s.tcpIn);
    if p.Received? {
      var l := Logged(PS3, p.channel, p.payload);
      LogAppend(s.log, l, PS3, CONTROL);
      LogAppend(s.log, l, PS3, INTERRUPT);
    }
  }

  lemma {:induction false} OnLocalAccounted(s: Relay, r: LocalRead, tag: byte)
    requires Accounted(s) && (tag == CONTROL || tag == INTERRUPT)
    ensures !OnLocal(s, r, tag).1 || OnLocal(s, r, tag).0.running ==> Accounted(OnLocal(s, r, tag).0)
  {
    if r.recv.Packet? {
      var l := Logged(DS3, tag, Take(r.recv.bytes, RECV_SIZE));
      LogAppend(s.log, l, PS3, CONTROL);
      LogAppend(s.log, l, PS3, INTERRUPT);
    }
  }

  /** Every pass that leaves the loop running keeps the log accounting for
      the traffic. */
  lemma {:induction false} StepAccounted(s: Relay, it: Iteration)
    requires Accounted(s)
    ensures Step(s, it).running ==> Accounted(Step(s, it))
  {
    if it.Selected? {
      var s0 := if it.exceptional then s.(running := false) else s;
      assert Accounted(s0);
      var (s1, b1) := if it.tcp.Some? then OnTcp(s0, it.tcp.value) else (s0, false);
      if it.tcp.Some? {
        OnTcpAccounted(s0, it.tcp.value);
      }
      assert !b1 || s1.running ==> Accounted(s1);
      if !b1 {
        LocalsAccounted(s1, it.control, it.interrupt);
      }
    }
  }

  /** The controller sockets' part of a pass keeps the accounting. */
  lemma {:induction false} LocalsAccounted(s1: Relay, ctrl: Option<LocalRead>, intr: Option<LocalRead>)
    requires Accounted(s1)
    ensures var (s2, b2) := if ctrl.Some? then OnLocal(s1, ctrl.value, CONTROL) else (s1, false);
      var r := if b2 then s2 else if intr.Some? then OnLocal(s2, intr.value, INTERRUPT).0 else s2;
      r.running ==> Accounted(r)
  {
    var (s2, b2) := if ctrl.Some? then OnLocal(s1, ctrl.value, CONTROL) else (s1, false);
    if ctrl.Some? {
      OnLocalAccounted(s1, ctrl.value, CONTROL);
      OnLocalStops(s1, ctrl.value, CONTROL);
    }
    assert !b2 || s2.running ==> Accounted(s2);
    if !b2 && intr.Some? {
      OnLocalAccounted(s2, intr.value, INTERRUPT);
      OnLocalStops(s2, intr.value, INTERRUPT);
    }
  }

  /** A whole run that is still going accounts for all its traffic in the
      log. */
  lemma {:induction false} RunAccounted(s: Relay, its: seq<Iteration>)
    requires Accounted(s)
    ensures Run(s, its).running ==> Accounted(Run(s, its))
    decreases |its|
  {
    if s.running && !s.hung && its != [] {
      var t := Step(s, its[0]);
      StepAccounted(s, its[0]);
      if !t.running {
        assert Run(t, its[1..]) == t;
      } else {
        RunAccounted(t, its[1..]);
      }
    }
  }
}

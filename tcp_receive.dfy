/** The Python relay node's frame reader (`recv_tcp_packet`). The TCP socket
    is non-blocking; what it does on each `recv` is given as a trace of
    receive events. A `Data` event holds the bytes the kernel has ready: a
    `recv` asking for fewer takes only a prefix and the rest stays queued at
    the head of the trace. A trace that runs out means the socket keeps
    answering "would block" for ever. */
module TcpReceive {
  import opened Bytes
  import opened Wire

  datatype RecvEvent = Data(bytes: seq<byte>) | WouldBlock | Closed | Failed

  /** What `recv_tcp_packet` returns: `(None, None)`, `(-1, None)`,
      `(channel, data)`, or, when the peer stops mid-frame without closing,
      nothing at all (the Python code keeps sleeping and retrying). */
  datatype Packet = NoPacket | Disconnected | Stalled | Received(channel: byte, payload: seq<byte>)

  /** A receive event on which the Python code gives up: an empty chunk (the
      peer closed) or an exception other than `BlockingIOError`. */
  predicate Ends(e: RecvEvent)
  {
    e.Closed? || e.Failed? || (e.Data? && e.bytes == [])
  }

  /** The bytes the trace delivers before it ends or runs out. */
  function Stream(t: seq<RecvEvent>): seq<byte>
  {
    if t == [] || Ends(t[0]) then []
    else if t[0].WouldBlock? then Stream(t[1..])
    else t[0].bytes + Stream(t[1..])
  }

  /** Whether the trace, after its bytes, ends the connection. */
  predicate EndsLater(t: seq<RecvEvent>)
  {
    t != [] && (Ends(t[0]) || EndsLater(t[1..]))
  }

  /** The trace left after consuming exactly `n` bytes of its stream; the
      "would block" answers met before the n-th byte are consumed with them,
      the ones after it are not. */
  function Drop(t: seq<RecvEvent>, n: nat): (rest: seq<RecvEvent>)
    requires n <= |Stream(t)|
  {
    if n == 0 then t
    else if t[0].WouldBlock? then Drop(t[1..], n)
    else if |t[0].bytes| <= n then Drop(t[1..], n - |t[0].bytes|)
    else [Data(t[0].bytes[n..])] + t[1..]
  }

  /** The trace without its leading "would block" answers. */
  function SkipBlocked(t: seq<RecvEvent>): (u: seq<RecvEvent>)
    ensures u == [] || !u[0].WouldBlock?
  {
    if t != [] && t[0].WouldBlock? then SkipBlocked(t[1..]) else t
  }

  /** One `sock.recv(want)` call and the trace it leaves. */
  datatype RecvCall = Chunk(bytes: seq<byte>) | Blocked | Raised

  function RecvOnce(t: seq<RecvEvent>, want: nat): (RecvCall, seq<RecvEvent>)
  {
    if t == [] then (Blocked, [])
    else match t[0]
      case WouldBlock => (Blocked, t[1..])
      case Closed => (Chunk([]), t[1..])
      case Failed => (Raised, t[1..])
      case Data(b) =>
        if |b| <= want then (Chunk(b), t[1..])
        else (Chunk(b[..want]), [Data(b[want..])] + t[1..])
  }

  /** The reference behaviour of `recv_tcp_packet`, stated on the stream: no
      packet if the very first answer is "would block"; otherwise the frame
      at the head of the stream if all its bytes come, the loss of the
      connection if the stream ends first, and a stall if it just stops. */
  function RecvSpec(t: seq<RecvEvent>): (Packet, seq<RecvEvent>)
  {
    if t == [] then (NoPacket, [])
    else if t[0].WouldBlock? then (NoPacket, t[1..])
    else
      var s := Stream(t);
      if |s| < 3 || |s| < 3 + DeclaredLength(s) then
        (if EndsLater(t) then Disconnected else Stalled, [])
      else
        (Received(s[0], s[3..3 + DeclaredLength(s)]), Drop(t, 3 + DeclaredLength(s)))
  }

  /** The size a trace has left; every `recv` that returns makes it smaller. */
  function Size(t: seq<RecvEvent>): nat
  {
    if t == [] then 0
    else (if t[0].Data? then |t[0].bytes| else 0) + 1 + Size(t[1..])
  }

  lemma {:induction false} SizeOfSplit(b: seq<byte>, want: nat, t: seq<RecvEvent>)
    requires 0 < want < |b|
    ensures Size([Data(b[want..])] + t) < Size([Data(b)] + t)
  {
    assert ([Data(b[want..])] + t)[1..] == t;
    assert ([Data(b)] + t)[1..] == t;
  }

  /** What one `recv` on a non-empty trace can answer, and that it always
      shortens the trace. */
  lemma {:induction false} RecvOnceCases(t: seq<RecvEvent>, want: nat)
    requires t != [] && want > 0
    ensures Size(RecvOnce(t, want).1) < Size(t)
    ensures RecvOnce(t, want).0.Blocked? <==> t[0].WouldBlock?
    ensures t[0].WouldBlock? ==> RecvOnce(t, want).1 == t[1..]
    ensures t[0].WouldBlock? ==> SkipBlocked(RecvOnce(t, want).1) == SkipBlocked(t)
    ensures RecvOnce(t, want).0.Raised? || RecvOnce(t, want).0 == Chunk([]) <==> Ends(t[0])
  {
    if t[0].Data? && |t[0].bytes| > want {
      assert t == [Data(t[0].bytes)] + t[1..];
      SizeOfSplit(t[0].bytes, want, t[1..]);
    }
  }

  /** Consuming n bytes leaves exactly the rest of the stream, and does not
      change whether the trace ends: no byte past the n-th is taken. */
  lemma {:induction false} DropStream(t: seq<RecvEvent>, n: nat)
    requires n <= |Stream(t)|
    ensures Stream(Drop(t, n)) == Stream(t)[n..]
    ensures EndsLater(Drop(t, n)) == EndsLater(t)
  {
    if n == 0 {
    } else if t[0].WouldBlock? {
      DropStream(t[1..], n);
    } else if |t[0].bytes| <= n {
      assert Stream(t) == t[0].bytes + Stream(t[1..]);
      DropStream(t[1..], n - |t[0].bytes|);
      assert Stream(t)[n..] == Stream(t[1..])[n - |t[0].bytes|..];
    } else {
      var b := t[0].bytes;
      var u := [Data(b[n..])] + t[1..];
      assert u[1..] == t[1..];
      assert Stream(u) == b[n..] + Stream(t[1..]);
      assert Stream(t) == b + Stream(t[1..]);
      assert EndsLater(u) == EndsLater(t[1..]);
    }
  }

  /** Consuming a bytes and then b bytes is consuming a + b bytes. */
  lemma {:induction false} DropAdd(t: seq<RecvEvent>, a: nat, b: nat)
    requires a + b <= |Stream(t)|
    ensures b <= |Stream(Drop(t, a))|
    ensures Drop(Drop(t, a), b) == Drop(t, a + b)
  {
    DropStream(t, a);
    if a == 0 {
    } else if t[0].WouldBlock? {
      DropAdd(t[1..], a, b);
    } else if |t[0].bytes| <= a {
      assert Stream(t) == t[0].bytes + Stream(t[1..]);
      DropAdd(t[1..], a - |t[0].bytes|, b);
    } else if b > 0 {
      var c := t[0].bytes;
      var u := [Data(c[a..])] + t[1..];
      assert u[1..] == t[1..];
      if b < |c[a..]| {
        assert c[a..][b..] == c[a + b..];
      }
    }
  }

  lemma {:induction false} SkipBlockedStream(t: seq<RecvEvent>)
    ensures Stream(SkipBlocked(t)) == Stream(t)
    ensures EndsLater(SkipBlocked(t)) == EndsLater(t)
  {
    if t != [] && t[0].WouldBlock? {
      SkipBlockedStream(t[1..]);
    }
  }

  /** Leading "would block" answers do not change which trace is left once
      at least one more byte is consumed. */
  lemma {:induction false} DropSkipBlocked(t: seq<RecvEvent>, n: nat)
    requires 0 < n <= |Stream(t)|
    ensures n <= |Stream(SkipBlocked(t))|
    ensures Drop(SkipBlocked(t), n) == Drop(t, n)
  {
    SkipBlockedStream(t);
    if t[0].WouldBlock? {
      DropSkipBlocked(t[1..], n);
    }
  }

  /** One chunk read from the head of the left-over trace. */
  lemma {:induction false} ChunkStep(t: seq<RecvEvent>, k: nat, cur: seq<RecvEvent>, want: nat)
    requires k <= |Stream(t)| && SkipBlocked(cur) == SkipBlocked(Drop(t, k))
    requires cur != [] && cur[0].Data? && cur[0].bytes != [] && want > 0
    ensures var (r, next) := RecvOnce(cur, want);
      r.Chunk? && 0 < |r.bytes| <= want &&
      k + |r.bytes| <= |Stream(t)| &&
      r.bytes == Stream(t)[k..k + |r.bytes|] &&
      next == Drop(t, k + |r.bytes|)
  {
    var (r, next) := RecvOnce(cur, want);
    var d := Drop(t, k);
    DropStream(t, k);
    SkipBlockedStream(d);
    SkipBlockedStream(cur);
    assert SkipBlocked(cur) == cur;
    assert Stream(cur) == cur[0].bytes + Stream(cur[1..]);
    assert Stream(cur) == Stream(t)[k..];
    var m := |r.bytes|;
    assert r.bytes == Stream(cur)[..m];
    DropAdd(t, k, m);
    DropSkipBlocked(d, m);
    assert Drop(cur, m) == Drop(t, k + m);
    if |cur[0].bytes| <= want {
      assert Drop(cur, m) == Drop(cur[1..], 0);
    }
  }

  /** The bytes `got` read so far are the stream's bytes from k on, and the
      trace `cur` left is the one after them, up to "would block"
      answers. */
  predicate ReadSoFar(t: seq<RecvEvent>, k: nat, got: seq<byte>, cur: seq<RecvEvent>)
  {
    k + |got| <= |Stream(t)| && got == Stream(t)[k..k + |got|] &&
    SkipBlocked(cur) == SkipBlocked(Drop(t, k + |got|))
  }

  /** A chunk received in a read loop extends what was read, and its last
      chunk leaves exactly the trace after the bytes wanted. */
  lemma {:induction false} ChunkAdvance(t: seq<RecvEvent>, k: nat, got: seq<byte>, cur: seq<RecvEvent>, want: nat)
    requires ReadSoFar(t, k, got, cur) && |got| < want
    requires cur != [] && cur[0].Data? && cur[0].bytes != []
    ensures var (r, after) := RecvOnce(cur, want - |got|);
      r.Chunk? && |got + r.bytes| <= want && ReadSoFar(t, k, got + r.bytes, after) &&
      (|got + r.bytes| == want ==> after == Drop(t, k + want))
  {
    var m := |got|;
    var (r, after) := RecvOnce(cur, want - m);
    ChunkStep(t, k + m, cur, want - m);
    SliceConcat(Stream(t), k, k + m, k + m + |r.bytes|);
  }

  /** How one of the two read loops of `recv_tcp_packet` ends. */
  datatype ReadEnd = Complete | Idle | Lost | Stall

  /** One read loop: collect `want` more bytes, asking each time only for the
      ones still missing. A "would block" is retried, except that the header
      loop (`idleReturns`) gives up when it has read nothing yet. An empty
      chunk or any other error is the loss of the connection; a trace that
      runs out mid-way is the endless retry of the source. */
  method ReadExact(t: seq<RecvEvent>, k: nat, cur0: seq<RecvEvent>, want: nat, idleReturns: bool)
    returns (e: ReadEnd, got: seq<byte>, next: seq<RecvEvent>)
    requires 0 < want && k <= |Stream(t)|
    requires SkipBlocked(cur0) == SkipBlocked(Drop(t, k))
    ensures e == Idle <==> idleReturns && (cur0 == [] || cur0[0].WouldBlock?)
    ensures e == Idle ==> next == if cur0 == [] then [] else cur0[1..]
    ensures e == Complete ==>
      k + want <= |Stream(t)| && got == Stream(t)[k..k + want] && next == Drop(t, k + want)
    ensures e == Lost ==> |Stream(t)| < k + want && EndsLater(t)
    ensures e == Stall ==> |Stream(t)| < k + want && !EndsLater(t)
  {
    var cur := cur0;
    got := [];
    while |got| < want
      invariant |got| <= want && ReadSoFar(t, k, got, cur)
      invariant |got| == 0 && idleReturns ==> cur == cur0
      invariant |got| == want ==> cur == Drop(t, k + want)
      invariant idleReturns && |got| > 0 ==> cur0 != [] && !cur0[0].WouldBlock?
      decreases Size(cur)
    {
      if cur == [] {
        if |got| == 0 && idleReturns {
          return Idle, got, [];
        }
        StallOrLoss(t, k + |got|, cur);
        return Stall, got, [];
      }
      var (r, after) := RecvOnce(cur, want - |got|);
      RecvOnceCases(cur, want - |got|);
      if r.Blocked? {
        if |got| == 0 && idleReturns {
          return Idle, got, after;
        }
        cur := after;
      } else if r.Raised? || r.bytes == [] {
        LossOnEnd(t, k + |got|, cur);
        return Lost, got, [];
      } else {
        ChunkAdvance(t, k, got, cur, want);
        got := got + r.bytes;
        cur := after;
      }
    }
    return Complete, got, cur;
  }

  /** `recv_tcp_packet`: the header loop, then, unless the declared length is
      zero, the payload loop. */
  method RecvTcpPacket(t: seq<RecvEvent>) returns (p: Packet, rest: seq<RecvEvent>)
    ensures (p, rest) == RecvSpec(t)
    ensures p == NoPacket <==> t == [] || t[0].WouldBlock?
  {
    var e, header, cur := ReadExact(t, 0, t, 3, true);
    if e == Idle {
      return NoPacket, cur;
    } else if e != Complete {
      return if e == Lost then Disconnected else Stalled, [];
    }
    p, rest := ReadPayload(t, header, cur);
  }

  /** The second half of `recv_tcp_packet`: with the header read, the
      payload loop, skipped when the declared length is zero. */
  method ReadPayload(t: seq<RecvEvent>, header: seq<byte>, cur: seq<RecvEvent>)
    returns (p: Packet, rest: seq<RecvEvent>)
    requires t != [] && !t[0].WouldBlock?
    requires 3 <= |Stream(t)| && header == Stream(t)[0..3] && cur == Drop(t, 3)
    ensures (p, rest) == RecvSpec(t)
  {
    var length := DeclaredLength(header);
    HeaderFacts(t, header);
    RecvSpecAfterHeader(t, length);
    if length == 0 {
      assert Stream(t)[3..3 + length] == [];
      return Received(header[0], []), cur;
    }
    var e2, data, cur2 := ReadExact(t, 3, cur, length, false);
    if e2 != Complete {
      return if e2 == Lost then Disconnected else Stalled, [];
    }
    return Received(header[0], data), cur2;
  }

  /** The reference behaviour once the header is in: the frame if the
      stream holds all its payload, otherwise the end or the stall. */
  lemma {:induction false} RecvSpecAfterHeader(t: seq<RecvEvent>, n: nat)
    requires t != [] && !t[0].WouldBlock?
    requires 3 <= |Stream(t)| && n == DeclaredLength(Stream(t))
    ensures 3 + n <= |Stream(t)| ==>
      RecvSpec(t) == (Received(Stream(t)[0], Stream(t)[3..3 + n]), Drop(t, 3 + n))
    ensures |Stream(t)| < 3 + n ==>
      RecvSpec(t) == (if EndsLater(t) then Disconnected else Stalled, [])
  {
  }

  lemma {:induction false} HeaderFacts(t: seq<RecvEvent>, header: seq<byte>)
    requires 3 <= |Stream(t)| && header == Stream(t)[0..3]
    ensures header[0] == Stream(t)[0] && DeclaredLength(header) == DeclaredLength(Stream(t))
  {
  }

  /** The trace ran out after k bytes: the stream holds exactly those bytes
      and does not end, so the reference behaviour is a stall. */
  lemma {:induction false} StallOrLoss(t: seq<RecvEvent>, k: nat, cur: seq<RecvEvent>)
    requires k <= |Stream(t)| && SkipBlocked(cur) == SkipBlocked(Drop(t, k)) && cur == []
    ensures |Stream(t)| == k && !EndsLater(t)
  {
    DropStream(t, k);
    SkipBlockedStream(Drop(t, k));
  }

  /** The next answer after k bytes ends the connection: the stream holds
      exactly those bytes and the trace ends. */
  lemma {:induction false} LossOnEnd(t: seq<RecvEvent>, k: nat, cur: seq<RecvEvent>)
    requires k <= |Stream(t)| && SkipBlocked(cur) == SkipBlocked(Drop(t, k))
    requires cur != [] && Ends(cur[0])
    ensures |Stream(t)| == k && EndsLater(t)
  {
    DropStream(t, k);
    SkipBlockedStream(Drop(t, k));
    SkipBlockedStream(cur);
    assert SkipBlocked(cur) == cur;
  }

  /** A frame written by either node, however the kernel splits it into
      chunks and however many "would block" answers come between them, is
      read back as the same tag and payload, and the reader consumes nothing
      of what follows it. */
  lemma {:induction false} RecvFrame(t: seq<RecvEvent>, channel: byte, payload: seq<byte>, more: seq<byte>)
    requires |payload| < 65536
    requires t != [] && !t[0].WouldBlock?
    requires Stream(t) == Encode(channel, payload) + more
    ensures RecvSpec(t).0 == Received(channel, payload)
    ensures Stream(RecvSpec(t).1) == more
    ensures EndsLater(RecvSpec(t).1) == EndsLater(t)
  {
    EncodeDecodes(channel, payload, more);
    DropStream(t, 3 + |payload|);
  }

  /** The length field keeps only the low 16 bits of the payload length, so a
      payload of 65536 bytes or more is cut at that length modulo 65536 and
      its remaining bytes are left on the stream, to be read as the next
      frame's header. */
  lemma {:induction false} RecvOversizedFrame(t: seq<RecvEvent>, channel: byte, payload: seq<byte>)
    requires 65536 <= |payload|
    requires t != [] && !t[0].WouldBlock?
    requires Stream(t) == Encode(channel, payload)
    ensures var n := |payload| % 65536;
      RecvSpec(t).0 == Received(channel, payload[..n]) &&
      Stream(RecvSpec(t).1) == payload[n..]
  {
    var f := Encode(channel, payload);
    var n := |payload| % 65536;
    assert DeclaredLength(f) == n;
    assert n < |payload|;
    assert f[3..] == payload;
    SliceOfSuffix(f, 3, n);
    DropStream(t, 3 + n);
    assert f[3 + n..] == payload[n..];
  }

  lemma {:induction false} SliceConcat<T>(s: seq<T>, a: nat, b: nat, c: nat)
    requires a <= b <= c <= |s|
    ensures s[a..b] + s[b..c] == s[a..c]
  {
  }

  lemma {:induction false} SliceOfSuffix<T>(s: seq<T>, i: nat, n: nat)
    requires i + n <= |s|
    ensures s[i..i + n] == s[i..][..n]
  {
  }

  /** A frame whose header arrives in two pieces with a "would block" answer
      in between, and whose last byte shares a chunk with the next frame's
      first byte, is still read whole, leaving that byte queued. */
  lemma {:induction false} RecvSplitFrame()
    ensures RecvSpec([Data([0x13]), WouldBlock, Data([0x00, 0x01]), Data([0xA1, 0x11])])
      == (Received(0x13, [0xA1]), [Data([0x11])])
  {
    var t3: seq<RecvEvent> := [Data([0xA1, 0x11])];
    var t2 := [Data([0x00, 0x01])] + t3;
    var t1 := [WouldBlock] + t2;
    var t := [Data([0x13])] + t1;
    assert t3[1..] == [] && t2[1..] == t3 && t1[1..] == t2 && t[1..] == t1;
    assert Stream(t3) == [0xA1, 0x11];
    assert Stream(t2) == [0x00, 0x01, 0xA1, 0x11];
    assert Stream(t) == [0x13, 0x00, 0x01, 0xA1, 0x11];
    assert DeclaredLength(Stream(t)) == 1;
    assert Drop(t3, 1) == [Data([0x11])];
    assert Stream(t1) == Stream(t2);
    assert Drop(t2, 3) == Drop(t3, 1);
    assert Drop(t1, 3) == Drop(t2, 3);
    assert Drop(t, 4) == Drop(t1, 3);
    assert Stream(t)[3..4] == [0xA1];
    assert t == [Data([0x13]), WouldBlock, Data([0x00, 0x01]), Data([0xA1, 0x11])];
  }

  /** A frame cut short by the peer closing the connection is reported as a
      lost connection, not as a short packet. */
  lemma {:induction false} RecvTruncatedFrame()
    ensures RecvSpec([Data([0x11, 0x00, 0x04, 0x01]), Closed]).0 == Disconnected
  {
    var t := [Data([0x11, 0x00, 0x04, 0x01]), Closed];
    assert t[1..] == [Closed];
    assert Stream(t) == [0x11, 0x00, 0x04, 0x01];
    assert EndsLater(t);
  }
}

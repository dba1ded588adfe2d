/** The adapter's side of the TCP relay (`relay_send`, `relay_recv`) and the
    two threads that move packets between it and the console's L2CAP
    channels. The TCP socket is blocking: a `recv` with `MSG_WAITALL`
    returns short only when the connection ends, so what the peer sends is
    a finite byte stream, and a short read means the end of it. */
module BtRelay {
  import opened Bytes
  import opened Wire

  /** The size of the buffers both threads read into. */
  const BUFFER_SIZE: nat := 256

  /** What `relay_send` returned and the bytes it handed to the kernel. */
  datatype SendResult = SendResult(ret: int, wire: seq<byte>)

  /** The bytes a `send` of `s` put on the wire, given what it returned:
      -1 for none, otherwise the number of bytes the kernel took, which is
      never more than it was given. */
  function Sent(s: seq<byte>, ret: int): (w: seq<byte>)
    requires ret <= |s|
    ensures |w| == (if ret < 0 then 0 else ret) && w == s[..|w|]
  {
    if ret < 0 then [] else s[..ret]
  }

  /** `relay_send`: nothing when there is no relay socket; otherwise the
      header, then the payload when there is one. `headerSent` and
      `payloadSent` are what the two `send` calls return; a short count
      fails the call with only part of the frame on the wire. */
  function RelaySend(connected: bool, channel: byte, data: seq<byte>, headerSent: int, payloadSent: int): (r: SendResult)
    requires headerSent <= 3 && payloadSent <= |data|
    ensures r.ret == 0 <==> connected && headerSent == 3 && (data == [] || payloadSent == |data|)
    ensures r.ret == 0 || r.ret == -1
    ensures r.ret == 0 ==> r.wire == Encode(channel, data)
    ensures r.ret == -1 ==> |r.wire| < |Encode(channel, data)| && r.wire == Encode(channel, data)[..|r.wire|]
    ensures connected && headerSent == 3 && data != [] && payloadSent != |data| ==>
      |r.wire| == 3 + (if payloadSent < 0 then 0 else payloadSent)
    ensures connected && headerSent != 3 ==> |r.wire| == (if headerSent < 0 then 0 else headerSent)
    ensures !connected ==> r.wire == []
  {
    var h := Header(channel, |data|);
    if !connected then SendResult(-1, [])
    else if headerSent != 3 then SendResult(-1, Sent(h, headerSent))
    else if data != [] && payloadSent != |data| then SendResult(-1, h + Sent(data, payloadSent))
    else SendResult(0, h + data)
  }

  /** What `relay_recv` returned: its result, the channel and length it
      stored, the bytes it read into the buffer (none when it read none;
      fewer than the length when the peer closed part-way through the
      payload), and the stream still to come. */
  datatype RecvResult = RecvResult(ret: int, channel: byte, len: nat, payload: Option<seq<byte>>, rest: seq<byte>)

  /** `relay_recv` on the stream the peer sends before closing. A
      `MSG_WAITALL` receive cut short by the close has already stored what
      arrived. */
  function RelayRecv(connected: bool, stream: seq<byte>): (r: RecvResult)
    ensures r.ret == 0 || r.ret == -1
    ensures r.ret == -1 <==> (!connected || |stream| < 3 ||
      (1 <= DeclaredLength(stream) <= BUFFER_SIZE && |stream| < 3 + DeclaredLength(stream)))
    ensures r.ret == 0 ==> r.channel == stream[0] && r.len == DeclaredLength(stream)
    ensures r.ret == 0 && 1 <= r.len <= BUFFER_SIZE ==>
      r.payload == Some(stream[3..3 + r.len]) && r.rest == stream[3 + r.len..]
    ensures r.ret == 0 && !(1 <= r.len <= BUFFER_SIZE) ==> r.payload.None? && r.rest == stream[3..]
    ensures r.ret == -1 && connected && |stream| >= 3 ==>
      r.payload == Some(stream[3..]) && |stream| - 3 < r.len <= BUFFER_SIZE && r.rest == []
    ensures r.ret == -1 && !(connected && |stream| >= 3) ==> r.payload.None?
  {
    if !connected || |stream| < 3 then RecvResult(-1, 0, 0, None, [])
    else
      var n := DeclaredLength(stream);
      if 1 <= n <= BUFFER_SIZE then
        if |stream| < 3 + n then RecvResult(-1, stream[0], n, Some(stream[3..]), [])
        else RecvResult(0, stream[0], n, Some(stream[3..3 + n]), stream[3 + n..])
      else RecvResult(0, stream[0], n, None, stream[3..])
  }

  /** `relay_recv` storing into the caller's 256-byte buffer: its first
      bytes are overwritten with what was read, even when the read was cut
      short, and the rest are left as they were; when nothing was read,
      nothing is written. */
  method RelayRecvInto(connected: bool, stream: seq<byte>, data: array<byte>)
    returns (ret: int, channel: byte, len: nat, rest: seq<byte>)
    requires data.Length == BUFFER_SIZE
    modifies data
    ensures var r := RelayRecv(connected, stream);
      ret == r.ret && channel == r.channel && len == r.len && rest == r.rest
    ensures var r := RelayRecv(connected, stream);
      r.payload.Some? ==> data[..] == r.payload.value + old(data[..])[|r.payload.value|..]
    ensures RelayRecv(connected, stream).payload.None? ==> data[..] == old(data[..])
  {
    var r := RelayRecv(connected, stream);
    ret, channel, len, rest := r.ret, r.channel, r.len, r.rest;
    if r.payload.Some? {
      var p := r.payload.value;
      forall i | 0 <= i < |p| {
        data[i] := p[i];
      }
      assert data[..] == p + old(data[..])[|p|..];
    }
  }

  /** A frame of 1 to 256 bytes cut off after k payload bytes by the close
      fails the receive, with those k bytes stored. */
  lemma {:induction false} TruncatedPayloadStored(channel: byte, payload: seq<byte>, k: nat)
    requires 1 <= |payload| <= BUFFER_SIZE && k < |payload|
    ensures RelayRecv(true, Encode(channel, payload)[..3 + k]) ==
      RecvResult(-1, channel, |payload|, Some(payload[..k]), [])
  {
    var f := Encode(channel, payload);
    EncodeDecodes(channel, payload, []);
    assert f + [] == f;
    var s := f[..3 + k];
    assert s[0] == f[0] && s[1] == f[1] && s[2] == f[2];
    assert DeclaredLength(s) == DeclaredLength(f);
    assert s[3..] == payload[..k];
  }

  /** What the bytes sent to a console channel are: a payload that was read,
      or `len` bytes taken from a 256-byte buffer that holds no payload. */
  datatype Forward = Payload(bytes: seq<byte>) | OutOfBounds(len: nat)

  /** One pass of `bt_hid_output_thread` once connected. */
  datatype OutputAction = Stop | Skip | ToControl(sock: int, data: Forward) | ToInterrupt(sock: int, data: Forward) | Dropped

  /** The routing of a received frame, as the thread does it: a failed
      receive stops the adapter, an empty frame is skipped, a control or
      interrupt frame goes to that channel's socket if it is open, anything
      else is dropped. */
  function Route(r: RecvResult, ctrlSock: int, intrSock: int): (a: OutputAction)
    ensures a.Stop? <==> r.ret != 0
    ensures a.ToControl? ==> r.channel == CONTROL && a.sock == ctrlSock >= 0
    ensures a.ToInterrupt? ==> r.channel == INTERRUPT && a.sock == intrSock >= 0
    ensures r.ret == 0 && r.len > 0 && r.channel == CONTROL && ctrlSock >= 0 ==> a.ToControl?
    ensures r.ret == 0 && r.len > 0 && r.channel == INTERRUPT && intrSock >= 0 ==> a.ToInterrupt?
  {
    var sent := if r.payload.Some? then Payload(r.payload.value) else OutOfBounds(r.len);
    if r.ret != 0 then Stop
    else if r.len == 0 then Skip
    else if r.channel == CONTROL && ctrlSock >= 0 then ToControl(ctrlSock, sent)
    else if r.channel == INTERRUPT && intrSock >= 0 then ToInterrupt(intrSock, sent)
    else Dropped
  }

  /** `bt_hid_output_thread`, one frame, as written. */
  function OutputStep(stream: seq<byte>, ctrlSock: int, intrSock: int): (OutputAction, seq<byte>)
  {
    var r := RelayRecv(true, stream);
    (Route(r, ctrlSock, intrSock), r.rest)
  }

  /** As written, a control frame declaring more than 256 bytes (300, say)
      makes the thread send that many bytes out of its 256-byte buffer, and
      leaves the payload on the stream, where its first bytes are taken as
      the next header. */
  lemma {:induction false} OversizeFrameOverreads(payload: seq<byte>, more: seq<byte>, ctrlSock: int)
    requires BUFFER_SIZE < |payload| < 65536 && ctrlSock >= 0
    ensures OutputStep(Encode(CONTROL, payload) + more, ctrlSock, -1) ==
      (ToControl(ctrlSock, OutOfBounds(|payload|)), payload + more)
  {
    EncodeDecodes(CONTROL, payload, more);
    var s := Encode(CONTROL, payload) + more;
    assert s[3..] == payload + more;
  }

  /** `relay_recv` corrected: a payload too long for the buffer is read and
      thrown away, so the stream stays at a frame boundary. */
  function RelayRecvFixed(connected: bool, stream: seq<byte>): (r: RecvResult)
    ensures r.payload.Some? ==> |r.payload.value| <= r.len <= BUFFER_SIZE
    ensures r.ret == 0 && r.payload.Some? ==> |r.payload.value| == r.len
  {
    var r := RelayRecv(connected, stream);
    if r.ret == 0 && r.len > BUFFER_SIZE then
      if |r.rest| < r.len then RecvResult(-1, r.channel, r.len, None, [])
      else RecvResult(0, r.channel, r.len, None, r.rest[r.len..])
    else r
  }

  /** The output thread corrected: an oversized frame is dropped. */
  function OutputStepFixed(stream: seq<byte>, ctrlSock: int, intrSock: int): (OutputAction, seq<byte>)
  {
    var r := RelayRecvFixed(true, stream);
    (if r.ret == 0 && r.len > BUFFER_SIZE then Dropped else Route(r, ctrlSock, intrSock), r.rest)
  }

  /** Corrected, the thread only ever sends bytes it read, never more than
      its buffer holds, and each frame consumes exactly its own bytes: a
      frame of up to 256 bytes is forwarded unchanged, a longer one is
      dropped whole. */
  lemma {:induction false} OutputStepFixedStaysInSync(channel: byte, payload: seq<byte>, more: seq<byte>, ctrlSock: int, intrSock: int)
    requires |payload| < 65536
    ensures var (a, rest) := OutputStepFixed(Encode(channel, payload) + more, ctrlSock, intrSock);
      rest == more &&
      (a.ToControl? || a.ToInterrupt? ==> a.data == Payload(payload) && |payload| <= BUFFER_SIZE) &&
      (|payload| > BUFFER_SIZE ==> a == Dropped)
  {
    EncodeDecodes(channel, payload, more);
    var s := Encode(channel, payload) + more;
    if |payload| > BUFFER_SIZE {
      assert s[3..][|payload|..] == more;
    }
  }

  /** The correction changes nothing for a frame that fits the buffer: on
      such a stream the corrected thread and the one as written do the
      same thing. */
  lemma {:induction false} FixedAgreesOnFittingFrames(channel: byte, payload: seq<byte>, more: seq<byte>, ctrlSock: int, intrSock: int)
    requires |payload| <= BUFFER_SIZE
    ensures OutputStepFixed(Encode(channel, payload) + more, ctrlSock, intrSock) ==
      OutputStep(Encode(channel, payload) + more, ctrlSock, intrSock)
  {
    EncodeDecodes(channel, payload, more);
  }

  /** What `poll` reported for one console channel, and what `recv` gave. An
      empty packet stands for a return of zero or less. */
  datatype ChannelPoll = ChannelPoll(readable: bool, received: seq<byte>, hangup: bool)

  /** What the input thread asks for: a frame to the relay, or
      `bt_hid_disconnect`. */
  datatype InputAction = RelaySendReq(channel: byte, data: seq<byte>) | DisconnectReq

  /** One channel's part of a pass: forward the packet under the channel's
      tag, or disconnect on a closed channel or a hang-up. The flag says
      whether the pass ends here (`continue`). */
  function ChannelActions(p: ChannelPoll, tag: byte): (seq<InputAction>, bool)
  {
    var data := Take(p.received, BUFFER_SIZE);
    if p.readable && data == [] then ([DisconnectReq], true)
    else
      var sent := if p.readable then [RelaySendReq(tag, data)] else [];
      if p.hangup then (sent + [DisconnectReq], true) else (sent, false)
  }

  /** One pass of `bt_hid_input_thread` after a `poll` that reported events:
      the control channel first, then the interrupt channel. */
  function InputPass(ctrl: ChannelPoll, intr: ChannelPoll): (acts: seq<InputAction>)
    ensures forall k :: 0 <= k < |acts| && acts[k].RelaySendReq? ==>
      (acts[k].channel == CONTROL && ctrl.readable && acts[k].data == Take(ctrl.received, BUFFER_SIZE)) ||
      (acts[k].channel == INTERRUPT && intr.readable && acts[k].data == Take(intr.received, BUFFER_SIZE))
    ensures forall k :: 0 <= k < |acts| && acts[k].DisconnectReq? ==> k == |acts| - 1
    ensures forall k :: 0 <= k < |acts| && acts[k].RelaySendReq? ==> acts[k].data != [] && |acts[k].data| <= BUFFER_SIZE
    ensures ctrl.readable && Take(ctrl.received, BUFFER_SIZE) != [] ==>
      acts != [] && acts[0] == RelaySendReq(CONTROL, Take(ctrl.received, BUFFER_SIZE))
    ensures ctrl.readable && Take(ctrl.received, BUFFER_SIZE) == [] ==> acts == [DisconnectReq]
    ensures !(ctrl.readable && Take(ctrl.received, BUFFER_SIZE) == []) ==> (
      var fromCtrl := if ctrl.readable then [RelaySendReq(CONTROL, Take(ctrl.received, BUFFER_SIZE))] else [];
      var fromIntr := if !intr.readable then [] else
        if Take(intr.received, BUFFER_SIZE) == [] then [DisconnectReq]
        else [RelaySendReq(INTERRUPT, Take(intr.received, BUFFER_SIZE))];
      var intrEnds := intr.readable && Take(intr.received, BUFFER_SIZE) == [];
      (ctrl.hangup ==> acts == fromCtrl + [DisconnectReq]) &&
      (!ctrl.hangup ==> acts == fromCtrl + fromIntr + (if intr.hangup && !intrEnds then [DisconnectReq] else [])))
  {
    var (a, ends) := ChannelActions(ctrl, CONTROL);
    if ends then a else a + ChannelActions(intr, INTERRUPT).0
  }
}

/** The USB side of the adapter: the FunctionFS control endpoint, where the
    console's SETUP requests and the gadget's enable, disable and unbind
    events arrive (`usb_control_thread`), and the interrupt OUT endpoint,
    whose output reports become the rumble values the DualSense is sent
    (`usb_output_thread`). The endpoint files are not opened here: each
    thread is handed what its reads returned, and what it does to ep0 is
    recorded as a list of operations. */
module UsbGadget {
  import opened Bytes
  import opened Ds3

  /** The class descriptor the gadget declares: length 9, type HID (0x21),
      HID 1.11, no country, one report descriptor of 148 bytes. */
  const HID_DESCRIPTOR: seq<byte> := [0x09, 0x21, 0x11, 0x01, 0x00, 0x01, 0x22, 0x94, 0x00]

  /** The largest packet on the interrupt endpoints and the size of the
      SET_REPORT buffer. */
  const EP_MAX_PACKET: nat := 64

  /** Class requests of section 7.2 of the USB Device Class Definition for
      HID 1.11. */
  const REQ_GET_REPORT: byte := 0x01
  const REQ_SET_REPORT: byte := 0x09
  const REQ_SET_IDLE: byte := 0x0A

  /** The wire fields the descriptor encodes: its own length, its type, the
      little-endian bcdHID and report descriptor length. */
  lemma {:induction false} HidDescriptorFields()
    ensures HID_DESCRIPTOR[0] as int == |HID_DESCRIPTOR| && HID_DESCRIPTOR[1] == 0x21
    ensures Be16(HID_DESCRIPTOR[3], HID_DESCRIPTOR[2]) == 0x0111
    ensures Be16(HID_DESCRIPTOR[8], HID_DESCRIPTOR[7]) == 148
  {
    Be16Value(HID_DESCRIPTOR[3], HID_DESCRIPTOR[2]);
    Be16Value(HID_DESCRIPTOR[8], HID_DESCRIPTOR[7]);
  }

  type U16 = x: nat | x < 0x1_0000

  /** The fields of a SETUP packet the adapter looks at. */
  datatype Setup = Setup(requestType: byte, request: byte, value: U16, length: U16)

  /** A FunctionFS event. A SETUP carries, for a SET_REPORT, the bytes of the
      host's data stage (the read that follows takes what fits). */
  datatype FfsEvent = SetupEvent(setup: Setup, data: seq<byte>) | Enable | Disable | Unbind | OtherEvent(kind: int)

  /** What the thread does to ep0: `read(ep0, NULL, 0)` (the status stage,
      or a stall for a request the gadget does not answer), a read of at
      most `max` data bytes, or a write (of no bytes for an acknowledgement). */
  datatype Ep0Op = ZeroRead | DataRead(max: nat) | Write(bytes: seq<byte>)

  /** `wValue & 0xFF`. */
  function ReportId(value: U16): (id: byte)
    ensures id as int == value % 256
  {
    Lo8(value)
  }

  /** How many bytes the SET_REPORT read asks for. */
  function SetReportMax(length: U16): (n: nat)
    ensures n <= length && n <= EP_MAX_PACKET && (n == length || n == EP_MAX_PACKET)
  {
    if length < EP_MAX_PACKET then length else EP_MAX_PACKET
  }

  /** What the gadget does on ep0 for one SETUP, given report 0xEF. It stalls
      exactly the requests it neither answers nor acknowledges with a write:
      anything but SET_REPORT, SET_IDLE and a GET_REPORT of a known report.
      No data stage exceeds wLength or the 64-byte buffer. */
  function Answer(s: Setup, ef: seq<byte>): (ops: seq<Ep0Op>)
    requires |ef| == FEATURE_REPORT_SIZE
    ensures ops == [ZeroRead] <==>
      s.request != REQ_SET_REPORT && (s.request != REQ_GET_REPORT || FeatureReport(ReportId(s.value), ef).data.None?)
    ensures forall i :: 0 <= i < |ops| ==> ops[i].Write? ==> |ops[i].bytes| <= s.length && |ops[i].bytes| <= EP_MAX_PACKET
    ensures forall i :: 0 <= i < |ops| ==> ops[i].DataRead? ==> 0 < ops[i].max <= s.length && ops[i].max <= EP_MAX_PACKET
    ensures s.request == REQ_GET_REPORT && FeatureReport(ReportId(s.value), ef).data.Some? ==>
      var report := FeatureReport(ReportId(s.value), ef).data.value;
      ops == [Write(report[..Min(FEATURE_REPORT_SIZE, s.length)])]
    ensures s.request == REQ_SET_REPORT ==>
      ops == (if s.length > 0 then [DataRead(SetReportMax(s.length))] else []) + [Write([])]
  {
    if s.request == REQ_SET_IDLE then [ZeroRead]
    else if s.request == REQ_GET_REPORT then
      var lookup := FeatureReport(ReportId(s.value), ef);
      if lookup.data.Some? then [Write(lookup.data.value[..Min(FEATURE_REPORT_SIZE, s.length)])] else [ZeroRead]
    else if s.request == REQ_SET_REPORT then
      var ops := (if s.length > 0 then [DataRead(SetReportMax(s.length))] else []) + [Write([])];
      assert ops[|ops| - 1] == Write([]);
      ops
    else [ZeroRead]
  }

  /** Report 0xEF after `ds3_handle_set_report`. */
  function StoredEf(id: byte, data: seq<byte>, ef: seq<byte>): (r: seq<byte>)
    requires |ef| == FEATURE_REPORT_SIZE
    ensures |r| == FEATURE_REPORT_SIZE
  {
    if id == REPORT_EF then SetReportEf(ef, data) else ef
  }

  /** The bytes the SET_REPORT read hands on: at most what was asked for;
      none when wLength is 0. */
  function SetReportData(s: Setup, data: seq<byte>): (r: seq<byte>)
    ensures |r| <= s.length && |r| <= EP_MAX_PACKET && |r| <= |data| && r == data[..|r|]
    ensures s.length > 0 && data != [] ==> r != []
  {
    if s.length > 0 then Take(data, SetReportMax(s.length)) else []
  }

  /** Report 0xEF after one SETUP: only a SET_REPORT that read some bytes
      reaches `ds3_handle_set_report`. */
  function EfAfterSetup(s: Setup, data: seq<byte>, ef: seq<byte>): (r: seq<byte>)
    requires |ef| == FEATURE_REPORT_SIZE
    ensures |r| == FEATURE_REPORT_SIZE
    ensures s.request != REQ_SET_REPORT || s.length == 0 || data == [] ==> r == ef
  {
    var got := SetReportData(s, data);
    if s.request == REQ_SET_REPORT && got != [] then StoredEf(ReportId(s.value), got, ef) else ef
  }

  /** The flags the control and output threads share: `g_usb_enabled`,
      `g_running` and the rumble values. */
  datatype UsbState = UsbState(usbEnabled: bool, running: bool, rumbleRight: byte, rumbleLeft: byte)

  /** The flags at start-up. */
  const USB_START: UsbState := UsbState(false, true, 0, 0)

  /** What the control thread keeps: the flags, report 0xEF and the ep0
      operations so far. */
  datatype Control = Control(usb: UsbState, ef: seq<byte>, ep0: seq<Ep0Op>)

  predicate ControlOk(c: Control)
  {
    |c.ef| == FEATURE_REPORT_SIZE
  }

  /** One pass of the `switch` on a FunctionFS event. */
  function ControlStep(c: Control, e: FfsEvent): (r: Control)
    requires ControlOk(c)
    ensures ControlOk(r)
    ensures r.usb.running == (c.usb.running && !e.Unbind?)
    ensures e.Disable? ==> !r.usb.usbEnabled && r.usb.rumbleRight == 0 && r.usb.rumbleLeft == 0
    ensures e.Enable? ==> r.usb.usbEnabled
    ensures !e.SetupEvent? ==> r.ef == c.ef && r.ep0 == c.ep0
    ensures e.SetupEvent? ==> r.usb == c.usb
  {
    match e
      case SetupEvent(s, data) => Control(c.usb, EfAfterSetup(s, data, c.ef), c.ep0 + Answer(s, c.ef))
      case Enable => c.(usb := c.usb.(usbEnabled := true))
      case Disable => c.(usb := c.usb.(usbEnabled := false, rumbleRight := 0, rumbleLeft := 0))
      case Unbind => c.(usb := c.usb.(running := false))
      case OtherEvent(_) => c
  }

  /** The outcome of one `read` on ep0. */
  datatype Ep0Read = Got(event: FfsEvent) | Interrupted | ReadFailed

  /** `usb_control_thread` over successive reads: an interrupted read is
      retried, a failed one ends the thread, and so does `g_running`
      becoming false. */
  function ControlRun(c: Control, results: seq<Ep0Read>): (r: Control)
    requires ControlOk(c)
    ensures ControlOk(r)
    decreases |results|
  {
    if results == [] || !c.usb.running then c
    else match results[0]
      case Interrupted => ControlRun(c, results[1..])
      case ReadFailed => c
      case Got(e) => ControlRun(ControlStep(c, e), results[1..])
  }

  /** Once the thread has ended, by UNBIND or a failed read, nothing that
      follows is processed. */
  lemma {:induction false} NothingAfterTheEnd(c: Control, xs: seq<Ep0Read>, last: Ep0Read, ys: seq<Ep0Read>)
    requires ControlOk(c)
    requires last == ReadFailed || last == Got(Unbind)
    ensures ControlRun(c, xs + [last] + ys) == ControlRun(c, xs + [last])
    decreases |xs|
  {
    var long, short := xs + [last] + ys, xs + [last];
    if !c.usb.running {
    } else if xs == [] {
      assert long[0] == last && short[0] == last;
      assert short[1..] == [];
      if last == Got(Unbind) {
        var d := ControlStep(c, Unbind);
        assert !d.usb.running;
        assert ControlRun(c, long) == ControlRun(d, long[1..]);
      }
    } else {
      assert long[0] == xs[0] && short[0] == xs[0];
      assert long[1..] == xs[1..] + [last] + ys;
      assert short[1..] == xs[1..] + [last];
      match xs[0]
      case Interrupted =>
        NothingAfterTheEnd(c, xs[1..], last, ys);
      case ReadFailed =>
      case Got(e) =>
        NothingAfterTheEnd(ControlStep(c, e), xs[1..], last, ys);
    }
  }

  /** The console reads back what it stored: a SET_REPORT of report 0xEF
      carrying fewer than 64 bytes, then a GET_REPORT of 0xEF asking for the
      whole report, answers the identifier followed by those bytes. */
  lemma {:induction false} SetThenGetReadsBack(c: Control, store: Setup, data: seq<byte>, fetch: Setup)
    requires ControlOk(c) && c.usb.running && 0 < |data| < FEATURE_REPORT_SIZE
    requires store.request == REQ_SET_REPORT && store.length == |data| && ReportId(store.value) == REPORT_EF
    requires fetch.request == REQ_GET_REPORT && fetch.length >= FEATURE_REPORT_SIZE && ReportId(fetch.value) == REPORT_EF
    ensures var r := ControlRun(c, [Got(SetupEvent(store, data)), Got(SetupEvent(fetch, []))]);
      var reply := r.ef;
      r.ep0 == c.ep0 + [DataRead(|data|), Write([]), Write(reply)] &&
      |reply| == FEATURE_REPORT_SIZE && reply[0] == REPORT_EF && reply[1..|data| + 1] == data
  {
    var results := [Got(SetupEvent(store, data)), Got(SetupEvent(fetch, []))];
    var c1 := ControlStep(c, SetupEvent(store, data));
    StoreStep(c, data, store);
    var ef := c1.ef;
    FetchStep(c1, fetch);
    var c2 := ControlStep(c1, SetupEvent(fetch, []));
    assert c1.usb.running && results[0] == Got(SetupEvent(store, data));
    assert results[1..][0] == Got(SetupEvent(fetch, [])) && results[1..][1..] == [];
    assert ControlRun(c1, results[1..]) == ControlRun(c2, []) == c2;
    assert ControlRun(c, results) == c2;
    assert ef[1..|data| + 1] == data by {
      forall i | 0 <= i < |data|
        ensures ef[1..|data| + 1][i] == data[i]
      {
        assert ef[i + 1] == data[i];
      }
    }
  }

  /** A SET_REPORT of report 0xEF reads its data and stores it. */
  lemma {:induction false} StoreStep(c: Control, data: seq<byte>, store: Setup)
    requires ControlOk(c) && 0 < |data| < FEATURE_REPORT_SIZE
    requires store.request == REQ_SET_REPORT && store.length == |data| && ReportId(store.value) == REPORT_EF
    ensures ControlStep(c, SetupEvent(store, data)) ==
      Control(c.usb, SetReportEf(c.ef, data), c.ep0 + [DataRead(|data|), Write([])])
  {
    assert SetReportData(store, data) == data;
  }

  /** A GET_REPORT of report 0xEF asking for the whole report writes all of
      it. */
  lemma {:induction false} FetchStep(c: Control, fetch: Setup)
    requires ControlOk(c)
    requires fetch.request == REQ_GET_REPORT && fetch.length >= FEATURE_REPORT_SIZE && ReportId(fetch.value) == REPORT_EF
    ensures ControlStep(c, SetupEvent(fetch, [])) == c.(ep0 := c.ep0 + [Write(c.ef)])
  {
    assert c.ef[..FEATURE_REPORT_SIZE] == c.ef;
  }

  /** `usb_output_thread`'s conversion of one read from the interrupt OUT
      endpoint: a report of six bytes or more drives the right motor fully
      or not at all, from byte 3, and the left motor with byte 5; anything
      shorter (or a failed read, no bytes) changes nothing. */
  function Rumble(packet: seq<byte>, right: byte, left: byte): (r: (byte, byte))
    ensures |packet| < 6 ==> r == (right, left)
    ensures |packet| >= 6 ==> (r.0 == 0xFF <==> packet[3] != 0) && (r.0 == 0 <==> packet[3] == 0) && r.1 == packet[5]
  {
    if |packet| >= 6 then (if packet[3] != 0 then 0xFF else 0x00, packet[5]) else (right, left)
  }

  /** The rumble values after a run of reads. */
  function RumbleRun(right: byte, left: byte, packets: seq<seq<byte>>): (byte, byte)
    decreases |packets|
  {
    if packets == [] then (right, left)
    else
      var (r, l) := Rumble(packets[0], right, left);
      RumbleRun(r, l, packets[1..])
  }

  /** The last packet long enough to carry rumble, if any. */
  function LastLong(packets: seq<seq<byte>>): Option<seq<byte>>
  {
    if packets == [] then None
    else if |packets[|packets| - 1]| >= 6 then Some(packets[|packets| - 1])
    else LastLong(packets[..|packets| - 1])
  }

  /** Only the last long packet counts: the rumble values are its
      conversion, or the earlier ones when no packet was long enough. */
  lemma {:induction false} RumbleFollowsLastLong(right: byte, left: byte, packets: seq<seq<byte>>)
    ensures RumbleRun(right, left, packets) ==
      if LastLong(packets).Some? then Rumble(LastLong(packets).value, right, left) else (right, left)
    decreases |packets|
  {
    if packets != [] {
      var init, last := packets[..|packets| - 1], packets[|packets| - 1];
      assert packets == init + [last];
      RumbleRunAppend(right, left, init, last);
      RumbleFollowsLastLong(right, left, init);
    }
  }

  lemma {:induction false} RumbleRunAppend(right: byte, left: byte, init: seq<seq<byte>>, last: seq<byte>)
    ensures var (r, l) := RumbleRun(right, left, init);
      RumbleRun(right, left, init + [last]) == Rumble(last, r, l)
    decreases |init|
  {
    if init == [] {
      assert init + [last] == [last];
      assert [last][1..] == [];
    } else {
      assert (init + [last])[0] == init[0];
      assert (init + [last])[1..] == init[1..] + [last];
      var (r, l) := Rumble(init[0], right, left);
      RumbleRunAppend(r, l, init[1..], last);
    }
  }

  /** The gadget's shared flags, the DS3 reports the control thread reads
      and writes, and the operations done on ep0 so far. */
  class Gadget {
    var usbEnabled: bool
    var running: bool
    var rumbleRight: byte
    var rumbleLeft: byte
    var ep0: seq<Ep0Op>
    const emulator: Emulator

    predicate Valid()
    {
      emulator.Valid()
    }

    function Flags(): UsbState
      reads this
    {
      UsbState(usbEnabled, running, rumbleRight, rumbleLeft)
    }

    function View(): (c: Control)
      requires Valid()
      reads this, emulator.reportEf
      ensures ControlOk(c)
    {
      Control(Flags(), emulator.reportEf[..], ep0)
    }

    /** The flags as `common.c` initialises them. */
    constructor (emulator: Emulator)
      requires emulator.Valid()
      ensures Valid() && this.emulator == emulator
      ensures Flags() == USB_START && ep0 == []
    {
      this.emulator := emulator;
      usbEnabled := false;
      running := true;
      rumbleRight := 0;
      rumbleLeft := 0;
      ep0 := [];
    }

    /** The `FUNCTIONFS_SETUP` case of the switch. */
    method HandleSetup(s: Setup, data: seq<byte>)
      requires Valid()
      modifies this, emulator.reportEf
      ensures Flags() == old(Flags())
      ensures ep0 == old(ep0) + Answer(s, old(emulator.reportEf[..]))
      ensures emulator.reportEf[..] == EfAfterSetup(s, data, old(emulator.reportEf[..]))
    {
      var id := ReportId(s.value);
      if s.request == REQ_SET_IDLE {
        ep0 := ep0 + [ZeroRead];
      } else if s.request == REQ_GET_REPORT {
        var lookup := FeatureReport(id, emulator.reportEf[..]);
        if lookup.data.Some? {
          var sendLen := if FEATURE_REPORT_SIZE < s.length then FEATURE_REPORT_SIZE else s.length;
          ep0 := ep0 + [Write(lookup.data.value[..sendLen])];
        } else {
          ep0 := ep0 + [ZeroRead];
        }
      } else if s.request == REQ_SET_REPORT {
        if s.length > 0 {
          var max := if s.length < EP_MAX_PACKET then s.length else EP_MAX_PACKET;
          ep0 := ep0 + [DataRead(max)];
          var got := Take(data, max);
          if |got| > 0 {
            emulator.HandleSetReport(id, got);
          }
        }
        ep0 := ep0 + [Write([])];
      } else {
        ep0 := ep0 + [ZeroRead];
      }
    }

    /** One pass of the switch in `usb_control_thread`. */
    method HandleEvent(e: FfsEvent)
      requires Valid()
      modifies this, emulator.reportEf
      ensures View() == ControlStep(old(View()), e)
    {
      match e
      case SetupEvent(s, data) =>
        HandleSetup(s, data);
      case Enable =>
        usbEnabled := true;
      case Disable =>
        usbEnabled := false;
        rumbleRight := 0;
        rumbleLeft := 0;
      case Unbind =>
        running := false;
      case OtherEvent(_) =>
    }

    /** `usb_control_thread`: reads ep0 while `g_running` holds. */
    method ControlThread(results: seq<Ep0Read>)
      requires Valid()
      modifies this, emulator.reportEf
      ensures View() == ControlRun(old(View()), results)
    {
      var i := 0;
      while i < |results| && running
        invariant 0 <= i <= |results|
        invariant ControlRun(old(View()), results) == ControlRun(View(), results[i..])
        decreases |results| - i
      {
        assert results[i..][1..] == results[i + 1..];
        match results[i]
        case Interrupted =>
          i := i + 1;
        case ReadFailed =>
          return;
        case Got(e) =>
          HandleEvent(e);
          i := i + 1;
      }
    }

    /** `usb_output_thread` over successive reads of ep2, while `g_running`
        holds; a failed read is no bytes. */
    method OutputThread(packets: seq<seq<byte>>)
      requires Valid()
      modifies this
      ensures usbEnabled == old(usbEnabled) && running == old(running) && ep0 == old(ep0)
      ensures (rumbleRight, rumbleLeft) ==
        if running then RumbleRun(old(rumbleRight), old(rumbleLeft), packets) else (old(rumbleRight), old(rumbleLeft))
    {
      var i := 0;
      while running && i < |packets|
        invariant 0 <= i <= |packets|
        invariant usbEnabled == old(usbEnabled) && running == old(running) && ep0 == old(ep0)
        invariant RumbleRun(old(rumbleRight), old(rumbleLeft), packets) == RumbleRun(rumbleRight, rumbleLeft, packets[i..])
        invariant !running ==> i == 0 && rumbleRight == old(rumbleRight) && rumbleLeft == old(rumbleLeft)
      {
        assert packets[i..][1..] == packets[i + 1..];
        var buf := packets[i];
        var n := |buf|;
        if n >= 6 {
          var rightPower := buf[3];
          var leftPower := buf[5];
          rumbleRight := if rightPower != 0 then 0xFF else 0x00;
          rumbleLeft := leftPower;
        }
        i := i + 1;
      }
      if running {
        assert packets[i..] == [];
        assert RumbleRun(rumbleRight, rumbleLeft, packets[i..]) == (rumbleRight, rumbleLeft);
      }
    }
  }
}

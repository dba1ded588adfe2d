/** The DualShock 3 the adapter pretends to be: the feature reports the
    console asks for over USB, the 49-byte input report it polls, and the
    conversions that fill that report in. */
module Ds3 {
  import opened Bytes

  const FEATURE_REPORT_SIZE: nat := 64
  const INPUT_REPORT_SIZE: nat := 49

  // Feature report identifiers.
  const REPORT_CAPABILITIES: byte := 0x01
  const REPORT_BT_MAC: byte := 0xF2
  const REPORT_PAIRING: byte := 0xF5
  const REPORT_CALIBRATION: byte := 0xF7
  const REPORT_STATUS: byte := 0xF8
  const REPORT_EF: byte := 0xEF

  // Buttons in byte 2 of the input report.
  const BTN_SELECT: byte := 0x01
  const BTN_L3: byte := 0x02
  const BTN_R3: byte := 0x04
  const BTN_START: byte := 0x08
  const BTN_DPAD_UP: byte := 0x10
  const BTN_DPAD_RIGHT: byte := 0x20
  const BTN_DPAD_DOWN: byte := 0x40
  const BTN_DPAD_LEFT: byte := 0x80

  // Buttons in byte 3.
  const BTN_L2: byte := 0x01
  const BTN_R2: byte := 0x02
  const BTN_L1: byte := 0x04
  const BTN_R1: byte := 0x08
  const BTN_TRIANGLE: byte := 0x10
  const BTN_CIRCLE: byte := 0x20
  const BTN_CROSS: byte := 0x40
  const BTN_SQUARE: byte := 0x80

  // Byte 4.
  const BTN_PS: byte := 0x01

  // Offsets in the input report.
  const OFF_BUTTONS1: nat := 2
  const OFF_BUTTONS2: nat := 3
  const OFF_PS_BUTTON: nat := 4
  const OFF_LX: nat := 6
  const OFF_LY: nat := 7
  const OFF_RX: nat := 8
  const OFF_RY: nat := 9
  const OFF_L2_PRESSURE: nat := 18
  const OFF_R2_PRESSURE: nat := 19
  const OFF_TRIANGLE_P: nat := 22
  const OFF_CIRCLE_P: nat := 23
  const OFF_CROSS_P: nat := 24
  const OFF_SQUARE_P: nat := 25
  const OFF_BATTERY: nat := 29
  const OFF_CHARGE: nat := 30
  const OFF_CONNECTION: nat := 31
  const OFF_ACCEL_X: nat := 40
  const OFF_ACCEL_Y: nat := 42
  const OFF_ACCEL_Z: nat := 44
  const OFF_GYRO_Z: nat := 46

  // Battery and connection bytes.
  const STATUS_PLUGGED: byte := 0x02
  const BATTERY_SHUTDOWN: byte := 0x00
  const BATTERY_DYING: byte := 0x01
  const BATTERY_LOW: byte := 0x02
  const BATTERY_MEDIUM: byte := 0x03
  const BATTERY_HIGH: byte := 0x04
  const BATTERY_FULL: byte := 0x05
  const BATTERY_CHARGING: byte := 0xEE
  const BATTERY_CHARGED: byte := 0xEF
  const CONN_USB_RUMBLE: byte := 0x10
  const CONN_USB: byte := 0x12

  /** Capabilities (0x01), as captured from a real controller. */
  const REPORT_01: seq<byte> := [
    0x00, 0x01, 0x04, 0x00, 0x08, 0x0C, 0x01, 0x02, 0x18, 0x18, 0x18, 0x18, 0x09, 0x0A, 0x10, 0x11,
    0x12, 0x13, 0x00, 0x00, 0x00, 0x00, 0x04, 0x00, 0x02, 0x02, 0x02, 0x02, 0x00, 0x00, 0x00, 0x04,
    0x04, 0x04, 0x04, 0x00, 0x00, 0x04, 0x00, 0x01, 0x02, 0x07, 0x00, 0x17, 0x00, 0x00, 0x00, 0x00,
    0x00, 0x00, 0x00, 0x00, 0x00, 0x00, 0x00, 0x00, 0x00, 0x00, 0x00, 0x00, 0x00, 0x00, 0x00, 0x00]

  /** The controller's Bluetooth address (0xF2). */
  const REPORT_F2: seq<byte> := [
    0xF2, 0xFF, 0xFF, 0x00, 0x34, 0xC7, 0x31, 0x25, 0xAE, 0x60, 0x00, 0x03, 0x50, 0x81, 0xD8, 0x01,
    0x8A, 0x13, 0x00, 0x00, 0x00, 0x00, 0x04, 0x00, 0x02, 0x02, 0x02, 0x02, 0x00, 0x00, 0x00, 0x04,
    0x04, 0x04, 0x04, 0x00, 0x00, 0x04, 0x00, 0x01, 0x02, 0x07, 0x00, 0x17, 0x00, 0x00, 0x00, 0x00,
    0x00, 0x00, 0x00, 0x00, 0x00, 0x00, 0x00, 0x00, 0x00, 0x00, 0x00, 0x00, 0x00, 0x00, 0x00, 0x00]

  /** The host address the controller is paired with (0xF5). */
  const REPORT_F5: seq<byte> := [
    0x01, 0x00, 0x38, 0x4F, 0xF0, 0x10, 0x02, 0x41, 0xAE, 0x60, 0x00, 0x03, 0x50, 0x81, 0xD8, 0x01,
    0x8A, 0x13, 0x00, 0x00, 0x00, 0x00, 0x04, 0x00, 0x02, 0x02, 0x02, 0x02, 0x00, 0x00, 0x00, 0x04,
    0x04, 0x04, 0x04, 0x00, 0x00, 0x04, 0x00, 0x01, 0x02, 0x07, 0x00, 0x17, 0x00, 0x00, 0x00, 0x00,
    0x00, 0x00, 0x00, 0x00, 0x00, 0x00, 0x00, 0x00, 0x00, 0x00, 0x00, 0x00, 0x00, 0x00, 0x00, 0x00]

  /** Calibration data (0xF7). */
  const REPORT_F7: seq<byte> := [
    0x02, 0x01, 0xF7, 0x02, 0xCB, 0x01, 0xEF, 0xFF, 0x14, 0x33, 0x00, 0x00, 0x00, 0x00, 0x00, 0x00,
    0x00, 0x00, 0x00, 0x00, 0x00, 0x00, 0x00, 0x00, 0x00, 0x00, 0x00, 0x00, 0x00, 0x00, 0x00, 0x00,
    0x00, 0x00, 0x00, 0x00, 0x00, 0x00, 0x00, 0x00, 0x00, 0x00, 0x00, 0x00, 0x00, 0x00, 0x00, 0x00,
    0x05, 0x00, 0x00, 0x00, 0x00, 0x00, 0x00, 0x00, 0x00, 0x00, 0x00, 0x00, 0x00, 0x00, 0x00, 0x00]

  /** Status (0xF8). */
  const REPORT_F8: seq<byte> := [
    0x00, 0x01, 0x00, 0x00, 0x08, 0x00, 0x03, 0x01, 0x00, 0x00, 0x00, 0x00, 0x00, 0x00, 0x00, 0x00,
    0x00, 0x00, 0x00, 0x00, 0x00, 0x00, 0x00, 0x00, 0x00, 0x00, 0x00, 0x00, 0x00, 0x00, 0x00, 0x00,
    0x00, 0x00, 0x00, 0x00, 0x00, 0x00, 0x00, 0x00, 0x00, 0x00, 0x00, 0x00, 0x00, 0x00, 0x00, 0x00,
    0x05, 0x00, 0x00, 0x00, 0x00, 0x00, 0x00, 0x00, 0x00, 0x00, 0x00, 0x00, 0x00, 0x00, 0x00, 0x00]

  /** Report 0xEF before the console has set it: its identifier, then zeros. */
  const INITIAL_EF: seq<byte> := [REPORT_EF] + seq(63, _ => 0)

  /** The input report at rest: sticks centred, plugged in and charging,
      motion sensors at their captured resting values. */
  const NEUTRAL_REPORT: seq<byte> := [
    0x01, 0x00, 0x00, 0x00, 0x00, 0x00, 0x80, 0x80, 0x80, 0x80, 0x00, 0x00, 0x00, 0x00, 0x00, 0x00,
    0x00, 0x00, 0x00, 0x00, 0x00, 0x00, 0x00, 0x00, 0x00, 0x00, 0x00, 0x00, 0x00, 0x02, 0xEE, 0x12,
    0x00, 0x00, 0x00, 0x00, 0x33, 0x04, 0x77, 0x01, 0xDE, 0x02, 0x35, 0x02, 0x08, 0x01, 0x94, 0x00,
    0x02]

  /** What `ds3_get_feature_report` hands back: the report's bytes (none for
      an unknown identifier) and its name. */
  datatype Lookup = Lookup(data: Option<seq<byte>>, name: string)

  /** `ds3_get_feature_report`, given the current contents of report 0xEF. */
  function FeatureReport(id: byte, ef: seq<byte>): (r: Lookup)
    requires |ef| == FEATURE_REPORT_SIZE
    ensures r.data.Some? <==> id in {REPORT_CAPABILITIES, REPORT_BT_MAC, REPORT_PAIRING,
                                     REPORT_CALIBRATION, REPORT_STATUS, REPORT_EF}
    ensures r.data.None? <==> r.name == "UNKNOWN"
    ensures r.data.Some? ==> |r.data.value| == FEATURE_REPORT_SIZE
    ensures id == REPORT_EF ==> r.data == Some(ef)
  {
    if id == REPORT_CAPABILITIES then Lookup(Some(REPORT_01), "Capabilities")
    else if id == REPORT_BT_MAC then Lookup(Some(REPORT_F2), "BT MAC")
    else if id == REPORT_PAIRING then Lookup(Some(REPORT_F5), "Pairing")
    else if id == REPORT_CALIBRATION then Lookup(Some(REPORT_F7), "Calibration")
    else if id == REPORT_STATUS then Lookup(Some(REPORT_F8), "Status")
    else if id == REPORT_EF then Lookup(Some(ef), "EF Config")
    else Lookup(None, "UNKNOWN")
  }

  /** Report 0xEF after a SET_REPORT 0xEF carrying `data`: the identifier,
      then as much of the data as fits in the other 63 bytes; what follows
      keeps its earlier contents. */
  function SetReportEf(ef: seq<byte>, data: seq<byte>): (r: seq<byte>)
    requires |ef| == FEATURE_REPORT_SIZE
    ensures |r| == FEATURE_REPORT_SIZE && r[0] == REPORT_EF
    ensures forall i :: 1 <= i <= Min(|data|, 63) ==> r[i] == data[i - 1]
    ensures forall i :: Min(|data|, 63) < i < FEATURE_REPORT_SIZE ==> r[i] == ef[i]
  {
    var n := Min(|data|, FEATURE_REPORT_SIZE - 1);
    [REPORT_EF] + data[..n] + ef[1 + n..]
  }

  /** Storing a second configuration overwrites the first where both reach:
      what the console reads back depends only on the later one as far as
      it goes. */
  lemma {:induction false} SetReportEfLastWins(ef: seq<byte>, first: seq<byte>, second: seq<byte>)
    requires |ef| == FEATURE_REPORT_SIZE && |first| <= |second|
    ensures SetReportEf(SetReportEf(ef, first), second) == SetReportEf(ef, second)
  {
    var a := SetReportEf(SetReportEf(ef, first), second);
    var b := SetReportEf(ef, second);
    forall i | 0 <= i < FEATURE_REPORT_SIZE
      ensures a[i] == b[i]
    {
    }
  }

  /** `ds3_convert_dpad`: the hat switch (0-7 clockwise from up, anything
      else centred) as d-pad bits. Only the low nibble counts. */
  function ConvertDpad(hat: byte): (m: byte)
    ensures m & 0x0F == 0
    ensures !(m & BTN_DPAD_UP != 0 && m & BTN_DPAD_DOWN != 0)
    ensures !(m & BTN_DPAD_LEFT != 0 && m & BTN_DPAD_RIGHT != 0)
  {
    var h := hat & 0x0F;
    if h == 0 then BTN_DPAD_UP
    else if h == 1 then BTN_DPAD_UP | BTN_DPAD_RIGHT
    else if h == 2 then BTN_DPAD_RIGHT
    else if h == 3 then BTN_DPAD_DOWN | BTN_DPAD_RIGHT
    else if h == 4 then BTN_DPAD_DOWN
    else if h == 5 then BTN_DPAD_DOWN | BTN_DPAD_LEFT
    else if h == 6 then BTN_DPAD_LEFT
    else if h == 7 then BTN_DPAD_UP | BTN_DPAD_LEFT
    else 0
  }

  /** A hat value of 8 or more (the low nibble) is centred: no d-pad bit. */
  lemma {:induction false} ConvertDpadCentred(hat: byte)
    ensures (hat & 0x0F) as int >= 8 <==> ConvertDpad(hat) == 0
  {
    var h := hat & 0x0F;
    assert h as int >= 8 <==> h >= 8;
  }

  /** Direction d (0 up, 1 right, 2 down, 3 left) is pressed exactly when
      the hat points at it or one eighth-turn to either side. */
  lemma {:induction false} ConvertDpadBits(hat: byte, d: int)
    requires 0 <= d < 4
    ensures (ConvertDpad(hat) & DpadBit(d) != 0) <==>
      (hat & 0x0F) as int < 8 && Near((hat & 0x0F) as int, 2 * d)
  {
    var h := hat & 0x0F;
    var v := h as int;
    assert v < 16;
    if v >= 8 {
      ConvertDpadCentred(hat);
    } else {
      assert h == v as bv8;
      DpadBitsAt(v, d, ConvertDpad(hat));
    }
  }

  /** ConvertDpadBits for one hat value below 8. */
  lemma {:induction false} DpadBitsAt(v: int, d: int, m: byte)
    requires 0 <= v < 8 && 0 <= d < 4
    requires m == ConvertDpad(v as bv8)
    ensures (m & DpadBit(d) != 0) <==> Near(v, 2 * d)
  {
    assert (v as bv8) & 0x0F == v as bv8;
    if v == 0 {
      assert m == BTN_DPAD_UP;
    } else if v == 1 {
      assert m == BTN_DPAD_UP | BTN_DPAD_RIGHT;
    } else if v == 2 {
      assert m == BTN_DPAD_RIGHT;
    } else if v == 3 {
      assert m == BTN_DPAD_DOWN | BTN_DPAD_RIGHT;
    } else if v == 4 {
      assert m == BTN_DPAD_DOWN;
    } else if v == 5 {
      assert m == BTN_DPAD_DOWN | BTN_DPAD_LEFT;
    } else if v == 6 {
      assert m == BTN_DPAD_LEFT;
    } else {
      assert m == BTN_DPAD_UP | BTN_DPAD_LEFT;
    }
  }

  /** The d-pad bits in clockwise order from up. */
  function DpadBit(d: int): byte
    requires 0 <= d < 4
  {
    [BTN_DPAD_UP, BTN_DPAD_RIGHT, BTN_DPAD_DOWN, BTN_DPAD_LEFT][d]
  }

  /** Whether eighth-turn h of the compass is at most one step from c. */
  predicate Near(h: int, c: int)
  {
    (h - c) % 8 <= 1 || (c - h) % 8 <= 1
  }

  /** The values `ds3_update_report` writes. */
  datatype Inputs = Inputs(
    buttons1: byte, buttons2: byte, psButton: byte,
    lx: byte, ly: byte, rx: byte, ry: byte,
    l2: byte, r2: byte,
    triangle: byte, circle: byte, cross: byte, square: byte)

  /** The offsets `ds3_update_report` writes. */
  const INPUT_OFFSETS: set<int> := {OFF_BUTTONS1, OFF_BUTTONS2, OFF_PS_BUTTON, OFF_LX, OFF_LY,
    OFF_RX, OFF_RY, OFF_L2_PRESSURE, OFF_R2_PRESSURE, OFF_TRIANGLE_P, OFF_CIRCLE_P,
    OFF_CROSS_P, OFF_SQUARE_P}

  /** The offsets `ds3_update_motion` writes. */
  const MOTION_OFFSETS: set<int> := {40, 41, 42, 43, 44, 45, 46, 47}

  /** The offsets `ds3_update_battery` writes. */
  const BATTERY_OFFSETS: set<int> := {OFF_BATTERY, OFF_CHARGE, OFF_CONNECTION}

  /** b is a with only the bytes at `offsets` possibly changed. */
  predicate SameOutside(a: seq<byte>, b: seq<byte>, offsets: set<int>)
  {
    |a| == |b| && forall i :: 0 <= i < |a| && i !in offsets ==> b[i] == a[i]
  }

  /** The report after `ds3_update_report`. */
  function WithInputs(r: seq<byte>, x: Inputs): (w: seq<byte>)
    requires |r| == INPUT_REPORT_SIZE
    ensures SameOutside(r, w, INPUT_OFFSETS)
    ensures w[OFF_BUTTONS1] == x.buttons1 && w[OFF_BUTTONS2] == x.buttons2 && w[OFF_PS_BUTTON] == x.psButton
    ensures w[OFF_LX] == x.lx && w[OFF_LY] == x.ly && w[OFF_RX] == x.rx && w[OFF_RY] == x.ry
    ensures w[OFF_L2_PRESSURE] == x.l2 && w[OFF_R2_PRESSURE] == x.r2
    ensures w[OFF_TRIANGLE_P] == x.triangle && w[OFF_CIRCLE_P] == x.circle
    ensures w[OFF_CROSS_P] == x.cross && w[OFF_SQUARE_P] == x.square
  {
    r[OFF_BUTTONS1 := x.buttons1][OFF_BUTTONS2 := x.buttons2][OFF_PS_BUTTON := x.psButton]
     [OFF_LX := x.lx][OFF_LY := x.ly][OFF_RX := x.rx][OFF_RY := x.ry]
     [OFF_L2_PRESSURE := x.l2][OFF_R2_PRESSURE := x.r2]
     [OFF_TRIANGLE_P := x.triangle][OFF_CIRCLE_P := x.circle]
     [OFF_CROSS_P := x.cross][OFF_SQUARE_P := x.square]
  }

  /** The report after `ds3_update_motion`: each value little-endian, and
      each reads back as the value it was. */
  function WithMotion(r: seq<byte>, ax: Int16, ay: Int16, az: Int16, gz: Int16): (w: seq<byte>)
    requires |r| == INPUT_REPORT_SIZE
    ensures SameOutside(r, w, MOTION_OFFSETS)
    ensures FromLe16(w[OFF_ACCEL_X], w[OFF_ACCEL_X + 1]) == ax
    ensures FromLe16(w[OFF_ACCEL_Y], w[OFF_ACCEL_Y + 1]) == ay
    ensures FromLe16(w[OFF_ACCEL_Z], w[OFF_ACCEL_Z + 1]) == az
    ensures FromLe16(w[OFF_GYRO_Z], w[OFF_GYRO_Z + 1]) == gz
    ensures w[OFF_ACCEL_X] as int + 256 * w[OFF_ACCEL_X + 1] as int == ax % 65536
  {
    Le16RoundTrip(ax);
    Le16RoundTrip(ay);
    Le16RoundTrip(az);
    Le16RoundTrip(gz);
    var a, b, c, d := Le16(ax), Le16(ay), Le16(az), Le16(gz);
    r[40 := a[0]][41 := a[1]][42 := b[0]][43 := b[1]][44 := c[0]][45 := c[1]][46 := d[0]][47 := d[1]]
  }

  /** The report after `ds3_update_battery`. */
  function WithBattery(r: seq<byte>, plugged: byte, battery: byte, connection: byte): (w: seq<byte>)
    requires |r| == INPUT_REPORT_SIZE
    ensures SameOutside(r, w, BATTERY_OFFSETS)
    ensures w[OFF_BATTERY] == plugged && w[OFF_CHARGE] == battery && w[OFF_CONNECTION] == connection
  {
    r[OFF_BATTERY := plugged][OFF_CHARGE := battery][OFF_CONNECTION := connection]
  }

  /** The percentages below which each lower battery step is shown. */
  const THRESHOLDS: seq<int> := [5, 15, 35, 60, 85]

  /** How many of the thresholds a level exceeds. */
  function Exceeded(level: int, ts: seq<int>): (n: nat)
    ensures n <= |ts|
  {
    if ts == [] then 0 else (if level > ts[0] then 1 else 0) + Exceeded(level, ts[1..])
  }

  /** The battery byte `ds3_update_battery_from_dualsense` reports. */
  function BatteryStatus(level: byte, charging: bool): (s: byte)
    ensures charging ==> (s == BATTERY_CHARGED <==> level >= 100)
    ensures charging ==> s == BATTERY_CHARGED || s == BATTERY_CHARGING
    ensures !charging ==> s <= BATTERY_FULL
  {
    if charging then (if level >= 100 then BATTERY_CHARGED else BATTERY_CHARGING)
    else if level <= 5 then BATTERY_SHUTDOWN
    else if level <= 15 then BATTERY_DYING
    else if level <= 35 then BATTERY_LOW
    else if level <= 60 then BATTERY_MEDIUM
    else if level <= 85 then BATTERY_HIGH
    else BATTERY_FULL
  }

  /** On battery, the step shown is the number of thresholds the level is
      above. */
  lemma {:induction false} BatteryCountsThresholds(level: byte)
    ensures BatteryStatus(level, false) as int == Exceeded(level as int, THRESHOLDS)
  {
    var l := level as int;
    var t4: seq<int> := [85];
    var t3: seq<int> := [60] + t4;
    var t2: seq<int> := [35] + t3;
    var t1: seq<int> := [15] + t2;
    assert THRESHOLDS == [5] + t1;
    assert Exceeded(l, t4) == (if l > 85 then 1 else 0) by {
      assert t4[1..] == [];
    }
    assert Exceeded(l, t3) == (if l > 60 then 1 else 0) + Exceeded(l, t4) by {
      assert t3[1..] == t4;
    }
    assert Exceeded(l, t2) == (if l > 35 then 1 else 0) + Exceeded(l, t3) by {
      assert t2[1..] == t3;
    }
    assert Exceeded(l, t1) == (if l > 15 then 1 else 0) + Exceeded(l, t2) by {
      assert t1[1..] == t2;
    }
    assert Exceeded(l, THRESHOLDS) == (if l > 5 then 1 else 0) + Exceeded(l, t1) by {
      assert THRESHOLDS[1..] == t1;
    }
  }

  /** More charge never shows fewer steps. */
  lemma {:induction false} BatteryMonotone(a: byte, b: byte)
    requires a <= b
    ensures BatteryStatus(a, false) <= BatteryStatus(b, false)
  {
  }

  /** The connection byte: USB with rumble when either motor runs. */
  function ConnectionByte(rumbleRight: byte, rumbleLeft: byte): (c: byte)
    ensures c == CONN_USB_RUMBLE <==> rumbleRight != 0 || rumbleLeft != 0
    ensures c == CONN_USB_RUMBLE || c == CONN_USB
  {
    if rumbleRight > 0 || rumbleLeft > 0 then CONN_USB_RUMBLE else CONN_USB
  }

  /** `g_ds3_report` and `report_ef`, the two reports the adapter changes. */
  class Emulator {
    const report: array<byte>
    const reportEf: array<byte>

    predicate Valid()
    {
      report.Length == INPUT_REPORT_SIZE && reportEf.Length == FEATURE_REPORT_SIZE && report != reportEf
    }

    constructor ()
      ensures Valid() && fresh(report) && fresh(reportEf)
      ensures report[..] == NEUTRAL_REPORT && reportEf[..] == INITIAL_EF
    {
      report := new byte[INPUT_REPORT_SIZE](i requires 0 <= i < INPUT_REPORT_SIZE => NEUTRAL_REPORT[i]);
      reportEf := new byte[FEATURE_REPORT_SIZE](i requires 0 <= i < FEATURE_REPORT_SIZE => INITIAL_EF[i]);
      new;
      assert report[..] == NEUTRAL_REPORT;
      assert reportEf[..] == INITIAL_EF;
    }

    /** `ds3_handle_set_report`: only 0xEF is stored; the LED and output
        reports are only logged. */
    method HandleSetReport(id: byte, data: seq<byte>)
      requires Valid()
      modifies reportEf
      ensures reportEf[..] == if id == REPORT_EF then SetReportEf(old(reportEf[..]), data) else old(reportEf[..])
    {
      if id == REPORT_EF {
        ghost var before := reportEf[..];
        reportEf[0] := REPORT_EF;
        var n := Min(|data|, FEATURE_REPORT_SIZE - 1);
        forall i | 0 <= i < n {
          reportEf[1 + i] := data[i];
        }
        assert reportEf[..] == SetReportEf(before, data);
      }
    }

    /** `ds3_update_report`. */
    method UpdateReport(x: Inputs)
      requires Valid()
      modifies report
      ensures report[..] == WithInputs(old(report[..]), x)
    {
      report[OFF_BUTTONS1] := x.buttons1;
      report[OFF_BUTTONS2] := x.buttons2;
      report[OFF_PS_BUTTON] := x.psButton;
      report[OFF_LX] := x.lx;
      report[OFF_LY] := x.ly;
      report[OFF_RX] := x.rx;
      report[OFF_RY] := x.ry;
      report[OFF_L2_PRESSURE] := x.l2;
      report[OFF_R2_PRESSURE] := x.r2;
      report[OFF_TRIANGLE_P] := x.triangle;
      report[OFF_CIRCLE_P] := x.circle;
      report[OFF_CROSS_P] := x.cross;
      report[OFF_SQUARE_P] := x.square;
    }

    /** `ds3_update_motion`. */
    method UpdateMotion(ax: Int16, ay: Int16, az: Int16, gz: Int16)
      requires Valid()
      modifies report
      ensures report[..] == WithMotion(old(report[..]), ax, ay, az, gz)
    {
      var a, b, c, d := Le16(ax), Le16(ay), Le16(az), Le16(gz);
      report[OFF_ACCEL_X] := a[0];
      report[OFF_ACCEL_X + 1] := a[1];
      report[OFF_ACCEL_Y] := b[0];
      report[OFF_ACCEL_Y + 1] := b[1];
      report[OFF_ACCEL_Z] := c[0];
      report[OFF_ACCEL_Z + 1] := c[1];
      report[OFF_GYRO_Z] := d[0];
      report[OFF_GYRO_Z + 1] := d[1];
    }

    /** `ds3_update_battery`. */
    method UpdateBattery(plugged: byte, battery: byte, connection: byte)
      requires Valid()
      modifies report
      ensures report[..] == WithBattery(old(report[..]), plugged, battery, connection)
    {
      report[OFF_BATTERY] := plugged;
      report[OFF_CHARGE] := battery;
      report[OFF_CONNECTION] := connection;
    }

    /** `ds3_update_battery_from_dualsense`, given the rumble values it
        reads under the rumble lock. */
    method UpdateBatteryFromDualsense(level: byte, charging: bool, rumbleRight: byte, rumbleLeft: byte)
      requires Valid()
      modifies report
      ensures report[..] == WithBattery(old(report[..]), STATUS_PLUGGED, BatteryStatus(level, charging),
                                        ConnectionByte(rumbleRight, rumbleLeft))
    {
      var status: byte;
      if charging {
        status := if level >= 100 then BATTERY_CHARGED else BATTERY_CHARGING;
      } else if level <= 5 {
        status := BATTERY_SHUTDOWN;
      } else if level <= 15 {
        status := BATTERY_DYING;
      } else if level <= 35 {
        status := BATTERY_LOW;
      } else if level <= 60 {
        status := BATTERY_MEDIUM;
      } else if level <= 85 {
        status := BATTERY_HIGH;
      } else {
        status := BATTERY_FULL;
      }
      var rumbleActive := rumbleRight > 0 || rumbleLeft > 0;
      var connection := if rumbleActive then CONN_USB_RUMBLE else CONN_USB;
      UpdateBattery(STATUS_PLUGGED, status, connection);
    }
  }
}

/** The DualSense side of the adapter: translation of the controller's
    Bluetooth input report (id 0x31) into the DS3 report, and construction
    of the 78-byte Bluetooth output report that drives its motors and
    lights, sealed with a CRC-32 trailer.

    C's `/` truncates toward zero; Dafny's `/` is Euclidean. The stick and
    motion conversions divide signed values, so they go through CDiv. */
module DualSense {
  import opened Bytes
  import Ds3
  import Crc32

  const REPORT_ID: byte := 0x31
  const INPUT_SIZE: nat := 78

  // Input report offsets
  const OFF_LX: nat := 2
  const OFF_LY: nat := 3
  const OFF_RX: nat := 4
  const OFF_RY: nat := 5
  const OFF_L2: nat := 6
  const OFF_R2: nat := 7
  const OFF_BUTTONS1: nat := 9
  const OFF_BUTTONS2: nat := 10
  const OFF_BUTTONS3: nat := 11
  const OFF_GYRO_Z: nat := 20
  const OFF_ACCEL_X: nat := 22
  const OFF_ACCEL_Y: nat := 24
  const OFF_ACCEL_Z: nat := 26
  const OFF_BATTERY: nat := 54
  /** The first touch point: contact byte, then 12-bit x and y. */
  const OFF_TOUCHPAD: nat := 34

  // Byte 9: the hat in the low nibble, face buttons in the high one
  const BTN1_SQUARE: byte := 0x10
  const BTN1_CROSS: byte := 0x20
  const BTN1_CIRCLE: byte := 0x40
  const BTN1_TRIANGLE: byte := 0x80
  // Byte 10
  const BTN2_L1: byte := 0x01
  const BTN2_R1: byte := 0x02
  const BTN2_L2: byte := 0x04
  const BTN2_R2: byte := 0x08
  const BTN2_CREATE: byte := 0x10
  const BTN2_OPTIONS: byte := 0x20
  const BTN2_L3: byte := 0x40
  const BTN2_R3: byte := 0x80
  // Byte 11
  const BTN3_PS: byte := 0x01
  const BTN3_TOUCHPAD: byte := 0x02

  /** Touchpad movement that gives full stick deflection. */
  const SENSITIVITY: int := 400

  // ---------------------------------------------------------------
  // Integer conversions
  // ---------------------------------------------------------------

  /** C's `a / d` for a positive divisor: the quotient rounded toward zero
      (CDivBounds). */
  function CDiv(a: int, d: int): int
    requires d > 0
  {
    if a >= 0 then a / d else -((-a) / d)
  }

  /** The truncated quotient is the one whose multiple lies between zero
      and the dividend, less than a divisor away. */
  lemma {:induction false} CDivBounds(a: int, d: int)
    requires d > 0
    ensures var q := CDiv(a, d);
      (a >= 0 ==> 0 <= q && q * d <= a < q * d + d) &&
      (a < 0 ==> q <= 0 && q * d - d < a <= q * d)
  {
    if a >= 0 {
      DivBounds(a, d);
    } else {
      var e := (-a) / d;
      DivBounds(-a, d);
      assert (-e) * d == -(e * d);
      MulOrder(-1, e + 1, d);
    }
  }

  /** Dafny's quotient of a non-negative number, as bounds on its multiple. */
  lemma DivBounds(n: int, d: int)
    requires n >= 0 && d > 0
    ensures 0 <= n / d && (n / d) * d <= n < (n / d) * d + d
  {
    var q, m := n / d, n % d;
    assert n == d * q + m && 0 <= m < d;
    assert d * q == q * d;
    if q < 0 {
      MulMono(q, -1, d);
    }
  }

  /** Truncation is odd, so it differs from Dafny's floor-like `/` exactly
      on negative numbers that are not multiples of the divisor. */
  lemma {:induction false} CDivVersusEuclid(a: int, d: int)
    requires d > 0
    ensures CDiv(-a, d) == -CDiv(a, d)
    ensures a >= 0 || a % d == 0 ==> CDiv(a, d) == a / d
    ensures a < 0 && a % d != 0 ==> CDiv(a, d) == a / d + 1
  {
    if a < 0 {
      if a % d == 0 {
        NegativeExact(a, d);
      } else {
        NegativeInexact(a, d);
      }
    }
  }

  lemma {:induction false} NegativeExact(a: int, d: int)
    requires d > 0 && a < 0 && a % d == 0
    ensures (-a) / d == -(a / d)
  {
    var q := a / d;
    assert a == q * d;
    assert -a == (-q) * d;
    QuotientUnique(-a, d, -q);
  }

  lemma {:induction false} NegativeInexact(a: int, d: int)
    requires d > 0 && a < 0 && a % d != 0
    ensures (-a) / d == -(a / d) - 1
  {
    var q, r := a / d, a % d;
    assert a == q * d + r;
    assert (-q - 1) * d == -(q * d) - d;
    assert -a == (-q - 1) * d + (d - r);
    QuotientUnique(-a, d, -q - 1);
  }

  /** A larger dividend never has a smaller quotient. */
  lemma {:induction false} CDivMonotone(a: int, b: int, d: int)
    requires d > 0 && a <= b
    ensures CDiv(a, d) <= CDiv(b, d)
  {
    var qa, qb := CDiv(a, d), CDiv(b, d);
    CDivBounds(a, d);
    CDivBounds(b, d);
    assert (qb + 1) * d == qb * d + d && (qa - 1) * d == qa * d - d;
    if a >= 0 {
      MulOrder(qa, qb + 1, d);
    } else if b < 0 {
      MulOrder(qa - 1, qb, d);
    } else {
      MulOrder(0, qb + 1, d);
      MulOrder(qa - 1, 0, d);
    }
  }

  lemma MulMono(x: int, y: int, d: int)
    requires x <= y && d >= 0
    ensures x * d <= y * d
  {
    assert y * d - x * d == (y - x) * d;
  }

  lemma {:induction false} MulOrder(x: int, y: int, d: int)
    requires d > 0
    ensures x * d < y * d ==> x < y
  {
    if x >= y {
      MulMono(y, x, d);
    }
  }

  /** Euclidean division has one quotient. */
  lemma {:induction false} QuotientUnique(a: int, d: int, q: int)
    requires d > 0 && q * d <= a < q * d + d
    ensures a / d == q
  {
    var e := a / d;
    assert e * d <= a < e * d + d;
    assert (q + 1) * d == q * d + d && (e + 1) * d == e * d + d;
    MulOrder(e, q + 1, d);
    MulOrder(q, e + 1, d);
  }

  /** The stick clamp of `dualsense_process_input` with its `uint8_t` cast. */
  function ClampByte(x: int): (b: byte)
    ensures 0 <= x <= 255 ==> b as int == x
    ensures x < 0 ==> b == 0
    ensures x > 255 ==> b == 255
  {
    if x < 0 then 0 else if x > 255 then 255 else ToByte(x)
  }

  /** The right-stick axis a touch drag of `delta` pixels steers to. */
  function TouchStick(delta: int): (s: byte)
  {
    ClampByte(128 + CDiv(delta * 127, SENSITIVITY))
  }

  /** A touch that has not moved leaves the stick centred. */
  lemma TouchStickCentred()
    ensures TouchStick(0) == 128
  {
  }

  /** Dragging further never moves the stick back. */
  lemma {:induction false} TouchStickMonotone(a: int, b: int)
    requires a <= b
    ensures TouchStick(a) <= TouchStick(b)
  {
    CDivMonotone(a * 127, b * 127, SENSITIVITY);
  }

  /** Within 403 pixels either way the stick is unclamped and mirror
      symmetric about 128. Truncation makes the extremes uneven: the stick
      is fully right from 400 pixels right, but fully left only from 404
      pixels left (400 left gives 1). */
  lemma {:induction false} TouchStickRange(delta: int)
    ensures -403 <= delta <= 403 ==> TouchStick(delta) as int + TouchStick(-delta) as int == 256
    ensures TouchStick(delta) == 255 <==> delta >= 400
    ensures TouchStick(delta) == 0 <==> delta <= -404
  {
    CDivVersusEuclid(delta * 127, SENSITIVITY);
    assert (-delta) * 127 == -(delta * 127);
    if delta >= 404 {
      CDivMonotone(404 * 127, delta * 127, SENSITIVITY);
    } else if delta >= 400 {
      CDivMonotone(400 * 127, delta * 127, SENSITIVITY);
      CDivMonotone(delta * 127, 403 * 127, SENSITIVITY);
    } else if delta >= 0 {
      CDivMonotone(delta * 127, 399 * 127, SENSITIVITY);
    } else if delta >= -403 {
      CDivMonotone(-403 * 127, delta * 127, SENSITIVITY);
    } else {
      CDivMonotone(delta * 127, -404 * 127, SENSITIVITY);
    }
  }

  /** The accelerometer axis as the DS3 reports it, centred on 512. */
  function Accel(v: Int16): (a: Int16)
    ensures -1536 <= a <= 2559
  {
    CDivBounds(v, 16);
    512 + CDiv(v, 16)
  }

  /** The z gyroscope as the DS3 reports it, centred on 498. */
  function Gyro(v: Int16): (g: Int16)
    ensures -526 <= g <= 1521
  {
    CDivBounds(v, 32);
    498 + CDiv(v, 32)
  }

  /** The motion conversions are symmetric about their rest values, with a
      dead zone of one divisor either side of zero, and monotone. */
  lemma {:induction false} MotionConversions(v: Int16, w: Int16)
    ensures v > -32768 ==> Accel(-v as Int16) - 512 == 512 - Accel(v)
    ensures v > -32768 ==> Gyro(-v as Int16) - 498 == 498 - Gyro(v)
    ensures Accel(v) == 512 <==> -16 < v < 16
    ensures Gyro(v) == 498 <==> -32 < v < 32
    ensures v <= w ==> Accel(v) <= Accel(w) && Gyro(v) <= Gyro(w)
  {
    CDivVersusEuclid(v, 16);
    CDivVersusEuclid(v, 32);
    if v <= w {
      CDivMonotone(v, w, 16);
      CDivMonotone(v, w, 32);
    }
  }

  /** `(int16_t)(buf[off] | buf[off + 1] << 8)` */
  function ReadLe16(buf: seq<byte>, off: nat): Int16
    requires off + 1 < |buf|
  {
    FromLe16(buf[off], buf[off + 1])
  }

  // ---------------------------------------------------------------
  // Touch coordinates
  // ---------------------------------------------------------------

  lemma Nibbles(b: byte)
    ensures (b & 0x0F) as int == b as int % 16
    ensures (b >> 4) as int == b as int / 16
  {
  }

  /** `touch[1] | ((touch[2] & 0x0F) << 8)` */
  function TouchX(b1: byte, b2: byte): (x: nat)
    ensures x < 4096
  {
    ValIsInt(b1);
    ValIsInt(b2 & 0x0F);
    Nibbles(b2);
    Val(b1) + 256 * Val(b2 & 0x0F)
  }

  /** `(touch[2] >> 4) | (touch[3] << 4)` */
  function TouchY(b2: byte, b3: byte): (y: nat)
    ensures y < 4096
  {
    ValIsInt(b2 >> 4);
    ValIsInt(b3);
    Nibbles(b2);
    Val(b2 >> 4) + 16 * Val(b3)
  }

  /** The three bytes a touch point at (x, y) occupies: x's low byte, then
      x's high nibble under y's low nibble, then y's high byte. */
  function PackTouch(x: nat, y: nat): (p: seq<byte>)
    requires x < 4096 && y < 4096
    ensures |p| == 3
  {
    [ToByte(x % 256), ToByte(x / 256 + 16 * (y % 16)), ToByte(y / 16)]
  }

  /** The coordinate decoding reads the two 12-bit values back. */
  lemma {:induction false} TouchCoordsRoundTrip(x: nat, y: nat)
    requires x < 4096 && y < 4096
    ensures TouchX(PackTouch(x, y)[0], PackTouch(x, y)[1]) == x
    ensures TouchY(PackTouch(x, y)[1], PackTouch(x, y)[2]) == y
  {
    var p := PackTouch(x, y);
    SharedByte(x, y, p[1]);
    ValIsInt(p[0]);
    ValIsInt(p[1] & 0x0F);
    ValIsInt(p[1] >> 4);
    ValIsInt(p[2]);
    assert x == x % 256 + 256 * (x / 256);
    assert y == y % 16 + 16 * (y / 16);
  }

  /** The byte holding x's high nibble and y's low nibble. */
  lemma {:induction false} SharedByte(x: nat, y: nat, m: byte)
    requires x < 4096 && y < 4096 && m as int == x / 256 + 16 * (y % 16)
    ensures (m & 0x0F) as int == x / 256 && (m >> 4) as int == y % 16
  {
    Nibbles(m);
    var h, l := x / 256, y % 16;
    assert h < 16 && l < 16;
    assert (h + 16 * l) % 16 == h && (h + 16 * l) / 16 == l;
  }

  // ---------------------------------------------------------------
  // Buttons, pressures, battery
  // ---------------------------------------------------------------

  /** DS3 buttons byte 1 (select, sticks, start, d-pad), in the order
      `dualsense_process_input` sets the bits. */
  function Buttons1(b1: byte, b2: byte, b3: byte, asR3: bool): (m: byte)
    ensures m & 0xF0 == Ds3.ConvertDpad(b1 & 0x0F)
    ensures m & Ds3.BTN_SELECT != 0 <==> b2 & BTN2_CREATE != 0 || (!asR3 && b3 & BTN3_TOUCHPAD != 0)
    ensures m & Ds3.BTN_L3 != 0 <==> b2 & BTN2_L3 != 0
    ensures m & Ds3.BTN_R3 != 0 <==> b2 & BTN2_R3 != 0
    ensures m & Ds3.BTN_START != 0 <==> b2 & BTN2_OPTIONS != 0
  {
    var d := 0 | Ds3.ConvertDpad(b1 & 0x0F);
    var m1 := if b2 & BTN2_L3 != 0 then d | Ds3.BTN_L3 else d;
    var m2 := if b2 & BTN2_R3 != 0 then m1 | Ds3.BTN_R3 else m1;
    var m3 := if b2 & BTN2_OPTIONS != 0 then m2 | Ds3.BTN_START else m2;
    var m4 := if b2 & BTN2_CREATE != 0 then m3 | Ds3.BTN_SELECT else m3;
    if !asR3 && b3 & BTN3_TOUCHPAD != 0 then m4 | Ds3.BTN_SELECT else m4
  }

  /** DS3 buttons byte 2 (shoulders and face buttons): every bit is the
      DualSense bit of the same button. */
  function Buttons2(b1: byte, b2: byte): (m: byte)
    ensures m & Ds3.BTN_SQUARE != 0 <==> b1 & BTN1_SQUARE != 0
    ensures m & Ds3.BTN_CROSS != 0 <==> b1 & BTN1_CROSS != 0
    ensures m & Ds3.BTN_CIRCLE != 0 <==> b1 & BTN1_CIRCLE != 0
    ensures m & Ds3.BTN_TRIANGLE != 0 <==> b1 & BTN1_TRIANGLE != 0
    ensures m & Ds3.BTN_L1 != 0 <==> b2 & BTN2_L1 != 0
    ensures m & Ds3.BTN_R1 != 0 <==> b2 & BTN2_R1 != 0
    ensures m & Ds3.BTN_L2 != 0 <==> b2 & BTN2_L2 != 0
    ensures m & Ds3.BTN_R2 != 0 <==> b2 & BTN2_R2 != 0
  {
    var m0: byte := 0;
    var m1 := if b1 & BTN1_SQUARE != 0 then m0 | Ds3.BTN_SQUARE else m0;
    var m2 := if b1 & BTN1_CROSS != 0 then m1 | Ds3.BTN_CROSS else m1;
    var m3 := if b1 & BTN1_CIRCLE != 0 then m2 | Ds3.BTN_CIRCLE else m2;
    var m4 := if b1 & BTN1_TRIANGLE != 0 then m3 | Ds3.BTN_TRIANGLE else m3;
    var m5 := if b2 & BTN2_L1 != 0 then m4 | Ds3.BTN_L1 else m4;
    var m6 := if b2 & BTN2_R1 != 0 then m5 | Ds3.BTN_R1 else m5;
    var m7 := if b2 & BTN2_L2 != 0 then m6 | Ds3.BTN_L2 else m6;
    if b2 & BTN2_R2 != 0 then m7 | Ds3.BTN_R2 else m7
  }

  /** The DS3 PS byte. */
  function PsButton(b3: byte): (p: byte)
    ensures p == Ds3.BTN_PS || p == 0
    ensures p != 0 <==> b3 & BTN3_PS != 0
  {
    if b3 & BTN3_PS != 0 then Ds3.BTN_PS else 0
  }

  /** The face-button pressure: digital, so all or nothing. */
  function Pressure(b1: byte, mask: byte): (p: byte)
    ensures p == 0xFF || p == 0
    ensures p == 0xFF <==> b1 & mask != 0
  {
    if b1 & mask != 0 then 0xFF else 0
  }

  /** The battery percentage: the low nibble in tens, capped at 100. The
      product is at most 150, so the `uint8_t` arithmetic does not wrap. */
  function BatteryLevel(b: byte): (level: byte)
    ensures level <= 100 && level as int % 10 == 0
    ensures (b & 0x0F) as int <= 10 ==> level as int == (b & 0x0F) as int * 10
    ensures (b & 0x0F) as int >= 10 ==> level == 100
  {
    var l := (b & 0x0F) * 10;
    if l > 100 then 100 else l
  }

  function Charging(b: byte): bool
  {
    b & 0x10 != 0
  }

  /** The DS3 shows "charged" exactly when the controller is charging at
      a full nibble; on battery a larger nibble never shows less. */
  lemma {:induction false} BatteryByteStatus(b: byte, c: byte)
    ensures Ds3.BatteryStatus(BatteryLevel(b), Charging(b)) == Ds3.BATTERY_CHARGED <==>
      Charging(b) && (b & 0x0F) as int >= 10
    ensures (b & 0x0F) <= (c & 0x0F) ==>
      Ds3.BatteryStatus(BatteryLevel(b), false) <= Ds3.BatteryStatus(BatteryLevel(c), false)
  {
    if (b & 0x0F) <= (c & 0x0F) {
      assert BatteryLevel(b) <= BatteryLevel(c);
      Ds3.BatteryMonotone(BatteryLevel(b), BatteryLevel(c));
    }
  }

  // ---------------------------------------------------------------
  // Input translation
  // ---------------------------------------------------------------

  /** The touchpad-as-right-stick settings: whether it is on, the contact
      byte's "no finger" bit and the coordinate limits. */
  datatype TouchConfig = TouchConfig(asR3: bool, inactive: byte, width: int, height: int)

  /** `g_touchpad_state`: whether a finger is down, where it first landed
      (the virtual stick centre) and where it is now. */
  datatype Touch = Touch(active: bool, initialX: int, initialY: int, currentX: int, currentY: int)

  /** A report `dualsense_process_input` accepts. */
  predicate Accepted(buf: seq<byte>)
  {
    |buf| >= 12 && buf[0] == REPORT_ID
  }

  /** What the touch block of one report does: the new touchpad state
      and, when the finger steers the right stick, the stick values. */
  function TouchStep(cfg: TouchConfig, t: Touch, buf: seq<byte>): (r: (Touch, Option<(byte, byte)>))
  {
    if !(cfg.asR3 && |buf| >= OFF_TOUCHPAD + 4) then (t, None)
    else if buf[OFF_TOUCHPAD] & cfg.inactive != 0 then (t.(active := false), None)
    else TouchAt(cfg, t, TouchX(buf[OFF_TOUCHPAD + 1], buf[OFF_TOUCHPAD + 2]),
                 TouchY(buf[OFF_TOUCHPAD + 2], buf[OFF_TOUCHPAD + 3]))
  }

  /** A finger down at (x, y): ignored outside the pad, otherwise anchored
      on first contact and steering by its drag from the anchor. */
  function TouchAt(cfg: TouchConfig, t: Touch, x: int, y: int): (r: (Touch, Option<(byte, byte)>))
  {
    if x > cfg.width || y > cfg.height then (t, None)
    else (Anchored(t, x, y), Some(DragStick(Anchored(t, x, y))))
  }

  /** The touch state with the finger at (x, y): anchored where it lands
      on first contact. */
  function Anchored(t: Touch, x: int, y: int): (t': Touch)
  {
    (if t.active then t else t.(active := true, initialX := x, initialY := y)).(currentX := x, currentY := y)
  }

  /** The stick position a finger steers to: its drag from the anchor. */
  function DragStick(t: Touch): (byte, byte)
  {
    (Steer(t.currentX, t.initialX), Steer(t.currentY, t.initialY))
  }

  /** One stick axis for a finger at `pos` anchored at `anchor`. */
  function Steer(pos: int, anchor: int): byte
  {
    TouchStick(pos - anchor)
  }

  /** The touch block only acts with the option on and a long enough
      report; the first touch anchors the virtual centre where the finger
      lands, so it steers to the centre; a later touch keeps the anchor and
      steers by the drag from it, the current position being the one the
      report gives; lifting the finger releases the anchor; a finger
      outside the pad changes nothing. */
  lemma {:induction false} TouchStepCases(cfg: TouchConfig, t: Touch, buf: seq<byte>)
    ensures !(cfg.asR3 && |buf| >= OFF_TOUCHPAD + 4) ==> TouchStep(cfg, t, buf) == (t, None)
    ensures cfg.asR3 && |buf| >= OFF_TOUCHPAD + 4 && buf[OFF_TOUCHPAD] & cfg.inactive != 0 ==>
      !TouchStep(cfg, t, buf).0.active && TouchStep(cfg, t, buf).1.None?
    ensures TouchStep(cfg, t, buf).1.Some? ==> (
      var (t', stick) := TouchStep(cfg, t, buf);
      t'.active && t'.currentX <= cfg.width && t'.currentY <= cfg.height &&
      (t.active ==> t'.initialX == t.initialX && t'.initialY == t.initialY) &&
      (!t.active ==> stick == Some((128, 128))) &&
      stick == Some((Steer(t'.currentX, t'.initialX), Steer(t'.currentY, t'.initialY))))
    ensures TouchStep(cfg, t, buf).1.None? ==>
      TouchStep(cfg, t, buf).0 == t || TouchStep(cfg, t, buf).0 == t.(active := false)
    ensures cfg.asR3 && |buf| >= OFF_TOUCHPAD + 4 && buf[OFF_TOUCHPAD] & cfg.inactive == 0 ==> (
      var x := TouchX(buf[OFF_TOUCHPAD + 1], buf[OFF_TOUCHPAD + 2]);
      var y := TouchY(buf[OFF_TOUCHPAD + 2], buf[OFF_TOUCHPAD + 3]);
      var (t', stick) := TouchStep(cfg, t, buf);
      (x > cfg.width || y > cfg.height ==> t' == t && stick.None?) &&
      (x <= cfg.width && y <= cfg.height ==>
        stick.Some? && t'.currentX == x && t'.currentY == y &&
        (!t.active ==> t'.initialX == x && t'.initialY == y)))
  {
    if |buf| >= OFF_TOUCHPAD + 4 {
      SteerCentred(TouchX(buf[OFF_TOUCHPAD + 1], buf[OFF_TOUCHPAD + 2]));
      SteerCentred(TouchY(buf[OFF_TOUCHPAD + 2], buf[OFF_TOUCHPAD + 3]));
    }
  }

  /** A finger still on its anchor leaves the stick centred. */
  lemma SteerCentred(p: int)
    ensures Steer(p, p) == 128
  {
    TouchStickCentred();
  }

  /** The right stick: the touch stick when the touchpad steers it, the
      DualSense's own right stick otherwise. */
  function RightStick(buf: seq<byte>, stick: Option<(byte, byte)>): (byte, byte)
    requires |buf| >= 12
  {
    if stick.Some? then stick.value else (buf[OFF_RX], buf[OFF_RY])
  }

  /** The values `dualsense_process_input` hands to `ds3_update_report`. */
  function InputsOf(asR3: bool, buf: seq<byte>, stick: Option<(byte, byte)>): (x: Ds3.Inputs)
    requires |buf| >= 12
  {
    var b1, b2, b3 := buf[OFF_BUTTONS1], buf[OFF_BUTTONS2], buf[OFF_BUTTONS3];
    Ds3.Inputs(
      Buttons1(b1, b2, b3, asR3), Buttons2(b1, b2), PsButton(b3),
      buf[OFF_LX], buf[OFF_LY], RightStick(buf, stick).0, RightStick(buf, stick).1,
      buf[OFF_L2], buf[OFF_R2],
      Pressure(b1, BTN1_TRIANGLE), Pressure(b1, BTN1_CIRCLE),
      Pressure(b1, BTN1_CROSS), Pressure(b1, BTN1_SQUARE))
  }

  /** The DS3 report after the motion block: the converted accelerometer
      axes and z gyroscope. */
  function MotionReport(r: seq<byte>, buf: seq<byte>): (w: seq<byte>)
    requires |r| == Ds3.INPUT_REPORT_SIZE && |buf| >= 28
    ensures |w| == Ds3.INPUT_REPORT_SIZE
  {
    Ds3.WithMotion(r, Accel(ReadLe16(buf, OFF_ACCEL_X)), Accel(ReadLe16(buf, OFF_ACCEL_Y)),
                   Accel(ReadLe16(buf, OFF_ACCEL_Z)), Gyro(ReadLe16(buf, OFF_GYRO_Z)))
  }

  /** The DS3 report after the battery block. */
  function BatteryReport(r: seq<byte>, buf: seq<byte>, rumbleRight: byte, rumbleLeft: byte): (w: seq<byte>)
    requires |r| == Ds3.INPUT_REPORT_SIZE && |buf| > OFF_BATTERY
    ensures |w| == Ds3.INPUT_REPORT_SIZE
  {
    Ds3.WithBattery(r, Ds3.STATUS_PLUGGED,
                    Ds3.BatteryStatus(BatteryLevel(buf[OFF_BATTERY]), Charging(buf[OFF_BATTERY])),
                    Ds3.ConnectionByte(rumbleRight, rumbleLeft))
  }

  /** The DS3 report after an accepted DualSense report: the inputs, then
      the motion block if the report reaches byte 27, then the battery if
      it reaches byte 54. */
  function ReportAfter(r: seq<byte>, x: Ds3.Inputs, buf: seq<byte>, rumbleRight: byte, rumbleLeft: byte): (w: seq<byte>)
    requires |r| == Ds3.INPUT_REPORT_SIZE && |buf| >= 12
    ensures |w| == Ds3.INPUT_REPORT_SIZE
  {
    var r1 := Ds3.WithInputs(r, x);
    var r2 := if |buf| >= 28 then MotionReport(r1, buf) else r1;
    if |buf| > OFF_BATTERY then BatteryReport(r2, buf, rumbleRight, rumbleLeft) else r2
  }

  /** The button, stick and pressure bytes are the inputs whatever the
      report's length: every byte below the battery bytes is as
      `ds3_update_report` left it. */
  lemma {:induction false} ReportAfterInputs(r: seq<byte>, x: Ds3.Inputs, buf: seq<byte>, rr: byte, rl: byte)
    requires |r| == Ds3.INPUT_REPORT_SIZE && |buf| >= 12
    ensures ReportAfter(r, x, buf, rr, rl)[..Ds3.OFF_BATTERY] == Ds3.WithInputs(r, x)[..Ds3.OFF_BATTERY]
  {
    var r1 := Ds3.WithInputs(r, x);
    var r2 := if |buf| >= 28 then MotionReport(r1, buf) else r1;
    var w := if |buf| > OFF_BATTERY then BatteryReport(r2, buf, rr, rl) else r2;
    LowOffsets();
    SamePrefix(r1, r2, Ds3.MOTION_OFFSETS, Ds3.OFF_BATTERY);
    SamePrefix(r2, w, Ds3.BATTERY_OFFSETS, Ds3.OFF_BATTERY);
  }

  /** The motion and battery bytes all lie at or above the battery byte. */
  lemma LowOffsets()
    ensures forall i :: 0 <= i < Ds3.OFF_BATTERY ==> i !in Ds3.MOTION_OFFSETS && i !in Ds3.BATTERY_OFFSETS
  {
  }

  /** Two reports that differ only at offsets from n on agree below n. */
  lemma SamePrefix(a: seq<byte>, b: seq<byte>, offsets: set<int>, n: nat)
    requires Ds3.SameOutside(a, b, offsets) && n <= |a|
    requires forall i :: 0 <= i < n ==> i !in offsets
    ensures a[..n] == b[..n]
  {
  }

  /** A report too short for the motion block changes nothing but the
      button, stick and pressure bytes. */
  lemma {:induction false} ReportAfterShort(r: seq<byte>, x: Ds3.Inputs, buf: seq<byte>, rr: byte, rl: byte)
    requires |r| == Ds3.INPUT_REPORT_SIZE && 12 <= |buf| < 28
    ensures Ds3.SameOutside(r, ReportAfter(r, x, buf, rr, rl), Ds3.INPUT_OFFSETS)
  {
  }

  /** A report that stops before byte 54 leaves the battery bytes alone. */
  lemma {:induction false} ReportAfterNoBattery(r: seq<byte>, x: Ds3.Inputs, buf: seq<byte>, rr: byte, rl: byte)
    requires |r| == Ds3.INPUT_REPORT_SIZE && 12 <= |buf| <= OFF_BATTERY
    ensures Ds3.SameOutside(r, ReportAfter(r, x, buf, rr, rl), Ds3.INPUT_OFFSETS + Ds3.MOTION_OFFSETS)
  {
    var w := ReportAfter(r, x, buf, rr, rl);
    var r1 := Ds3.WithInputs(r, x);
    forall i | 0 <= i < |r| && i !in Ds3.INPUT_OFFSETS + Ds3.MOTION_OFFSETS
      ensures w[i] == r[i]
    {
      assert w[i] == r1[i];
    }
  }

  /** Once the report reaches them, the motion bytes read back as the
      converted sensor values. */
  lemma {:induction false} ReportAfterMotion(r: seq<byte>, x: Ds3.Inputs, buf: seq<byte>, rr: byte, rl: byte)
    requires |r| == Ds3.INPUT_REPORT_SIZE && |buf| >= 28
    ensures var w := ReportAfter(r, x, buf, rr, rl);
      FromLe16(w[Ds3.OFF_ACCEL_X], w[Ds3.OFF_ACCEL_X + 1]) == Accel(ReadLe16(buf, OFF_ACCEL_X)) &&
      FromLe16(w[Ds3.OFF_ACCEL_Y], w[Ds3.OFF_ACCEL_Y + 1]) == Accel(ReadLe16(buf, OFF_ACCEL_Y)) &&
      FromLe16(w[Ds3.OFF_ACCEL_Z], w[Ds3.OFF_ACCEL_Z + 1]) == Accel(ReadLe16(buf, OFF_ACCEL_Z)) &&
      FromLe16(w[Ds3.OFF_GYRO_Z], w[Ds3.OFF_GYRO_Z + 1]) == Gyro(ReadLe16(buf, OFF_GYRO_Z))
  {
    var w := ReportAfter(r, x, buf, rr, rl);
    var r2 := MotionReport(Ds3.WithInputs(r, x), buf);
    if |buf| > OFF_BATTERY {
      assert forall i :: 40 <= i < 48 ==> w[i] == r2[i];
    }
  }

  /** Once the report reaches byte 54, the DS3 battery byte is the
      converted DualSense level and the connection byte follows the
      motors. */
  lemma {:induction false} ReportAfterBattery(r: seq<byte>, x: Ds3.Inputs, buf: seq<byte>, rr: byte, rl: byte)
    requires |r| == Ds3.INPUT_REPORT_SIZE && |buf| > OFF_BATTERY
    ensures var w := ReportAfter(r, x, buf, rr, rl);
      w[Ds3.OFF_BATTERY] == Ds3.STATUS_PLUGGED &&
      w[Ds3.OFF_CHARGE] == Ds3.BatteryStatus(BatteryLevel(buf[OFF_BATTERY]), Charging(buf[OFF_BATTERY])) &&
      w[Ds3.OFF_CONNECTION] == Ds3.ConnectionByte(rr, rl)
  {
  }

  /** The translation: `dualsense_process_input` over the DS3 emulator's
      report and the touchpad state. */
  class InputTranslator {
    const emulator: Ds3.Emulator
    const config: TouchConfig
    var touch: Touch

    predicate Valid()
    {
      emulator.Valid()
    }

    constructor (emulator: Ds3.Emulator, config: TouchConfig, touch: Touch)
      requires emulator.Valid()
      ensures Valid() && this.emulator == emulator && this.config == config && this.touch == touch
    {
      this.emulator := emulator;
      this.config := config;
      this.touch := touch;
    }

    /** `dualsense_process_input`, given the rumble values
        `ds3_update_battery_from_dualsense` reads. */
    method ProcessInput(buf: seq<byte>, rumbleRight: byte, rumbleLeft: byte) returns (rc: int)
      requires Valid()
      modifies this, emulator.report
      ensures Valid()
      ensures rc == (if Accepted(buf) then 0 else -1)
      ensures !Accepted(buf) ==> touch == old(touch) && emulator.report[..] == old(emulator.report[..])
      ensures Accepted(buf) ==>
        touch == TouchStep(config, old(touch), buf).0 &&
        emulator.report[..] == ReportAfter(old(emulator.report[..]),
          InputsOf(config.asR3, buf, TouchStep(config, old(touch), buf).1), buf, rumbleRight, rumbleLeft)
    {
      if |buf| < 12 || buf[0] != REPORT_ID {
        return -1;
      }
      var stick := ApplyTouch(buf);
      var x := InputsOf(config.asR3, buf, stick);
      emulator.UpdateReport(x);
      if |buf| >= 28 {
        ApplyMotion(buf);
      }
      if |buf| >= 55 {
        ApplyBattery(buf, rumbleRight, rumbleLeft);
      }
      return 0;
    }

    /** The motion block of `dualsense_process_input`. */
    method ApplyMotion(buf: seq<byte>)
      requires Valid() && |buf| >= 28
      modifies emulator.report
      ensures emulator.report[..] == MotionReport(old(emulator.report[..]), buf)
    {
      var gz := ReadLe16(buf, OFF_GYRO_Z);
      var ax := ReadLe16(buf, OFF_ACCEL_X);
      var ay := ReadLe16(buf, OFF_ACCEL_Y);
      var az := ReadLe16(buf, OFF_ACCEL_Z);
      emulator.UpdateMotion(Accel(ax), Accel(ay), Accel(az), Gyro(gz));
    }

    /** The battery block of `dualsense_process_input`. */
    method ApplyBattery(buf: seq<byte>, rumbleRight: byte, rumbleLeft: byte)
      requires Valid() && |buf| > OFF_BATTERY
      modifies emulator.report
      ensures emulator.report[..] == BatteryReport(old(emulator.report[..]), buf, rumbleRight, rumbleLeft)
    {
      var battery := buf[OFF_BATTERY];
      var level := (battery & 0x0F) * 10;
      var charging := battery & 0x10 != 0;
      if level > 100 {
        level := 100;
      }
      assert level == BatteryLevel(battery);
      emulator.UpdateBatteryFromDualsense(level, charging, rumbleRight, rumbleLeft);
    }

    /** The touch block of `dualsense_process_input`: updates the touchpad
        state and gives the right stick, physical or steered. */
    method ApplyTouch(buf: seq<byte>) returns (stick: Option<(byte, byte)>)
      requires |buf| >= 12
      modifies this
      ensures (touch, stick) == TouchStep(config, old(touch), buf)
    {
      stick := None;
      if config.asR3 && |buf| >= OFF_TOUCHPAD + 4 {
        stick := TouchContact(buf);
      }
    }

    /** The touch block once it reads the contact bytes. */
    method TouchContact(buf: seq<byte>) returns (stick: Option<(byte, byte)>)
      requires config.asR3 && |buf| >= OFF_TOUCHPAD + 4
      modifies this
      ensures (touch, stick) == TouchStep(config, old(touch), buf)
    {
      stick := None;
      var contact := buf[OFF_TOUCHPAD];
      if contact & config.inactive == 0 {
        var x := TouchX(buf[OFF_TOUCHPAD + 1], buf[OFF_TOUCHPAD + 2]);
        var y := TouchY(buf[OFF_TOUCHPAD + 2], buf[OFF_TOUCHPAD + 3]);
        assert TouchStep(config, touch, buf) == TouchAt(config, touch, x, y);
        if !(x > config.width || y > config.height) {
          var rx, ry := TouchDown(x, y);
          stick := Some((rx, ry));
        }
      } else if touch.active {
        touch := touch.(active := false);
      }
    }

    /** The finger on the pad at (x, y). */
    method TouchDown(x: int, y: int) returns (rx: byte, ry: byte)
      requires x <= config.width && y <= config.height
      modifies this
      ensures (touch, Some((rx, ry))) == TouchAt(config, old(touch), x, y)
    {
      if !touch.active {
        touch := touch.(active := true, initialX := x, initialY := y);
      }
      touch := touch.(currentX := x, currentY := y);
      rx := StickAxis(touch.currentX, touch.initialX);
      ry := StickAxis(touch.currentY, touch.initialY);
    }
  }

  /** One axis of the touch stick, scaled and clamped as
      `dualsense_process_input` writes it out for x and for y. */
  method StickAxis(pos: int, anchor: int) returns (s: byte)
    ensures s == Steer(pos, anchor)
  {
    var v := 128 + CDiv((pos - anchor) * 127, SENSITIVITY);
    if v < 0 {
      v := 0;
    } else if v > 255 {
      v := 255;
    }
    s := ToByte(v);
    ByteInjective(s, Steer(pos, anchor));
  }

}

/** The output half of the DualSense driver: the 78-byte Bluetooth output
    report (report id 0x31) that sets the rumble motors, the lightbar and
    the player LEDs, with its sequence tag and CRC-32 trailer, and the
    output thread that sends one only when the rumble or the lightbar has
    changed. */
module DualSenseOutput {
  import opened Bytes
  import opened Crc32

  const OUTPUT_REPORT_ID: byte := 0x31
  const OUTPUT_SIZE: nat := 78
  /** The bytes the CRC covers; the trailer follows them. */
  const BODY_SIZE: nat := 74
  /** The byte the CRC is seeded with ahead of the body: the Bluetooth HID
      header of an output report. */
  const CRC_SEED: byte := 0xA2

  const OUT_SEQ_TAG: nat := 1
  const OUT_TAG: nat := 2
  const OUT_VALID_FLAG0: nat := 3
  const OUT_VALID_FLAG1: nat := 4
  const OUT_MOTOR_RIGHT: nat := 5
  const OUT_MOTOR_LEFT: nat := 6
  const OUT_VALID_FLAG2: nat := 41
  const OUT_LIGHTBAR_SETUP: nat := 44
  const OUT_LED_BRIGHTNESS: nat := 45
  const OUT_PLAYER_LEDS: nat := 46
  const OUT_LIGHTBAR_RED: nat := 47
  const OUT_LIGHTBAR_GREEN: nat := 48
  const OUT_LIGHTBAR_BLUE: nat := 49

  const VALID0_RUMBLE: byte := 0x01
  const VALID0_HAPTICS: byte := 0x02
  const VALID1_LIGHTBAR: byte := 0x04
  const VALID1_PLAYER_LEDS: byte := 0x08
  const VALID2_LIGHTBAR_SETUP: byte := 0x02

  /** The offsets the driver writes; every other body byte stays zero. */
  const OUTPUT_FIELDS: set<int> := {0, OUT_SEQ_TAG, OUT_TAG, OUT_VALID_FLAG0, OUT_VALID_FLAG1,
    OUT_MOTOR_RIGHT, OUT_MOTOR_LEFT, OUT_VALID_FLAG2, OUT_LIGHTBAR_SETUP, OUT_LED_BRIGHTNESS,
    OUT_PLAYER_LEDS, OUT_LIGHTBAR_RED, OUT_LIGHTBAR_GREEN, OUT_LIGHTBAR_BLUE}

  /** `lightbar_state_t`. */
  datatype Lightbar = Lightbar(r: byte, g: byte, b: byte, playerLeds: byte, brightness: byte)

  /** The lightbar the program starts with: blue, no player LED. */
  const DEFAULT_LIGHTBAR: Lightbar := Lightbar(0, 0, 255, 0, 255)

  /** What one output report asks of the controller. */
  datatype Command = Command(right: byte, left: byte, r: byte, g: byte, b: byte, playerLeds: byte)

  /** The sequence tag byte: the counter in the high nibble. */
  function SeqTag(n: nat): (t: byte)
    requires n < 16
    ensures t & 0x0F == 0 && (t >> 4) as int == n
  {
    var t := ToByte(16 * n);
    SeqTagNibbles(n, t);
    t
  }

  lemma SeqTagNibbles(n: nat, t: byte)
    requires n < 16 && t as int == 16 * n
    ensures t & 0x0F == 0 && (t >> 4) as int == n
  {
    assert t == (n as bv8) << 4;
  }

  /** The 74 bytes before the trailer for sequence number n. */
  function OutputBody(n: nat, c: Command): (body: seq<byte>)
    requires n < 16
    ensures |body| == BODY_SIZE
  {
    seq(BODY_SIZE, _ => 0 as byte)
      [0 := OUTPUT_REPORT_ID]
      [OUT_SEQ_TAG := SeqTag(n)]
      [OUT_TAG := 0x10]
      [OUT_VALID_FLAG0 := VALID0_RUMBLE | VALID0_HAPTICS]
      [OUT_VALID_FLAG1 := VALID1_LIGHTBAR | VALID1_PLAYER_LEDS]
      [OUT_MOTOR_RIGHT := c.right]
      [OUT_MOTOR_LEFT := c.left]
      [OUT_VALID_FLAG2 := VALID2_LIGHTBAR_SETUP]
      [OUT_LIGHTBAR_SETUP := 0x02]
      [OUT_LED_BRIGHTNESS := 0xFF]
      [OUT_PLAYER_LEDS := c.playerLeds]
      [OUT_LIGHTBAR_RED := c.r]
      [OUT_LIGHTBAR_GREEN := c.g]
      [OUT_LIGHTBAR_BLUE := c.b]
  }

  /** The CRC-32 as four bytes, low byte first: `(crc >> 8k) & 0xFF`. */
  function CrcTrailer(c: Word): (t: seq<byte>)
    ensures |t| == 4
  {
    [ToByte(Low8(c)), ToByte(Low8(Shr8(c))), ToByte(Low8(Shr8(Shr8(c)))),
     ToByte(Low8(Shr8(Shr8(Shr8(c)))))]
  }

  /** The whole report `dualsense_send_output` writes. */
  function OutputReport(n: nat, c: Command): (frame: seq<byte>)
    requires n < 16
    ensures |frame| == OUTPUT_SIZE
  {
    Framed(OutputBody(n, c))
  }

  /** A body followed by the CRC of the seeded body. */
  function Framed(body: seq<byte>): (frame: seq<byte>)
    ensures |frame| == |body| + 4
  {
    body + CrcTrailer(Checksum([CRC_SEED] + body))
  }

  /** Any framed body with the right id parses to its own fields. */
  lemma FramedParses(body: seq<byte>)
    requires |body| == BODY_SIZE && body[0] == OUTPUT_REPORT_ID
    ensures ParseOutput(Framed(body)) == Some(((body[OUT_SEQ_TAG] >> 4) as int,
      Command(body[OUT_MOTOR_RIGHT], body[OUT_MOTOR_LEFT], body[OUT_LIGHTBAR_RED],
              body[OUT_LIGHTBAR_GREEN], body[OUT_LIGHTBAR_BLUE], body[OUT_PLAYER_LEDS])))
  {
    var frame := Framed(body);
    assert frame[..BODY_SIZE] == body;
    assert frame[BODY_SIZE..] == CrcTrailer(Checksum([CRC_SEED] + body));
  }

  /** The controller's reading of an output report: the sequence number and
      the command, if the id is 0x31 and the trailer is the CRC of the
      seeded body. */
  function ParseOutput(frame: seq<byte>): (r: Option<(nat, Command)>)
    ensures r.Some? ==> r.value.0 < 16
  {
    if |frame| != OUTPUT_SIZE || frame[0] != OUTPUT_REPORT_ID then None
    else if frame[BODY_SIZE..] != CrcTrailer(Checksum([CRC_SEED] + frame[..BODY_SIZE])) then None
    else
      Some(((frame[OUT_SEQ_TAG] >> 4) as int,
            Command(frame[OUT_MOTOR_RIGHT], frame[OUT_MOTOR_LEFT], frame[OUT_LIGHTBAR_RED],
                    frame[OUT_LIGHTBAR_GREEN], frame[OUT_LIGHTBAR_BLUE], frame[OUT_PLAYER_LEDS])))
  }

  /** The controller reads back the sequence number and the command of
      every report the driver builds. */
  lemma OutputRoundTrip(n: nat, c: Command)
    requires n < 16
    ensures ParseOutput(OutputReport(n, c)) == Some((n, c))
  {
    var body := OutputBody(n, c);
    FramedParses(body);
    assert (body[OUT_SEQ_TAG] >> 4) as int == n;
  }

  /** The fixed bytes of every report: the feature flags name rumble,
      haptics, lightbar and player LEDs, brightness is always full, and
      the bytes nobody writes are zero. */
  lemma OutputFixedBytes(n: nat, c: Command)
    requires n < 16
    ensures var f := OutputBody(n, c);
      f[0] == 0x31 && f[OUT_SEQ_TAG] & 0x0F == 0 && f[OUT_TAG] == 0x10 &&
      f[OUT_VALID_FLAG0] == 0x03 && f[OUT_VALID_FLAG1] == 0x0C && f[OUT_VALID_FLAG2] == 0x02 &&
      f[OUT_LIGHTBAR_SETUP] == 0x02 && f[OUT_LED_BRIGHTNESS] == 0xFF
    ensures forall i :: 0 <= i < BODY_SIZE && i !in OUTPUT_FIELDS ==> OutputBody(n, c)[i] == 0
  {
  }

  /** The trailer holds the CRC-32 as a little-endian 32-bit number. */
  lemma {:induction false} CrcTrailerValue(c: Word)
    ensures var t := CrcTrailer(c);
      t[0] as int + 256 * t[1] as int + 65536 * t[2] as int + 16777216 * t[3] as int == Value(c)
  {
    var t := CrcTrailer(c);
    var s1 := Shr8(c);
    var s2 := Shr8(s1);
    Shr8Window(c, 0);
    Shr8Window(s1, 0);
    Shr8Window(c, 8);
    Shr8Window(Shr8(s1), 0);
    Shr8Window(s1, 8);
    Shr8Window(c, 16);
    assert s1[..8] == c[8..16] && s2[..8] == c[16..24] && Shr8(s2)[..8] == c[24..32];
    ValueOfWindows(c);
  }

  /** A 32-bit number from its four bytes. */
  lemma {:induction false} ValueOfWindows(c: seq<bool>)
    requires |c| == 32
    ensures Value(c) == Value(c[..8]) + 256 * Value(c[8..16]) + 65536 * Value(c[16..24]) +
      16777216 * Value(c[24..32])
  {
    ValueSplit8(c);
    ValueSplit8(c[8..]);
    ValueSplit8(c[16..]);
    SuffixSplit(c, 8, 8);
    SuffixSplit(c, 16, 8);
    assert c[24..] == c[24..32];
  }

  lemma SuffixSplit(s: seq<bool>, a: nat, b: nat)
    requires a + b <= |s|
    ensures s[a..][..b] == s[a..a + b] && s[a..][b..] == s[a + b..]
  {
  }

  /** `c >> 8` moves each window of eight bits down by eight. */
  lemma Shr8Window(c: Word, k: nat)
    requires k <= 16
    ensures Shr8(c)[k..k + 8] == c[k + 8..k + 16]
  {
    var d := Shr8(c);
    assert d == c[8..] + Zeros(8);
    forall i | k <= i < k + 8
      ensures d[i] == c[i + 8]
    {
      assert d[i] == c[8..][i];
    }
    assert d[k..k + 8] == c[k + 8..k + 16];
  }

  /** The low eight bits and the rest. */
  lemma {:induction false} ValueSplit8(s: seq<bool>)
    requires |s| >= 8
    ensures Value(s) == Value(s[..8]) + 256 * Value(s[8..])
  {
    ValueAppend(s[..8], s[8..]);
    assert s == s[..8] + s[8..];
    Pow2Of8();
  }

  lemma Pow2Of8()
    ensures Pow2(8) == 256
  {
    assert Pow2(4) == 16;
  }

  /** `dualsense_send_output` and `dualsense_send_rumble`, with the
      sequence counter they share and the frames written to the hidraw
      device. The CRC table is the one `dualsense_init` fills. */
  class OutputSender {
    const table: Table
    /** `output_seq`: always below 16. */
    var outputSeq: nat
    /** The frames written so far, oldest first. */
    var written: seq<seq<byte>>

    predicate Valid()
      reads this, table, table.entries
    {
      table.Valid() && outputSeq < 16
    }

    constructor (t: Table)
      requires t.Valid()
      ensures Valid() && table == t && outputSeq == 0 && written == []
    {
      table := t;
      outputSeq := 0;
      written := [];
    }

    /** Builds the report for `c`, advances the counter and writes the
        report if the device is open; with the table filled the report is
        the reference one. */
    method SendOutput(fd: int, c: Command) returns (frame: seq<byte>)
      requires Valid()
      modifies this
      ensures Valid()
      ensures outputSeq == (old(outputSeq) + 1) % 16
      ensures |frame| == OUTPUT_SIZE && frame[..BODY_SIZE] == OutputBody(old(outputSeq), c)
      ensures table.initialized ==> frame == OutputReport(old(outputSeq), c)
      ensures written == old(written) + (if fd >= 0 then [frame] else [])
    {
      var n := outputSeq;
      outputSeq := (outputSeq + 1) % 16;
      var report := NewReport(n, c);
      var body := report[..BODY_SIZE];
      var crc := table.Calc([CRC_SEED] + body);
      WriteTrailer(report, crc);
      frame := report[..];
      assert frame[..BODY_SIZE] == body;
      if fd >= 0 {
        written := written + [frame];
      }
    }

    /** `dualsense_send_rumble`: the motors with the current lightbar. */
    method SendRumble(fd: int, right: byte, left: byte, lightbar: Lightbar) returns (frame: seq<byte>)
      requires Valid()
      modifies this
      ensures Valid()
      ensures outputSeq == (old(outputSeq) + 1) % 16
      ensures table.initialized ==>
        frame == OutputReport(old(outputSeq), CommandOf(right, left, lightbar))
      ensures written == old(written) + (if fd >= 0 then [frame] else [])
    {
      frame := SendOutput(fd, CommandOf(right, left, lightbar));
    }
  }

  /** The zero-filled report array with the header, feature flags, motors
      and lightbar bytes of `dualsense_send_output` written in. */
  method NewReport(n: nat, c: Command) returns (report: array<byte>)
    requires n < 16
    ensures fresh(report) && report.Length == OUTPUT_SIZE
    ensures report[..BODY_SIZE] == OutputBody(n, c)
  {
    report := new byte[OUTPUT_SIZE](_ => 0);
    ghost var b: seq<byte> := seq(BODY_SIZE, _ => 0 as byte);
    assert report[..BODY_SIZE] == b;
    Put(report, 0, OUTPUT_REPORT_ID);
    b := b[0 := OUTPUT_REPORT_ID];
    Put(report, OUT_SEQ_TAG, SeqTag(n));
    b := b[OUT_SEQ_TAG := SeqTag(n)];
    Put(report, OUT_TAG, 0x10);
    b := b[OUT_TAG := 0x10];
    Put(report, OUT_VALID_FLAG0, VALID0_RUMBLE | VALID0_HAPTICS);
    b := b[OUT_VALID_FLAG0 := VALID0_RUMBLE | VALID0_HAPTICS];
    Put(report, OUT_VALID_FLAG1, VALID1_LIGHTBAR | VALID1_PLAYER_LEDS);
    b := b[OUT_VALID_FLAG1 := VALID1_LIGHTBAR | VALID1_PLAYER_LEDS];
    Put(report, OUT_MOTOR_RIGHT, c.right);
    b := b[OUT_MOTOR_RIGHT := c.right];
    Put(report, OUT_MOTOR_LEFT, c.left);
    b := b[OUT_MOTOR_LEFT := c.left];
    Put(report, OUT_VALID_FLAG2, VALID2_LIGHTBAR_SETUP);
    b := b[OUT_VALID_FLAG2 := VALID2_LIGHTBAR_SETUP];
    Put(report, OUT_LIGHTBAR_SETUP, 0x02);
    b := b[OUT_LIGHTBAR_SETUP := 0x02];
    Put(report, OUT_LED_BRIGHTNESS, 0xFF);
    b := b[OUT_LED_BRIGHTNESS := 0xFF];
    Put(report, OUT_PLAYER_LEDS, c.playerLeds);
    b := b[OUT_PLAYER_LEDS := c.playerLeds];
    Put(report, OUT_LIGHTBAR_RED, c.r);
    b := b[OUT_LIGHTBAR_RED := c.r];
    Put(report, OUT_LIGHTBAR_GREEN, c.g);
    b := b[OUT_LIGHTBAR_GREEN := c.g];
    Put(report, OUT_LIGHTBAR_BLUE, c.b);
    b := b[OUT_LIGHTBAR_BLUE := c.b];
  }

  /** One assignment into the body of the report. */
  method Put(report: array<byte>, i: nat, v: byte)
    requires report.Length == OUTPUT_SIZE && i < BODY_SIZE
    modifies report
    ensures report[..BODY_SIZE] == old(report[..BODY_SIZE])[i := v]
  {
    report[i] := v;
  }

  /** Stores the CRC at the end of the report, low byte first. */
  method WriteTrailer(report: array<byte>, crc: Word)
    requires report.Length == OUTPUT_SIZE
    modifies report
    ensures report[..] == old(report[..BODY_SIZE]) + CrcTrailer(crc)
  {
    var trailer := CrcTrailer(crc);
    report[74] := trailer[0];
    report[75] := trailer[1];
    report[76] := trailer[2];
    report[77] := trailer[3];
    assert report[..] == report[..BODY_SIZE] + trailer;
  }

  /** The command for the motors and a lightbar state; the brightness is
      not part of it. */
  function CommandOf(right: byte, left: byte, lightbar: Lightbar): Command
  {
    Command(right, left, lightbar.r, lightbar.g, lightbar.b, lightbar.playerLeds)
  }

  // The output thread (`dualsense_output_thread`).

  /** How many iterations pass between two reads of the lightbar file. */
  const REFRESH_PERIOD: nat := 50

  /** The thread's locals between iterations: what it last sent and the
      iteration counter. */
  datatype ThreadState = ThreadState(lastRight: byte, lastLeft: byte, lastLightbar: Lightbar, updateCount: nat)

  const THREAD_START: ThreadState := ThreadState(0, 0, Lightbar(0, 0, 0, 0, 0), 0)

  /** What one iteration sees: `g_running`, `g_hidraw_fd`, the rumble
      bytes and the lightbar state after any refresh. */
  datatype Sample = Sample(running: bool, fd: int, right: byte, left: byte, lightbar: Lightbar)

  /** What the thread does to the outside: a read of the lightbar file, or
      a report handed to `dualsense_send_output`. */
  datatype Event = Refresh | Send(fd: int, command: Command)

  /** The rumble or a lightbar colour or the player LEDs differ from what
      was last sent; the brightness is not compared. */
  predicate Changed(s: ThreadState, right: byte, left: byte, lightbar: Lightbar)
  {
    right != s.lastRight || left != s.lastLeft ||
    lightbar.r != s.lastLightbar.r || lightbar.g != s.lastLightbar.g ||
    lightbar.b != s.lastLightbar.b || lightbar.playerLeds != s.lastLightbar.playerLeds
  }

  /** One iteration of the loop body: the counter ticks, and a report goes
      out when the device is open and something changed. */
  function Step(s: ThreadState, x: Sample): (r: (ThreadState, seq<Event>))
  {
    (Remember(s, x).(updateCount := NextCount(s.updateCount)),
     RefreshEvents(s.updateCount) + SendEvents(s, x))
  }

  /** `++update_count >= 50` resets the counter. */
  function NextCount(c: nat): nat
  {
    if c + 1 >= REFRESH_PERIOD then 0 else c + 1
  }

  function RefreshEvents(c: nat): seq<Event>
  {
    if c + 1 >= REFRESH_PERIOD then [Refresh] else []
  }

  function Sends(s: ThreadState, x: Sample): bool
  {
    x.fd >= 0 && Changed(s, x.right, x.left, x.lightbar)
  }

  function SendEvents(s: ThreadState, x: Sample): seq<Event>
  {
    if Sends(s, x) then [Send(x.fd, CommandOf(x.right, x.left, x.lightbar))] else []
  }

  /** The last values after an iteration: the ones sent, if any. */
  function Remember(s: ThreadState, x: Sample): ThreadState
  {
    if Sends(s, x) then s.(lastRight := x.right, lastLeft := x.left, lastLightbar := x.lightbar) else s
  }

  /** The events of the thread over successive iterations, until
      `g_running` is seen false. */
  function Run(s: ThreadState, xs: seq<Sample>): seq<Event>
    decreases |xs|
  {
    if xs == [] || !xs[0].running then []
    else Step(s, xs[0]).1 + Run(Step(s, xs[0]).0, xs[1..])
  }

  /** `dualsense_output_thread` over the iterations it gets to run. */
  method OutputThread(xs: seq<Sample>) returns (events: seq<Event>)
    ensures events == Run(THREAD_START, xs)
  {
    var state := THREAD_START;
    events := [];
    var i := 0;
    while i < |xs| && xs[i].running
      invariant 0 <= i <= |xs|
      invariant Run(THREAD_START, xs) == events + Run(state, xs[i..])
    {
      assert xs[i..][1..] == xs[i + 1..];
      var next, out := Iteration(state, xs[i]);
      ConcatAssoc(events, out, Run(next, xs[i + 1..]));
      events := events + out;
      state := next;
      i := i + 1;
    }
    if i < |xs| {
      assert !xs[i..][0].running;
    }
  }

  /** The loop body: the counter, then the change test against the last
      values sent. */
  method Iteration(s: ThreadState, x: Sample) returns (s': ThreadState, events: seq<Event>)
    ensures (s', events) == Step(s, x)
  {
    var lastRight, lastLeft, lastLightbar, updateCount := s.lastRight, s.lastLeft, s.lastLightbar, s.updateCount;
    var refresh: seq<Event> := [];
    updateCount := updateCount + 1;
    if updateCount >= REFRESH_PERIOD {
      updateCount := 0;
      refresh := [Refresh];
    }
    assert refresh == RefreshEvents(s.updateCount);
    var rumbleChanged := x.right != lastRight || x.left != lastLeft;
    var lightbarChanged := x.lightbar.r != lastLightbar.r || x.lightbar.g != lastLightbar.g ||
                           x.lightbar.b != lastLightbar.b || x.lightbar.playerLeds != lastLightbar.playerLeds;
    var send: seq<Event> := [];
    if x.fd >= 0 && (rumbleChanged || lightbarChanged) {
      send := [Send(x.fd, CommandOf(x.right, x.left, x.lightbar))];
      lastRight, lastLeft, lastLightbar := x.right, x.left, x.lightbar;
    }
    assert send == SendEvents(s, x);
    events := refresh + send;
    s' := ThreadState(lastRight, lastLeft, lastLightbar, updateCount);
  }

  lemma ConcatAssoc(a: seq<Event>, b: seq<Event>, c: seq<Event>)
    ensures a + (b + c) == (a + b) + c
  {
  }

  /** The number of lightbar reads among some events. */
  function Refreshes(es: seq<Event>): nat
  {
    if es == [] then 0 else (if es[0].Refresh? then 1 else 0) + Refreshes(es[1..])
  }

  lemma {:induction false} RefreshesAppend(a: seq<Event>, b: seq<Event>)
    ensures Refreshes(a + b) == Refreshes(a) + Refreshes(b)
  {
    if a == [] {
      assert a + b == b;
    } else {
      assert (a + b)[1..] == a[1..] + b;
      RefreshesAppend(a[1..], b);
    }
  }

  /** The lightbar file is read once every fifty iterations: over n
      iterations from a counter at c, (c + n) / 50 times. */
  lemma {:induction false} RefreshCadence(s: ThreadState, xs: seq<Sample>)
    requires s.updateCount < REFRESH_PERIOD
    requires forall i :: 0 <= i < |xs| ==> xs[i].running
    ensures Refreshes(Run(s, xs)) == (s.updateCount + |xs|) / REFRESH_PERIOD
    decreases |xs|
  {
    if xs != [] {
      var (s', es) := Step(s, xs[0]);
      RefreshCadence(s', xs[1..]);
      RefreshesAppend(es, Run(s', xs[1..]));
      if s.updateCount + 1 >= REFRESH_PERIOD {
        assert es == [Refresh] || es == [Refresh, es[1]];
        assert Refreshes(es) == 1;
      } else {
        assert es == [] || es == [es[0]];
        assert Refreshes(es) == 0;
      }
    }
  }

  /** An iteration that sends remembers what it sent, so the same rumble
      and lightbar on the next iteration send nothing. */
  lemma NoRepeatSend(s: ThreadState, x: Sample, y: Sample)
    requires x.fd >= 0 && Changed(s, x.right, x.left, x.lightbar)
    requires y.right == x.right && y.left == x.left
    requires y.lightbar.(brightness := 0) == x.lightbar.(brightness := 0)
    ensures forall e :: e in Step(Step(s, x).0, y).1 ==> e.Refresh?
  {
  }

  /** The brightness never decides whether a report is sent nor what it
      holds. */
  lemma BrightnessIgnored(s: ThreadState, x: Sample, k: byte)
    ensures Step(s, x.(lightbar := x.lightbar.(brightness := k))).1 == Step(s, x).1
  {
  }

  /** While the controller is not open, nothing is sent and nothing is
      forgotten: the first iteration with the device open sends the
      latest state if it differs from what the controller last got. */
  lemma ClosedDeviceKeepsPending(s: ThreadState, x: Sample)
    requires x.fd < 0
    ensures Step(s, x).0 == s.(updateCount := Step(s, x).0.updateCount)
    ensures forall e :: e in Step(s, x).1 ==> e.Refresh?
  {
  }

  /** The first iteration with the controller open sends the startup
      lightbar: blue differs from the all-zero state the thread starts
      from. */
  lemma FirstIterationSendsDefault(fd: int)
    ensures Run(THREAD_START, [Sample(true, fd, 0, 0, DEFAULT_LIGHTBAR)]) ==
      (if fd >= 0 then [Send(fd, Command(0, 0, 0, 0, 255, 0))] else [])
  {
    var xs := [Sample(true, fd, 0, 0, DEFAULT_LIGHTBAR)];
    assert xs[1..] == [];
  }
}

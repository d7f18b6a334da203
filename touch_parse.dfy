/** The event parser: a finished recording session's raw `getevent` lines become a touch
    script of taps and swipes in screen pixels. */
module TouchParse {
  import opened Wrappers
  import opened Text
  import opened Getevent
  import opened Seqs

  /** Squared displacement, in screen pixels, below which a stroke can be a tap. */
  const TAP_DISTANCE_SQUARED: int := 2500
  /** Duration, in milliseconds, below which a stroke can be a tap. */
  const TAP_MILLIS: int := 300

  /** One gesture of a script. `kind` is "tap", "swipe" or "wait" (any other kind is ignored
      on playback); `x2`, `y2` and `duration` are zero for a tap. */
  datatype TouchEvent = TouchEvent(timestamp: int, kind: string, x: int, y: int, x2: int, y2: int, duration: int)

  /** A recorded script. `createdAt` is the session's start time; `name` is empty until saved. */
  datatype TouchScript = TouchScript(deviceId: string, name: string, resolution: string, createdAt: int,
                                     events: seq<TouchEvent>)

  /** What a recording session hands to the parser. */
  datatype Session = Session(deviceId: string, startTime: int, rawEvents: seq<string>, resolution: string,
                             inputDevice: string, maxX: int, maxY: int, minX: int, minY: int)

  // ---------------------------------------------------------------------------
  // Screen geometry and scaling
  // ---------------------------------------------------------------------------

  /** The screen size written as `WxH`; 1080x1920 unless the string splits on `x` into exactly
      two parts, and a part that is not a decimal number counts as 0. */
  function ScreenSize(resolution: string): (int, int)
  {
    var parts := Split(resolution, "x");
    if |parts| == 2 then (AtoiOrZero(parts[0]), AtoiOrZero(parts[1])) else (1080, 1920)
  }

  /** The raw range of one axis: as detected, except that a degenerate range becomes [0, dim]. */
  function EffectiveRange(lo: int, hi: int, dim: int): (r: (int, int))
    ensures lo != hi ==> r == (lo, hi)
    ensures lo == hi ==> r == (0, dim)
  {
    if hi == lo then (0, dim) else (lo, hi)
  }

  /** The screen and the effective raw ranges of both axes. */
  datatype Geometry = Geometry(screenW: int, screenH: int, minX: int, maxX: int, minY: int, maxY: int)

  function SessionGeometry(s: Session): Geometry
  {
    var (w, h) := ScreenSize(s.resolution);
    var (x0, x1) := EffectiveRange(s.minX, s.maxX, w);
    var (y0, y1) := EffectiveRange(s.minY, s.maxY, h);
    Geometry(w, h, x0, x1, y0, y1)
  }

  /** Go's `int(v + 0.5)` for the exact quotient v = num / den: v + 0.5 = (2 num + den) / (2 den),
      truncated toward zero. */
  function RoundHalf(num: int, den: int): int
    requires den > 0
  {
    TruncDiv(2 * num + den, 2 * den)
  }

  /** A raw axis value in screen pixels: linear interpolation from [lo, hi] onto [0, dim] when
      hi > lo, the raw value itself otherwise. */
  function Scale(raw: int, lo: int, hi: int, dim: int): int
  {
    if hi > lo then RoundHalf((raw - lo) * dim, hi - lo) else raw
  }

  /** The low end of the range maps to pixel 0. */
  lemma ScaleMin(lo: int, hi: int, dim: int)
    requires hi > lo
    ensures Scale(lo, lo, hi, dim) == 0
  {
    assert (hi - lo) / (2 * (hi - lo)) == 0;
  }

  /** The high end of the range maps to the last pixel `dim`. */
  lemma ScaleMax(lo: int, hi: int, dim: int)
    requires hi > lo && dim >= 0
    ensures Scale(hi, lo, hi, dim) == dim
  {
    var d := hi - lo;
    assert 2 * (d * dim) + d == dim * (2 * d) + d;
    DivPlus(dim, 2 * d, d);
  }

  /** Division undoes multiplication when the remainder is in range. */
  lemma DivPlus(q: int, d: int, r: int)
    requires d > 0 && 0 <= r < d && q >= 0
    ensures (q * d + r) / d == q
  {
    var n := q * d + r;
    var k := n / d;
    var m := n % d;
    assert k * d + m == n;
    assert (k - q) * d == r - m;
    if k > q {
      MulAtLeast(k - q, d);
    } else if k < q {
      MulAtLeast(q - k, d);
    }
  }

  lemma MulAtLeast(a: int, d: int)
    requires a >= 1 && d > 0
    ensures a * d >= d
  {
  }

  /** Inside the range the result is the nearest pixel, halves rounded up:
      result - 1/2 <= (raw - lo) * dim / (hi - lo) < result + 1/2. */
  lemma ScaleNearest(raw: int, lo: int, hi: int, dim: int)
    requires hi > lo && raw >= lo && dim >= 0
    ensures var s := Scale(raw, lo, hi, dim);
      (2 * s - 1) * (hi - lo) <= 2 * ((raw - lo) * dim) < (2 * s + 1) * (hi - lo)
  {
    var d := hi - lo;
    var n := 2 * ((raw - lo) * dim) + d;
    assert (raw - lo) * dim >= 0;
    var s := n / (2 * d);
    assert s * (2 * d) <= n < (s + 1) * (2 * d);
    assert Scale(raw, lo, hi, dim) == s;
  }

  /** Where the exact value is negative, Go's truncation rounds toward zero rather than down:
      -0.7 pixels becomes 0, where rounding down would give -1. */
  lemma ScaleBelowRange()
    ensures Scale(-7, 0, 10, 1) == 0
  {
  }

  // ---------------------------------------------------------------------------
  // Closing a stroke
  // ---------------------------------------------------------------------------

  /** The event for a stroke from raw (sx, sy) to raw (ex, ey): a tap at the start point when the
      scaled displacement is under 50 px and the stroke is shorter than 300 ms, a swipe otherwise. */
  function StrokeEvent(g: Geometry, sx: int, sy: int, ex: int, ey: int, duration: int, timestamp: int): TouchEvent
  {
    var x := Scale(sx, g.minX, g.maxX, g.screenW);
    var y := Scale(sy, g.minY, g.maxY, g.screenH);
    var x2 := Scale(ex, g.minX, g.maxX, g.screenW);
    var y2 := Scale(ey, g.minY, g.maxY, g.screenH);
    var dx := x2 - x;
    var dy := y2 - y;
    if dx * dx + dy * dy < TAP_DISTANCE_SQUARED && duration < TAP_MILLIS
    then TouchEvent(timestamp, "tap", x, y, 0, 0, 0)
    else TouchEvent(timestamp, "swipe", x, y, x2, y2, duration)
  }

  /** A stroke event is a tap exactly when the scaled displacement and the duration are both under
      their thresholds; a tap carries only the start point, a swipe both points and the duration. */
  lemma StrokeClassification(g: Geometry, sx: int, sy: int, ex: int, ey: int, duration: int, timestamp: int)
    ensures var e := StrokeEvent(g, sx, sy, ex, ey, duration, timestamp);
      var x := Scale(sx, g.minX, g.maxX, g.screenW);
      var y := Scale(sy, g.minY, g.maxY, g.screenH);
      var x2 := Scale(ex, g.minX, g.maxX, g.screenW);
      var y2 := Scale(ey, g.minY, g.maxY, g.screenH);
      && e.timestamp == timestamp && e.x == x && e.y == y
      && (e.kind == "tap" <==> (x2 - x) * (x2 - x) + (y2 - y) * (y2 - y) < 2500 && duration < 300)
      && (e.kind == "tap" ==> e.x2 == 0 && e.y2 == 0 && e.duration == 0)
      && (e.kind != "tap" ==> e.kind == "swipe" && e.x2 == x2 && e.y2 == y2 && e.duration == duration)
  {
  }

  /** The thresholds are strict: 2450 px² in 299 ms is a tap; 2500 or 2501 px², or 300 or 301 ms,
      is a swipe. */
  lemma ClassificationBoundary()
    ensures StrokeEvent(Geometry(0, 0, 0, 0, 0, 0), 0, 0, 49, 7, 299, 0).kind == "tap"
    ensures StrokeEvent(Geometry(0, 0, 0, 0, 0, 0), 0, 0, 50, 0, 299, 0).kind == "swipe"
    ensures StrokeEvent(Geometry(0, 0, 0, 0, 0, 0), 0, 0, 50, 1, 299, 0).kind == "swipe"
    ensures StrokeEvent(Geometry(0, 0, 0, 0, 0, 0), 0, 0, 49, 7, 300, 0).kind == "swipe"
    ensures StrokeEvent(Geometry(0, 0, 0, 0, 0, 0), 0, 0, 49, 7, 301, 0).kind == "swipe"
  {
    assert 49 * 49 + 7 * 7 == 2450;
    assert 50 * 50 + 0 * 0 == 2500;
    assert 50 * 50 + 1 * 1 == 2501;
  }

  /** The parser's variables between lines. `first` has a negative mantissa until the first
      matched line; the stroke start is -1 while unknown. */
  datatype ParseState = ParseState(first: Decimal, currentX: int, currentY: int, touchStartTime: Decimal,
                                   touchStartX: int, touchStartY: int, tracking: bool)

  const Initial: ParseState := ParseState(Decimal(-1, 0), -1, -1, Decimal(-1, 0), -1, -1, false)

  /** A finger-down: a stroke starts now and its start point is not yet known. */
  function TouchDown(st: ParseState, time: Decimal): (r: ParseState)
    ensures r.tracking && r.touchStartTime == time && r.touchStartX == -1 && r.touchStartY == -1
    ensures r.first == st.first && r.currentX == st.currentX && r.currentY == st.currentY
  {
    st.(tracking := false).(tracking := true, touchStartTime := time, touchStartX := -1, touchStartY := -1)
  }

  /** A finger-up while tracking: the stroke ends, an unknown start falls back to the current
      position (and stays so even if the stroke is then dropped), and an event is emitted unless
      an endpoint is still unknown. */
  function CloseStroke(g: Geometry, st: ParseState, time: Decimal, relativeMs: int): (ParseState, Option<TouchEvent>)
  {
    var duration := MillisBetween(st.touchStartTime, time);
    var sx := if st.touchStartX == -1 then st.currentX else st.touchStartX;
    var sy := if st.touchStartY == -1 then st.currentY else st.touchStartY;
    var st' := st.(tracking := false, touchStartX := sx, touchStartY := sy);
    if sx == -1 || sy == -1 || st.currentX == -1 || st.currentY == -1 then (st', None)
    else (st', Some(StrokeEvent(g, sx, sy, st.currentX, st.currentY, duration, relativeMs)))
  }

  /** What closing a stroke does: the stroke ends, the start is the reported one or else the
      current position, and the event, if any, is the stroke event of those points, stamped with
      the closing line's relative time. */
  lemma CloseStrokeSpec(g: Geometry, st: ParseState, time: Decimal, relativeMs: int)
    ensures var (st', e) := CloseStroke(g, st, time, relativeMs);
      && !st'.tracking
      && st'.touchStartX == (if st.touchStartX == -1 then st.currentX else st.touchStartX)
      && st'.touchStartY == (if st.touchStartY == -1 then st.currentY else st.touchStartY)
      && st'.currentX == st.currentX && st'.currentY == st.currentY && st'.first == st.first
      && (e.None? <==> st'.touchStartX == -1 || st'.touchStartY == -1 || st.currentX == -1 || st.currentY == -1)
      && (e.Some? ==> e.value == StrokeEvent(g, st'.touchStartX, st'.touchStartY, st.currentX, st.currentY,
                                            MillisBetween(st.touchStartTime, time), relativeMs))
  {
  }

  // ---------------------------------------------------------------------------
  // One line
  // ---------------------------------------------------------------------------

  /** The event codes the parser interprets. */
  datatype AbsCode = TrackingId | BtnTouch | PositionX | PositionY | OtherCode

  function CodeOf(code: string): (c: AbsCode)
    ensures c == TrackingId <==> code == "ABS_MT_TRACKING_ID"
    ensures c == BtnTouch <==> code == "BTN_TOUCH"
    ensures c == PositionX <==> code == "ABS_MT_POSITION_X"
    ensures c == PositionY <==> code == "ABS_MT_POSITION_Y"
  {
    if code == "ABS_MT_TRACKING_ID" then TrackingId
    else if code == "BTN_TOUCH" then BtnTouch
    else if code == "ABS_MT_POSITION_X" then PositionX
    else if code == "ABS_MT_POSITION_Y" then PositionY
    else OtherCode
  }

  /** One decoded line: the first matched line fixes the time origin; only `EV_ABS` lines whose
      value decodes are interpreted, by code. */
  function Step(g: Geometry, st: ParseState, ev: RawEvent): (ParseState, Option<TouchEvent>)
  {
    var first := if st.first.mantissa < 0 then ev.time else st.first;
    var st0 := st.(first := first);
    var relativeMs := MillisBetween(first, ev.time);
    if ev.category != "EV_ABS" then (st0, None)
    else
      match DecodeValue(ev.value)
      case None => (st0, None)
      case Some(value) =>
        match CodeOf(ev.code)
        case TrackingId =>
          if value != -1 && !st0.tracking then (TouchDown(st0, ev.time), None)
          else if value == -1 && st0.tracking then CloseStroke(g, st0, ev.time, relativeMs)
          else (st0, None)
        case BtnTouch =>
          if value == 1 && !st0.tracking then (TouchDown(st0, ev.time), None)
          else if value == 0 && st0.tracking then CloseStroke(g, st0, ev.time, relativeMs)
          else (st0, None)
        case PositionX =>
          (st0.(currentX := value, touchStartX := if st0.tracking && st0.touchStartX == -1 then value else st0.touchStartX), None)
        case PositionY =>
          (st0.(currentY := value, touchStartY := if st0.tracking && st0.touchStartY == -1 then value else st0.touchStartY), None)
        case OtherCode => (st0, None)
  }

  /** One raw line: lines the pattern does not match change nothing. */
  function LineStep(g: Geometry, st: ParseState, line: string): (ParseState, Option<TouchEvent>)
  {
    match DecodeLine(line)
    case None => (st, None)
    case Some(ev) => Step(g, st, ev)
  }

  /** One raw line decoded with the source's own pattern. */
  function LineStepAsWritten(g: Geometry, st: ParseState, line: string): (ParseState, Option<TouchEvent>)
  {
    match DecodeLineAsWritten(line)
    case None => (st, None)
    case Some(ev) => Step(g, st, ev)
  }

  /** What the finding on the value pattern costs the parser: on an `EV_ABS` line ending in
      `DOWN`, the source's pattern hands on `D`, so a position line sets the coordinate to 13
      where the value keyword means 1, and a `BTN_TOUCH DOWN` line no longer starts a stroke. */
  lemma DownValueAsWritten(g: Geometry, st: ParseState, pad: string, f: LineFields, gap1: string, gap2: string)
    requires WellFormedFields(f) && GoodGaps(pad, gap1, gap2) && f.category == "EV_ABS" && f.value == "DOWN"
    ensures var line := FormatLine(pad, f, gap1, gap2);
      f.code == "ABS_MT_POSITION_X" ==>
        LineStep(g, st, line).0.currentX == 1 && LineStepAsWritten(g, st, line).0.currentX == 13
    ensures var line := FormatLine(pad, f, gap1, gap2);
      f.code == "BTN_TOUCH" && !st.tracking ==>
        LineStep(g, st, line).0.tracking && !LineStepAsWritten(g, st, line).0.tracking
  {
    var line := FormatLine(pad, f, gap1, gap2);
    DownLineReadAsD(pad, f, gap1, gap2);
    var ev := RawEvent(ParseSeconds(f.timestamp), f.category, f.code, f.value);
    assert DecodeLine(line) == Some(ev);
    assert DecodeLineAsWritten(line) == Some(ev.(value := "D"));
    StepOnValue(g, st, ev, 1);
    StepOnValue(g, st, ev.(value := "D"), 13);
  }

  /** An `EV_ABS` event whose value decodes to `v`: a position line takes `v` as its coordinate,
      and a touch line starts a stroke exactly when `v` is 1. */
  lemma StepOnValue(g: Geometry, st: ParseState, ev: RawEvent, v: int)
    requires ev.category == "EV_ABS" && DecodeValue(ev.value) == Some(v) && v != 0
    ensures ev.code == "ABS_MT_POSITION_X" ==> Step(g, st, ev).0.currentX == v
    ensures ev.code == "BTN_TOUCH" && !st.tracking ==> (Step(g, st, ev).0.tracking <==> v == 1)
  {
  }

  function Emitted(e: Option<TouchEvent>): seq<TouchEvent>
  {
    match e case None => [] case Some(t) => [t]
  }

  /** The parser's state and the events emitted after the given lines, in order. */
  function Run(g: Geometry, lines: seq<string>): (ParseState, seq<TouchEvent>)
  {
    if lines == [] then (Initial, [])
    else
      var (st, events) := Run(g, lines[..|lines| - 1]);
      var (st', e) := LineStep(g, st, lines[|lines| - 1]);
      (st', events + Emitted(e))
  }

  lemma RunSnoc(g: Geometry, lines: seq<string>, line: string)
    ensures Run(g, lines + [line])
         == (LineStep(g, Run(g, lines).0, line).0, Run(g, lines).1 + Emitted(LineStep(g, Run(g, lines).0, line).1))
  {
    assert (lines + [line])[..|lines + [line]| - 1] == lines;
  }

  /** The parser run over already-decoded lines. */
  function StepAll(g: Geometry, evs: seq<RawEvent>): (ParseState, seq<TouchEvent>)
  {
    if evs == [] then (Initial, [])
    else
      var (st, events) := StepAll(g, evs[..|evs| - 1]);
      var (st', e) := Step(g, st, evs[|evs| - 1]);
      (st', events + Emitted(e))
  }

  lemma StepAllSnoc(g: Geometry, evs: seq<RawEvent>, ev: RawEvent)
    ensures StepAll(g, evs + [ev])
         == (Step(g, StepAll(g, evs).0, ev).0, StepAll(g, evs).1 + Emitted(Step(g, StepAll(g, evs).0, ev).1))
  {
    assert (evs + [ev])[..|evs + [ev]| - 1] == evs;
  }

  /** Lines that decode to the given events parse as those events do. */
  lemma {:induction false} RunDecoded(g: Geometry, lines: seq<string>, evs: seq<RawEvent>)
    requires |lines| == |evs|
    requires forall k :: 0 <= k < |lines| ==> DecodeLine(lines[k]) == Some(evs[k])
    ensures Run(g, lines) == StepAll(g, evs)
  {
    if lines != [] {
      RunDecoded(g, lines[..|lines| - 1], evs[..|evs| - 1]);
    }
  }

  /** A full-range drawing of 1000 raw units onto a 500 px square screen. */
  const HalfScale: Geometry := Geometry(500, 500, 0, 1000, 0, 1000)

  function AbsEvent(time: Decimal, code: string, value: string): RawEvent
  {
    RawEvent(time, "EV_ABS", code, value)
  }

  lemma MillisExamples()
    ensures MillisBetween(Decimal(1000, 3), Decimal(1050, 3)) == 50
    ensures MillisBetween(Decimal(1000, 3), Decimal(1500, 3)) == 500
  {
    assert Pow10(1) == 10 && Pow10(2) == 100 && Pow10(3) == 1000;
    assert Pow10(4) == 10000 && Pow10(5) == 100000 && Pow10(6) == 1000000;
  }

  lemma ScaleExamples()
    ensures Scale(100, 0, 1000, 500) == 50 && Scale(0, 0, 1000, 500) == 0 && Scale(1000, 0, 1000, 500) == 500
  {
    assert 101000 / 2000 == 50;
    assert 1000 / 2000 == 0;
    assert 1001000 / 2000 == 500;
  }

  /** A finger put down and placed at raw (X, Y) by position reports at the same instant: a stroke
      is open, starting at (X, Y), and nothing is emitted yet. */
  lemma PutDown(g: Geometry, t0: Decimal, id: string, hx: string, hy: string, rawX: int, rawY: int)
    requires t0.mantissa >= 0
    requires DecodeValue(id).Some? && DecodeValue(id).value != -1
    requires DecodeValue(hx) == Some(rawX) && DecodeValue(hy) == Some(rawY)
    ensures StepAll(g, [AbsEvent(t0, "ABS_MT_TRACKING_ID", id), AbsEvent(t0, "ABS_MT_POSITION_X", hx),
                        AbsEvent(t0, "ABS_MT_POSITION_Y", hy)])
         == (ParseState(t0, rawX, rawY, t0, rawX, rawY, true), [])
  {
    var down := AbsEvent(t0, "ABS_MT_TRACKING_ID", id);
    var x := AbsEvent(t0, "ABS_MT_POSITION_X", hx);
    var y := AbsEvent(t0, "ABS_MT_POSITION_Y", hy);
    var s1 := ParseState(t0, -1, -1, t0, -1, -1, true);
    var s2 := s1.(currentX := rawX, touchStartX := rawX);
    assert Step(g, Initial, down) == (s1, None);
    assert Step(g, s1, x) == (s2, None);
    assert Step(g, s2, y) == (ParseState(t0, rawX, rawY, t0, rawX, rawY, true), None);
    Snoc4(down, x, y, y);
    StepAllSnoc(g, [], down);
    assert StepAll(g, []) == (Initial, []);
    assert StepAll(g, []).1 + Emitted(Step(g, Initial, down).1) == [];
    assert StepAll(g, [down]) == (s1, []);
    StepAllSnoc(g, [down], x);
    assert StepAll(g, [down, x]) == (s2, []);
    StepAllSnoc(g, [down, x], y);
  }

  /** A finger put down at rest at raw (X, Y) and lifted at t1: one event, the stroke from (X, Y)
      to itself, stamped with the lift. */
  lemma StillStroke(g: Geometry, t0: Decimal, t1: Decimal, id: string, hx: string, hy: string, rawX: int, rawY: int)
    requires t0.mantissa >= 0
    requires DecodeValue(id).Some? && DecodeValue(id).value != -1
    requires DecodeValue(hx) == Some(rawX) && DecodeValue(hy) == Some(rawY) && rawX != -1 && rawY != -1
    ensures StepAll(g, [AbsEvent(t0, "ABS_MT_TRACKING_ID", id), AbsEvent(t0, "ABS_MT_POSITION_X", hx),
                        AbsEvent(t0, "ABS_MT_POSITION_Y", hy), AbsEvent(t1, "ABS_MT_TRACKING_ID", "ffffffff")]).1
         == [StrokeEvent(g, rawX, rawY, rawX, rawY, MillisBetween(t0, t1), MillisBetween(t0, t1))]
  {
    DecodeHexValue("ffffffff");
    var down := AbsEvent(t0, "ABS_MT_TRACKING_ID", id);
    var x := AbsEvent(t0, "ABS_MT_POSITION_X", hx);
    var y := AbsEvent(t0, "ABS_MT_POSITION_Y", hy);
    var up := AbsEvent(t1, "ABS_MT_TRACKING_ID", "ffffffff");
    var s3 := ParseState(t0, rawX, rawY, t0, rawX, rawY, true);
    PutDown(g, t0, id, hx, hy, rawX, rawY);
    assert Step(g, s3, up) == CloseStroke(g, s3, t1, MillisBetween(t0, t1));
    StepAllSnoc(g, [down, x, y], up);
    Snoc4(down, x, y, up);
  }

  /** Touch-down, position (100, 100) and touch-up 50 ms later on [0, 1000] ranges and a 500x500
      screen: one tap at (50, 50), stamped with the touch-up's 50 ms after the first line. */
  lemma TapExample()
    ensures StepAll(HalfScale, [AbsEvent(Decimal(1000, 3), "ABS_MT_TRACKING_ID", "1"),
                                AbsEvent(Decimal(1000, 3), "ABS_MT_POSITION_X", "64"),
                                AbsEvent(Decimal(1000, 3), "ABS_MT_POSITION_Y", "64"),
                                AbsEvent(Decimal(1050, 3), "ABS_MT_TRACKING_ID", "ffffffff")]).1
         == [TouchEvent(50, "tap", 50, 50, 0, 0, 0)]
  {
    assert "64"[..1] == "6" && "6"[..0] == [] && "1"[..0] == [];
    DecodeHexValue("64");
    DecodeHexValue("1");
    StillStroke(HalfScale, Decimal(1000, 3), Decimal(1050, 3), "1", "64", "64", 100, 100);
    MillisExamples();
    ScaleExamples();
  }

  /** A finger put down at raw (p, p) at t0, moved to (q, q) and lifted at t1: one event, the
      stroke between the two points, stamped with the lift. */
  lemma MovedStroke(g: Geometry, t0: Decimal, t1: Decimal, id: string, hs: string, he: string, p: int, q: int)
    requires t0.mantissa >= 0
    requires DecodeValue(id).Some? && DecodeValue(id).value != -1
    requires DecodeValue(hs) == Some(p) && DecodeValue(he) == Some(q) && p != -1 && q != -1
    ensures StepAll(g, [AbsEvent(t0, "ABS_MT_TRACKING_ID", id), AbsEvent(t0, "ABS_MT_POSITION_X", hs),
                        AbsEvent(t0, "ABS_MT_POSITION_Y", hs), AbsEvent(t1, "ABS_MT_POSITION_X", he),
                        AbsEvent(t1, "ABS_MT_POSITION_Y", he), AbsEvent(t1, "ABS_MT_TRACKING_ID", "ffffffff")]).1
         == [StrokeEvent(g, p, p, q, q, MillisBetween(t0, t1), MillisBetween(t0, t1))]
  {
    DecodeHexValue("ffffffff");
    var down := AbsEvent(t0, "ABS_MT_TRACKING_ID", id);
    var x0 := AbsEvent(t0, "ABS_MT_POSITION_X", hs);
    var y0 := AbsEvent(t0, "ABS_MT_POSITION_Y", hs);
    var x1 := AbsEvent(t1, "ABS_MT_POSITION_X", he);
    var y1 := AbsEvent(t1, "ABS_MT_POSITION_Y", he);
    var up := AbsEvent(t1, "ABS_MT_TRACKING_ID", "ffffffff");
    var s3 := ParseState(t0, p, p, t0, p, p, true);
    var s5 := s3.(currentX := q, currentY := q);
    PutDown(g, t0, id, hs, hs, p, p);
    MoveTo(g, t0, t1, he, p, q);
    assert Step(g, s5, up) == CloseStroke(g, s5, t1, MillisBetween(t0, t1));
    StepAllSnoc(g, [down, x0, y0], x1);
    StepAllSnoc(g, [down, x0, y0, x1], y1);
    StepAllSnoc(g, [down, x0, y0, x1, y1], up);
    Snoc4(down, x0, y0, x1);
    Snoc6(down, x0, y0, x1, y1, up);
  }

  /** A held finger at raw (p, p) reported at (q, q): both axes follow, nothing is emitted. */
  lemma MoveTo(g: Geometry, t0: Decimal, t1: Decimal, he: string, p: int, q: int)
    requires t0.mantissa >= 0 && DecodeValue(he) == Some(q) && p != -1
    ensures var s3 := ParseState(t0, p, p, t0, p, p, true);
      && Step(g, s3, AbsEvent(t1, "ABS_MT_POSITION_X", he)) == (s3.(currentX := q), None)
      && Step(g, s3.(currentX := q), AbsEvent(t1, "ABS_MT_POSITION_Y", he)) == (s3.(currentX := q, currentY := q), None)
  {
  }

  /** Touch-down at raw (0, 0), a move to (1000, 1000) and touch-up 500 ms later on the same ranges
      and screen: one swipe from (0, 0) to (500, 500) lasting 500 ms. */
  lemma SwipeExample()
    ensures StepAll(HalfScale, [AbsEvent(Decimal(1000, 3), "ABS_MT_TRACKING_ID", "1"),
                                AbsEvent(Decimal(1000, 3), "ABS_MT_POSITION_X", "0"),
                                AbsEvent(Decimal(1000, 3), "ABS_MT_POSITION_Y", "0"),
                                AbsEvent(Decimal(1500, 3), "ABS_MT_POSITION_X", "3e8"),
                                AbsEvent(Decimal(1500, 3), "ABS_MT_POSITION_Y", "3e8"),
                                AbsEvent(Decimal(1500, 3), "ABS_MT_TRACKING_ID", "ffffffff")]).1
         == [TouchEvent(500, "swipe", 0, 0, 500, 500, 500)]
  {
    assert "3e8"[..2] == "3e" && "3e"[..1] == "3" && "3"[..0] == [] && "0"[..0] == [] && "1"[..0] == [];
    DecodeHexValue("0");
    DecodeHexValue("1");
    DecodeHexValue("3e8");
    MovedStroke(HalfScale, Decimal(1000, 3), Decimal(1500, 3), "1", "0", "3e8", 0, 1000);
    MillisExamples();
    ScaleExamples();
  }

  /** A resolution without an `x`, the empty one included, gives the 1080x1920 default. */
  lemma ScreenSizeWithoutX(resolution: string)
    requires forall i :: 0 <= i < |resolution| ==> resolution[i] != 'x'
    ensures ScreenSize(resolution) == (1080, 1920)
  {
    IndexOfAbsentChar(resolution, 'x');
    assert Split(resolution, "x") == [resolution];
  }

  /** A resolution written as `WxH` gives that screen size. */
  lemma ScreenSizeOfFormatted(w: nat, h: nat)
    ensures ScreenSize(NatToString(w) + "x" + NatToString(h)) == (w, h)
  {
    var a, b := NatToString(w), NatToString(h);
    assert forall i :: 0 <= i < |a| ==> a[i] != 'x' by { assert AllDigits(a); }
    assert forall i :: 0 <= i < |b| ==> b[i] != 'x' by { assert AllDigits(b); }
    SplitTwo(a, 'x', b);
    assert a + "x" + b == a + ['x'] + b;
    AtoiIntToString(w);
    AtoiIntToString(h);
  }

  /** The script a session parses to. */
  function ParseScript(s: Session): TouchScript
  {
    var script := TouchScript(s.deviceId, "", s.resolution, s.startTime, []);
    if s.rawEvents == [] then script
    else script.(events := Run(SessionGeometry(s), s.rawEvents).1)
  }

  // ---------------------------------------------------------------------------
  // The parser loop
  // ---------------------------------------------------------------------------

  /** The body of the parser loop for one matched line: the switch on the event code, updating
      the parser's variables, with the event (if any) it appends. */
  method ApplyEvent(g: Geometry, st: ParseState, ev: RawEvent) returns (st': ParseState, emitted: Option<TouchEvent>)
    ensures (st', emitted) == Step(g, st, ev)
  {
    var first, currentX, currentY := st.first, st.currentX, st.currentY;
    var touchStartTime, touchStartX, touchStartY, tracking := st.touchStartTime, st.touchStartX, st.touchStartY, st.tracking;
    emitted := None;
    if first.mantissa < 0 {
      first := ev.time;
    }
    var relativeMs := MillisBetween(first, ev.time);
    var value := DecodeValue(ev.value);
    if ev.category == "EV_ABS" && value.Some? {
      var v := value.value;
      match CodeOf(ev.code)
      case TrackingId =>
        if v != -1 && !tracking {
          tracking, touchStartTime := true, ev.time;
          touchStartX, touchStartY := -1, -1;
        } else if v == -1 && tracking {
          var closed := CloseStroke(g, st.(first := first), ev.time, relativeMs);
          tracking, touchStartX, touchStartY := false, closed.0.touchStartX, closed.0.touchStartY;
          emitted := closed.1;
        }
      case BtnTouch =>
        if v == 1 && !tracking {
          tracking, touchStartTime := true, ev.time;
          touchStartX, touchStartY := -1, -1;
        } else if v == 0 && tracking {
          var closed := CloseStroke(g, st.(first := first), ev.time, relativeMs);
          tracking, touchStartX, touchStartY := false, closed.0.touchStartX, closed.0.touchStartY;
          emitted := closed.1;
        }
      case PositionX =>
        currentX := v;
        if tracking && touchStartX == -1 {
          touchStartX := currentX;
        }
      case PositionY =>
        currentY := v;
        if tracking && touchStartY == -1 {
          touchStartY := currentY;
        }
      case OtherCode =>
    }
    st' := ParseState(first, currentX, currentY, touchStartTime, touchStartX, touchStartY, tracking);
  }

  /** parseRawEvents: the loop over the session's lines, skipping those the pattern does not match. */
  method ParseRawEvents(s: Session) returns (script: TouchScript)
    ensures script == ParseScript(s)
  {
    script := TouchScript(s.deviceId, "", s.resolution, s.startTime, []);
    if |s.rawEvents| == 0 {
      return;
    }
    var g := SessionGeometry(s);
    var st := Initial;
    var events: seq<TouchEvent> := [];
    var i := 0;
    while i < |s.rawEvents|
      invariant 0 <= i <= |s.rawEvents|
      invariant (st, events) == Run(g, s.rawEvents[..i])
    {
      var line := s.rawEvents[i];
      ghost var st0, events0 := st, events;
      var decoded := DecodeLine(line);
      if decoded.Some? {
        var emitted;
        st, emitted := ApplyEvent(g, st, decoded.value);
        events := events + Emitted(emitted);
      }
      assert st == LineStep(g, st0, line).0;
      assert events == events0 + Emitted(LineStep(g, st0, line).1);
      RunSnoc(g, s.rawEvents[..i], line);
      TakeSnoc(s.rawEvents, i);
      i := i + 1;
    }
    assert s.rawEvents[..i] == s.rawEvents;
    script := script.(events := events);
  }

  // ---------------------------------------------------------------------------
  // Properties
  // ---------------------------------------------------------------------------

  /** The two touch-up triggers, a tracking id of -1 and BTN_TOUCH 0, close a stroke identically,
      and the two touch-down triggers open one identically. */
  lemma TriggersAgree(g: Geometry, st: ParseState, time: Decimal, id: string)
    requires DecodeValue(id).Some? && DecodeValue(id).value != -1
    ensures Step(g, st, RawEvent(time, "EV_ABS", "ABS_MT_TRACKING_ID", "ffffffff"))
         == Step(g, st, RawEvent(time, "EV_ABS", "BTN_TOUCH", "UP"))
    ensures Step(g, st, RawEvent(time, "EV_ABS", "ABS_MT_TRACKING_ID", "ffffffff"))
         == Step(g, st, RawEvent(time, "EV_ABS", "BTN_TOUCH", "00000000"))
    ensures Step(g, st, RawEvent(time, "EV_ABS", "ABS_MT_TRACKING_ID", id))
         == Step(g, st, RawEvent(time, "EV_ABS", "BTN_TOUCH", "DOWN"))
    ensures Step(g, st, RawEvent(time, "EV_ABS", "ABS_MT_TRACKING_ID", id))
         == Step(g, st, RawEvent(time, "EV_ABS", "BTN_TOUCH", "00000001"))
  {
    DecodeHexValue("ffffffff");
    assert DecodeValue("00000000") == DecodeValue("UP");
    assert DecodeValue("00000001") == DecodeValue("DOWN");
  }

  /** An event is emitted only by a line on which a stroke ends. */
  lemma StepEmitsOnClose(g: Geometry, st: ParseState, ev: RawEvent)
    ensures Step(g, st, ev).1.Some? ==> st.tracking && !Step(g, st, ev).0.tracking
  {
  }

  /** The number of lines on which a stroke ends. */
  function Closes(g: Geometry, lines: seq<string>): nat
  {
    if lines == [] then 0
    else
      var st := Run(g, lines[..|lines| - 1]).0;
      var st' := LineStep(g, st, lines[|lines| - 1]).0;
      Closes(g, lines[..|lines| - 1]) + if st.tracking && !st'.tracking then 1 else 0
  }

  /** At most one event per finger-up, hence at most one per line. */
  lemma {:induction false} AtMostOneEventPerStroke(g: Geometry, lines: seq<string>)
    ensures |Run(g, lines).1| <= Closes(g, lines) <= |lines|
  {
    if lines != [] {
      var init := lines[..|lines| - 1];
      AtMostOneEventPerStroke(g, init);
      var st := Run(g, init).0;
      match DecodeLine(lines[|lines| - 1])
      case None =>
      case Some(ev) => StepEmitsOnClose(g, st, ev);
    }
  }

  /** Events appear in line order: the events after more lines extend the earlier ones. */
  lemma {:induction false} EventsExtend(g: Geometry, lines: seq<string>, more: seq<string>)
    ensures Run(g, lines).1 <= Run(g, lines + more).1
    decreases |more|
  {
    if more == [] {
      assert lines + more == lines;
    } else {
      var shorter := more[..|more| - 1];
      EventsExtend(g, lines, shorter);
      var last := more[|more| - 1];
      RunSnoc(g, lines + shorter, last);
      SnocOfSplit(lines, more);
      var a, b := Run(g, lines).1, Run(g, lines + shorter).1;
      var c := Emitted(LineStep(g, Run(g, lines + shorter).0, last).1);
      assert Run(g, lines + more).1 == b + c;
      assert a <= b;
      assert a <= b + c by {
        assert forall k :: 0 <= k < |a| ==> (b + c)[k] == b[k];
      }
    }
  }

  /** An empty recording gives an empty script carrying the session's device and resolution. */
  lemma EmptySession(s: Session)
    requires s.rawEvents == []
    ensures ParseScript(s).events == [] && ParseScript(s).deviceId == s.deviceId
    ensures ParseScript(s).resolution == s.resolution && ParseScript(s).name == ""
  {
  }

  /** Every script keeps the session's device and resolution, and has no more events than lines. */
  lemma ScriptShape(s: Session)
    ensures ParseScript(s).deviceId == s.deviceId && ParseScript(s).resolution == s.resolution
    ensures |ParseScript(s).events| <= |s.rawEvents|
  {
    AtMostOneEventPerStroke(SessionGeometry(s), s.rawEvents);
  }
}

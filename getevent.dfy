/** One line of `getevent -lt` output, decoded the way the parser's regular expression
    `\[\s*([\d.]+)\].*?(EV_\w+)\s+(\w+)\s+([0-9a-fA-F]+|DOWN|UP)` reads it (Go's leftmost-first
    semantics), and the decoding of its timestamp and value fields. */
module Getevent {
  import opened Wrappers
  import opened Text

  /** The four capture groups: timestamp, event category, event code, event value. */
  datatype LineFields = LineFields(timestamp: string, category: string, code: string, value: string)

  /** Which order the value alternatives are tried in. `AsWritten` is the source's
      `[0-9a-fA-F]+|DOWN|UP`; `KeywordsFirst` is `DOWN|UP|[0-9a-fA-F]+`. */
  datatype ValueRule = AsWritten | KeywordsFirst

  /** The character classes of the pattern: `\w`, `\s`, `[0-9a-fA-F]` and `[\d.]`. */
  datatype CharClass = Word | Gap | Hex | Seconds

  predicate InClass(k: CharClass, c: char)
  {
    match k
    case Word => IsWord(c)
    case Gap => IsRegexSpace(c)
    case Hex => IsHexDigit(c)
    case Seconds => IsDigit(c) || c == '.'
  }

  predicate AllIn(k: CharClass, s: string) { forall i :: 0 <= i < |s| ==> InClass(k, s[i]) }

  /** Where the greedy run of class `k` that starts at `i` ends. */
  function RunEnd(k: CharClass, s: string, i: nat): (e: nat)
    requires i <= |s|
    ensures i <= e <= |s|
    decreases |s| - i
  {
    if i < |s| && InClass(k, s[i]) then RunEnd(k, s, i + 1) else i
  }

  /** A run is exactly the stretch of class characters up to the first one outside the class. */
  lemma RunEndIs(k: CharClass, s: string, i: nat, e: nat)
    requires i <= e <= |s|
    requires forall j :: i <= j < e ==> InClass(k, s[j])
    requires e < |s| ==> !InClass(k, s[e])
    ensures RunEnd(k, s, i) == e
    decreases e - i
  {
    if i < e {
      RunEndIs(k, s, i + 1, e);
    }
  }

  /** The value group matched at position `v`. A greedy `+` followed by nothing takes the
      longest run, and the alternatives are tried in order. */
  function CaptureValue(line: string, v: nat, rule: ValueRule): (r: Option<string>)
    requires v <= |line|
    ensures r.Some? <==> RunEnd(Hex, line, v) > v || IsAt(line, "DOWN", v) || IsAt(line, "UP", v)
    ensures r.Some? ==> r.value != []
  {
    var h := RunEnd(Hex, line, v);
    match rule
    case AsWritten =>
      if h > v then Some(line[v..h])
      else if IsAt(line, "DOWN", v) then Some("DOWN")
      else if IsAt(line, "UP", v) then Some("UP")
      else None
    case KeywordsFirst =>
      if IsAt(line, "DOWN", v) then Some("DOWN")
      else if IsAt(line, "UP", v) then Some("UP")
      else if h > v then Some(line[v..h])
      else None
  }

  /** Category, code and value groups, for the tail of the pattern starting exactly at `q`.
      Each `\w+` and `\s+` is followed by a character class it does not overlap, so the
      greedy runs are maximal and no backtracking changes the outcome. */
  function TailAt(line: string, q: nat, rule: ValueRule): Option<(string, string, string)>
    requires q <= |line|
  {
    if !IsAt(line, "EV_", q) then None
    else
      var e := RunEnd(Word, line, q + 3);
      var s1 := RunEnd(Gap, line, e);
      var c := RunEnd(Word, line, s1);
      var s2 := RunEnd(Gap, line, c);
      if e == q + 3 || s1 == e || c == s1 || s2 == c then None
      else
        match CaptureValue(line, s2, rule)
        case None => None
        case Some(v) => Some((line[q..e], line[s1..c], v))
  }

  /** The lazy `.*?`: the first position at or after `q`, not past a newline, where the tail matches. */
  function TailFrom(line: string, q: nat, rule: ValueRule): Option<(string, string, string)>
    requires q <= |line|
    decreases |line| - q
  {
    match TailAt(line, q, rule)
    case Some(t) => Some(t)
    case None => if q < |line| && line[q] != '\n' then TailFrom(line, q + 1, rule) else None
  }

  /** The whole pattern, anchored at position `p`. */
  function MatchAt(line: string, p: nat, rule: ValueRule): Option<LineFields>
    requires p <= |line|
  {
    if p < |line| && line[p] == '[' then
      var a := RunEnd(Gap, line, p + 1);
      var b := RunEnd(Seconds, line, a);
      if b > a && b < |line| && line[b] == ']' then
        match TailFrom(line, b + 1, rule)
        case None => None
        case Some(t) => Some(LineFields(line[a..b], t.0, t.1, t.2))
      else None
    else None
  }

  /** The leftmost match starting at or after `p`. */
  function MatchFrom(line: string, p: nat, rule: ValueRule): Option<LineFields>
    requires p <= |line|
    decreases |line| - p
  {
    match MatchAt(line, p, rule)
    case Some(f) => Some(f)
    case None => if p < |line| then MatchFrom(line, p + 1, rule) else None
  }

  /** `re.FindStringSubmatch(line)` with the source's value alternation. */
  function MatchLineAsWritten(line: string): Option<LineFields>
  {
    MatchFrom(line, 0, AsWritten)
  }

  /** The line pattern with `DOWN` and `UP` tried before the hex alternative. */
  function MatchLine(line: string): Option<LineFields>
  {
    MatchFrom(line, 0, KeywordsFirst)
  }

  // ---------------------------------------------------------------------------
  // The as-written alternation swallows the D of DOWN
  // ---------------------------------------------------------------------------

  /** The two alternations agree except that, where the intended reading is `DOWN`,
      the source's reading is `D`. */
  function AsWrittenValue(v: string): string
  {
    if v == "DOWN" then "D" else v
  }

  lemma CaptureValueRules(line: string, v: nat)
    requires v <= |line|
    ensures CaptureValue(line, v, AsWritten).Some? == CaptureValue(line, v, KeywordsFirst).Some?
    ensures CaptureValue(line, v, KeywordsFirst).Some? ==>
      CaptureValue(line, v, AsWritten).value == AsWrittenValue(CaptureValue(line, v, KeywordsFirst).value)
  {
    var h := RunEnd(Hex, line, v);
    if IsAt(line, "DOWN", v) {
      assert line[v] == 'D';
      assert line[v + 1] == 'O';
      assert RunEnd(Hex, line, v + 1) == v + 1;
    } else if IsAt(line, "UP", v) {
      assert line[v] == 'U';
    } else if h > v {
      assert line[v..h] != "DOWN";
    }
  }

  function AsWrittenFields(f: LineFields): LineFields
  {
    f.(value := AsWrittenValue(f.value))
  }

  lemma TailFromRules(line: string, q: nat)
    requires q <= |line|
    ensures TailFrom(line, q, AsWritten).Some? == TailFrom(line, q, KeywordsFirst).Some?
    ensures TailFrom(line, q, KeywordsFirst).Some? ==>
      var t := TailFrom(line, q, KeywordsFirst).value;
      TailFrom(line, q, AsWritten).value == (t.0, t.1, AsWrittenValue(t.2))
    decreases |line| - q
  {
    if IsAt(line, "EV_", q) {
      var e := RunEnd(Word, line, q + 3);
      var s1 := RunEnd(Gap, line, e);
      var c := RunEnd(Word, line, s1);
      var s2 := RunEnd(Gap, line, c);
      CaptureValueRules(line, s2);
    }
    if q < |line| && line[q] != '\n' {
      TailFromRules(line, q + 1);
    }
  }

  lemma {:induction false} MatchFromRules(line: string, p: nat)
    requires p <= |line|
    ensures MatchFrom(line, p, AsWritten) ==
      match MatchFrom(line, p, KeywordsFirst) case None => None case Some(f) => Some(AsWrittenFields(f))
    decreases |line| - p
  {
    if p < |line| && line[p] == '[' {
      var a := RunEnd(Gap, line, p + 1);
      var b := RunEnd(Seconds, line, a);
      if b > a && b < |line| && line[b] == ']' {
        TailFromRules(line, b + 1);
      }
    }
    if p < |line| {
      MatchFromRules(line, p + 1);
    }
  }

  /** The finding: on every line, the source's pattern reads exactly what the intended
      pattern reads, except that a `DOWN` value comes out as `D`. */
  lemma AsWrittenReadsDownAsD(line: string)
    ensures MatchLineAsWritten(line) ==
      match MatchLine(line) case None => None case Some(f) => Some(AsWrittenFields(f))
  {
    MatchFromRules(line, 0);
  }

  // ---------------------------------------------------------------------------
  // Formatting a line and reading it back
  // ---------------------------------------------------------------------------

  /** A line as `getevent -lt` prints it: `[<pad><seconds>] <category><gap><code><gap><value>`. */
  function FormatLine(pad: string, f: LineFields, gap1: string, gap2: string): string
  {
    "[" + pad + f.timestamp + "] " + f.category + gap1 + f.code + gap2 + f.value
  }

  /** The fields a well-formed line can carry. */
  predicate WellFormedFields(f: LineFields) {
    && f.timestamp != [] && AllIn(Seconds, f.timestamp)
    && |f.category| > 3 && f.category[..3] == "EV_" && AllIn(Word, f.category)
    && f.code != [] && AllIn(Word, f.code)
    && (f.value == "DOWN" || f.value == "UP" || (f.value != [] && AllIn(Hex, f.value)))
  }

  /** The separators a formatted line may use: any `\s` run before the timestamp,
      non-empty `\s` runs between the last three fields. */
  predicate GoodGaps(pad: string, gap1: string, gap2: string) {
    AllIn(Gap, pad) && gap1 != [] && AllIn(Gap, gap1) && gap2 != [] && AllIn(Gap, gap2)
  }

  /** `piece` occurs in `line` at position `a`, stated character by character. */
  predicate Placed(piece: string, line: string, a: nat)
  {
    a + |piece| <= |line| && forall i :: 0 <= i < |piece| ==> line[a + i] == piece[i]
  }

  /** A run of class `k` copied into the line, followed by a character outside the class,
      is where the run from any point inside it stops. */
  lemma RunOver(k: CharClass, line: string, j: nat, a: nat, piece: string, next: string)
    requires Placed(piece, line, a) && Placed(next, line, a + |piece|)
    requires a <= j <= a + |piece| && AllIn(k, piece)
    requires next != [] && !InClass(k, next[0])
    ensures RunEnd(k, line, j) == a + |piece|
  {
    forall i | j <= i < a + |piece| ensures InClass(k, line[i]) {
      assert line[a + (i - a)] == piece[i - a];
    }
    assert line[a + |piece|] == next[0];
    RunEndIs(k, line, j, a + |piece|);
  }

  /** The category, code and value of `f` lie in `line` from `q` on, separated by the gaps,
      and the value ends the line. */
  predicate TailLaidOut(line: string, q: nat, f: LineFields, gap1: string, gap2: string)
  {
    var e := q + |f.category|;
    var s1 := e + |gap1|;
    var c := s1 + |f.code|;
    var s2 := c + |gap2|;
    && Placed(f.category, line, q) && Placed(gap1, line, e) && Placed(f.code, line, s1)
    && Placed(gap2, line, c) && Placed(f.value, line, s2) && s2 + |f.value| == |line|
  }

  /** The runs of the category and the gap after it. */
  lemma CategoryRuns(line: string, q: nat, f: LineFields, pad: string, gap1: string, gap2: string)
    requires WellFormedFields(f) && GoodGaps(pad, gap1, gap2) && TailLaidOut(line, q, f, gap1, gap2)
    ensures IsAt(line, "EV_", q)
    ensures RunEnd(Word, line, q + 3) == q + |f.category|
    ensures RunEnd(Gap, line, q + |f.category|) == q + |f.category| + |gap1|
  {
    assert line[q..q + 3] == f.category[..3] by {
      assert forall i :: 0 <= i < 3 ==> line[q + i] == f.category[i];
    }
    assert InClass(Gap, gap1[0]) && InClass(Word, f.code[0]);
    RunOver(Word, line, q + 3, q, f.category, gap1);
    RunOver(Gap, line, q + |f.category|, q + |f.category|, gap1, f.code);
  }

  /** The runs of the code and the gap after it. */
  lemma CodeRuns(line: string, q: nat, f: LineFields, pad: string, gap1: string, gap2: string)
    requires WellFormedFields(f) && GoodGaps(pad, gap1, gap2) && TailLaidOut(line, q, f, gap1, gap2)
    ensures RunEnd(Word, line, q + |f.category| + |gap1|) == q + |f.category| + |gap1| + |f.code|
    ensures RunEnd(Gap, line, q + |f.category| + |gap1| + |f.code|)
      == q + |f.category| + |gap1| + |f.code| + |gap2|
  {
    var s1 := q + |f.category| + |gap1|;
    assert InClass(Gap, gap2[0]) && !InClass(Gap, f.value[0]);
    RunOver(Word, line, s1, s1, f.code, gap2);
    RunOver(Gap, line, s1 + |f.code|, s1 + |f.code|, gap2, f.value);
  }

  /** The value group at the start of a well-formed value that ends the line. */
  lemma ValueAtFormatted(line: string, v: nat, value: string)
    requires value == "DOWN" || value == "UP" || (value != [] && AllIn(Hex, value))
    requires Placed(value, line, v) && v + |value| == |line|
    ensures CaptureValue(line, v, KeywordsFirst) == Some(value)
  {
    if value == "DOWN" {
      assert IsAt(line, "DOWN", v);
    } else if value == "UP" {
      assert IsAt(line, "UP", v);
    } else {
      forall i | v <= i < |line| ensures InClass(Hex, line[i]) {
        assert line[v + (i - v)] == value[i - v];
      }
      RunEndIs(Hex, line, v, |line|);
      assert line[v..|line|] == value;
      assert !IsAt(line, "DOWN", v) by {
        if v + 4 <= |line| { assert InClass(Hex, line[v + 1]); }
      }
      assert !IsAt(line, "UP", v) by {
        assert InClass(Hex, line[v]);
      }
    }
  }

  /** TailAt, given where its runs end and what the groups read. */
  lemma TailAtIs(line: string, q: nat, category: string, s1: nat, code: string, s2: nat, v: string)
    requires Placed(category, line, q) && Placed(code, line, s1)
    requires q + 3 < q + |category| < s1 < s1 + |code| < s2 <= |line|
    requires IsAt(line, "EV_", q)
    requires RunEnd(Word, line, q + 3) == q + |category| && RunEnd(Gap, line, q + |category|) == s1
    requires RunEnd(Word, line, s1) == s1 + |code| && RunEnd(Gap, line, s1 + |code|) == s2
    requires CaptureValue(line, s2, KeywordsFirst) == Some(v)
    ensures TailAt(line, q, KeywordsFirst) == Some((category, code, v))
  {
    assert line[q..q + |category|] == category;
    assert line[s1..s1 + |code|] == code;
  }

  /** The tail pattern at the start of a well-formed category/code/value suffix. */
  lemma TailAtFormatted(line: string, q: nat, f: LineFields, pad: string, gap1: string, gap2: string)
    requires WellFormedFields(f) && GoodGaps(pad, gap1, gap2) && TailLaidOut(line, q, f, gap1, gap2)
    ensures TailAt(line, q, KeywordsFirst) == Some((f.category, f.code, f.value))
  {
    var s1 := q + |f.category| + |gap1|;
    var s2 := s1 + |f.code| + |gap2|;
    CategoryRuns(line, q, f, pad, gap1, gap2);
    CodeRuns(line, q, f, pad, gap1, gap2);
    ValueAtFormatted(line, s2, f.value);
    TailAtIs(line, q, f.category, s1, f.code, s2, f.value);
  }

  /** The two halves of a concatenation placed at the start of a line. */
  lemma Peel(line: string, x: string, y: string)
    requires Placed(x + y, line, 0)
    ensures Placed(x, line, 0) && Placed(y, line, |x|)
  {
    forall i | 0 <= i < |y| ensures line[|x| + i] == y[i] {
      assert (x + y)[|x| + i] == y[i];
    }
    forall i | 0 <= i < |x| ensures line[0 + i] == x[i] {
      assert (x + y)[i] == x[i];
    }
  }

  /** Where each piece of a formatted line sits. */
  predicate PiecesAt(line: string, pad: string, f: LineFields, gap1: string, gap2: string)
  {
    var a := 1 + |pad|;
    var b := a + |f.timestamp|;
    && b + 2 <= |line| && line[0] == '[' && line[b] == ']' && line[b + 1] == ' '
    && Placed(pad, line, 1) && Placed(f.timestamp, line, a) && TailLaidOut(line, b + 2, f, gap1, gap2)
  }

  lemma FormatLinePieces(pad: string, f: LineFields, gap1: string, gap2: string)
    ensures PiecesAt(FormatLine(pad, f, gap1, gap2), pad, f, gap1, gap2)
  {
    var line := FormatLine(pad, f, gap1, gap2);
    var p1 := "[" + pad;
    var p2 := p1 + f.timestamp;
    var p3 := p2 + "] ";
    var p4 := p3 + f.category;
    var p5 := p4 + gap1;
    var p6 := p5 + f.code;
    var p7 := p6 + gap2;
    assert Placed(p7 + f.value, line, 0);
    Peel(line, p7, f.value);
    Peel(line, p6, gap2);
    Peel(line, p5, f.code);
    Peel(line, p4, gap1);
    Peel(line, p3, f.category);
    Peel(line, p2, "] ");
    Peel(line, p1, f.timestamp);
    Peel(line, "[", pad);
    assert line[0 + 0] == "["[0];
    assert line[|p2| + 0] == "] "[0] && line[|p2| + 1] == "] "[1];
  }

  /** The timestamp run of a laid-out line stops at the closing bracket. */
  lemma SecondsRun(line: string, a: nat, ts: string)
    requires Placed(ts, line, a) && AllIn(Seconds, ts)
    requires a + |ts| < |line| && line[a + |ts|] == ']'
    ensures RunEnd(Seconds, line, a) == a + |ts|
  {
    forall i | a <= i < a + |ts| ensures InClass(Seconds, line[i]) {
      assert line[a + (i - a)] == ts[i - a];
    }
    RunEndIs(Seconds, line, a, a + |ts|);
  }

  /** The `[ seconds]` header of a laid-out line. */
  lemma HeaderRuns(line: string, pad: string, f: LineFields, gap1: string, gap2: string)
    requires WellFormedFields(f) && GoodGaps(pad, gap1, gap2) && PiecesAt(line, pad, f, gap1, gap2)
    ensures RunEnd(Gap, line, 1) == 1 + |pad|
    ensures RunEnd(Seconds, line, 1 + |pad|) == 1 + |pad| + |f.timestamp|
    ensures line[1 + |pad|..1 + |pad| + |f.timestamp|] == f.timestamp
  {
    var a := 1 + |pad|;
    assert line[a..a + |f.timestamp|] == f.timestamp by {
      assert forall i :: 0 <= i < |f.timestamp| ==> line[a + i] == f.timestamp[i];
    }
    assert !InClass(Gap, f.timestamp[0]);
    RunOver(Gap, line, 1, 1, pad, f.timestamp);
    SecondsRun(line, a, f.timestamp);
  }

  /** The lazy `.*?` skips the space after the header when the tail starts right after it. */
  lemma TailFromAfter(line: string, q: nat, t: (string, string, string))
    requires q < |line| && line[q] == ' '
    requires TailAt(line, q + 1, KeywordsFirst) == Some(t)
    ensures TailFrom(line, q, KeywordsFirst) == Some(t)
  {
    assert !IsAt(line, "EV_", q) by { assert line[q] == ' '; }
    assert TailAt(line, q, KeywordsFirst) == None;
  }

  /** MatchAt, given where the header runs end and what the tail reads. */
  lemma MatchAtIs(line: string, a: nat, b: nat, t: (string, string, string))
    requires 0 < a < b < |line| && line[0] == '[' && line[b] == ']'
    requires RunEnd(Gap, line, 1) == a && RunEnd(Seconds, line, a) == b
    requires TailFrom(line, b + 1, KeywordsFirst) == Some(t)
    ensures MatchAt(line, 0, KeywordsFirst) == Some(LineFields(line[a..b], t.0, t.1, t.2))
  {
  }

  /** Reading back a formatted line gives the fields it was formatted from. */
  lemma MatchFormattedLine(pad: string, f: LineFields, gap1: string, gap2: string)
    requires WellFormedFields(f) && GoodGaps(pad, gap1, gap2)
    ensures MatchLine(FormatLine(pad, f, gap1, gap2)) == Some(f)
  {
    FormatLinePieces(pad, f, gap1, gap2);
    MatchPlaced(FormatLine(pad, f, gap1, gap2), pad, f, gap1, gap2);
  }

  /** Reading back any line laid out as a formatted line is. */
  lemma MatchPlaced(line: string, pad: string, f: LineFields, gap1: string, gap2: string)
    requires WellFormedFields(f) && GoodGaps(pad, gap1, gap2) && PiecesAt(line, pad, f, gap1, gap2)
    ensures MatchLine(line) == Some(f)
  {
    var a := 1 + |pad|;
    var b := a + |f.timestamp|;
    HeaderRuns(line, pad, f, gap1, gap2);
    TailAtFormatted(line, b + 2, f, pad, gap1, gap2);
    TailFromAfter(line, b + 1, (f.category, f.code, f.value));
    MatchAtIs(line, a, b, (f.category, f.code, f.value));
  }

  // ---------------------------------------------------------------------------
  // Field decoding
  // ---------------------------------------------------------------------------

  /** An exact decimal number of seconds: mantissa / 10^scale. */
  datatype Decimal = Decimal(mantissa: int, scale: nat)

  function Pow10(n: nat): (r: nat)
    ensures r >= 1
  {
    if n == 0 then 1 else 10 * Pow10(n - 1)
  }

  /** `strconv.ParseFloat(ts, 64)` for a `[\d.]+` capture, computed exactly: digits with at
      most one dot and at least one digit; anything else is a syntax error, read as 0. */
  function ParseSeconds(ts: string): (r: Decimal)
    ensures r.mantissa >= 0
  {
    var dot := IndexOf(ts, ".");
    if dot < 0 then
      if ts != [] && AllDigits(ts) then Decimal(DigitsValue(ts), 0) else Decimal(0, 0)
    else
      var whole := ts[..dot];
      var frac := ts[dot + 1..];
      if AllDigits(whole) && AllDigits(frac) && |whole| + |frac| > 0
      then Decimal(DigitsValue(whole + frac), |frac|)
      else Decimal(0, 0)
  }

  /** A `<digits>.<digits>` timestamp reads as the exact decimal its digits spell. */
  lemma ParseSecondsFraction(whole: string, frac: string)
    requires AllDigits(whole) && AllDigits(frac) && |whole| + |frac| > 0
    ensures ParseSeconds(whole + "." + frac) == Decimal(DigitsValue(whole + frac), |frac|)
  {
    var ts := whole + "." + frac;
    assert IsAt(ts, ".", |whole|);
    forall j | 0 <= j < |whole| ensures !IsAt(ts, ".", j) {
      assert ts[j] == whole[j];
    }
    assert IndexOf(ts, ".") == |whole|;
    assert ts[..|whole|] == whole;
    assert ts[|whole| + 1..] == frac;
  }

  /** `int((t1 - t0) * 1000)`: the whole milliseconds from `t0` to `t1`, truncated toward zero. */
  function MillisBetween(t0: Decimal, t1: Decimal): (ms: int)
    ensures AtMost(t0, t1) ==> ms >= 0
    ensures AtMost(t1, t0) ==> ms <= 0
  {
    var later, earlier := t1.mantissa * Pow10(t0.scale), t0.mantissa * Pow10(t1.scale);
    TruncDiv((later - earlier) * 1000, Pow10(t0.scale + t1.scale))
  }

  /** The relation between the numbers two decimals denote. */
  predicate AtMost(t0: Decimal, t1: Decimal) {
    t0.mantissa * Pow10(t1.scale) <= t1.mantissa * Pow10(t0.scale)
  }

  /** The value field with the keyword sentinels mapped (`DOWN` to 1, `UP` to 0), parsed as an
      unsigned 32-bit hex number and reinterpreted as int32; None where ParseUint fails. */
  function DecodeValue(v: string): (r: Option<int>)
    ensures v == "DOWN" ==> r == Some(1)
    ensures v == "UP" ==> r == Some(0)
  {
    HexSentinels();
    var hex := if v == "DOWN" then "00000001" else if v == "UP" then "00000000" else v;
    match ParseUint32Hex(hex)
    case None => None
    case Some(u) => Some(ToInt32(u))
  }

  function Pow16(n: nat): nat
  {
    if n == 0 then 1 else 16 * Pow16(n - 1)
  }

  lemma {:induction false} HexAllF(s: string)
    requires forall i :: 0 <= i < |s| ==> s[i] == 'f'
    ensures (forall i :: 0 <= i < |s| ==> IsHexDigit(s[i])) && HexValue(s) == Pow16(|s|) - 1
  {
    if s != [] {
      HexAllF(s[..|s| - 1]);
    }
  }

  lemma {:induction false} HexAllZero(s: string)
    requires forall i :: 0 <= i < |s| ==> s[i] == '0'
    ensures (forall i :: 0 <= i < |s| ==> IsHexDigit(s[i])) && HexValue(s) == 0
  {
    if s != [] {
      HexAllZero(s[..|s| - 1]);
    }
  }

  /** A hex value that fits in 32 bits decodes to its two's-complement int32 reading;
      `ffffffff` is -1. */
  lemma DecodeHexValue(v: string)
    requires v != [] && (forall i :: 0 <= i < |v| ==> IsHexDigit(v[i])) && v != "DOWN" && v != "UP"
    ensures HexValue(v) < TWO_POW_32 ==> DecodeValue(v) == Some(ToInt32(HexValue(v)))
    ensures HexValue(v) >= TWO_POW_32 ==> DecodeValue(v) == None
    ensures v == "ffffffff" ==> DecodeValue(v) == Some(-1)
  {
    if v == "ffffffff" {
      HexAllF(v);
      assert Pow16(8) == 4294967296;
    }
  }

  lemma HexSentinels()
    ensures HexValue("00000001") == 1 && HexValue("00000000") == 0
  {
    HexAllZero("00000000");
    HexAllZero("0000000");
    assert "00000001"[..7] == "0000000";
  }

  /** The finding on a concrete shape of line: a `BTN_TOUCH`-style line ending in `DOWN` is read
      with the value `DOWN` (decoded 1) by the intended pattern, but with `D` (decoded 13) by the
      source's pattern, so the `DOWN` branch never sees it. */
  lemma DownLineReadAsD(pad: string, f: LineFields, gap1: string, gap2: string)
    requires WellFormedFields(f) && GoodGaps(pad, gap1, gap2) && f.value == "DOWN"
    ensures MatchLine(FormatLine(pad, f, gap1, gap2)) == Some(f)
    ensures MatchLineAsWritten(FormatLine(pad, f, gap1, gap2)) == Some(f.(value := "D"))
    ensures DecodeValue(f.value) == Some(1) && DecodeValue("D") == Some(13)
  {
    MatchFormattedLine(pad, f, gap1, gap2);
    AsWrittenReadsDownAsD(FormatLine(pad, f, gap1, gap2));
    DecodeD();
  }

  /** The single hex digit the source's pattern captures for `DOWN` decodes to 13. */
  lemma DecodeD()
    ensures DecodeValue("D") == Some(13)
  {
    assert "D" != "DOWN" && "D" != "UP";
    assert "D"[..0] == [] && "D"[0] == 'D';
    assert HexValue("D") == 13;
  }

  /** A decoded line: its time in seconds and its category, code and value fields. */
  datatype RawEvent = RawEvent(time: Decimal, category: string, code: string, value: string)

  /** Decoding of one raw line; None for lines the pattern does not match (the parser skips them). */
  function DecodeLine(line: string): (r: Option<RawEvent>)
    ensures r.Some? <==> MatchLine(line).Some?
  {
    match MatchLine(line)
    case None => None
    case Some(f) => Some(RawEvent(ParseSeconds(f.timestamp), f.category, f.code, f.value))
  }

  /** Decoding with the source's own pattern: the same lines match, and only a `DOWN` value
      comes out different, as `D`. */
  function DecodeLineAsWritten(line: string): (r: Option<RawEvent>)
    ensures r == match DecodeLine(line)
      case None => None
      case Some(ev) => Some(ev.(value := AsWrittenValue(ev.value)))
  {
    AsWrittenReadsDownAsD(line);
    match MatchLineAsWritten(line)
    case None => None
    case Some(f) => Some(RawEvent(ParseSeconds(f.timestamp), f.category, f.code, f.value))
  }
}

/** What recording needs to know about a device before it starts: which input device is the
    touchscreen (from the `getevent -p` listing), the raw range of each touch axis, and the screen
    resolution (from `wm size`). The outputs of those commands are parameters. */
module TouchDevice {
  import opened Wrappers
  import opened Text

  // ---------------------------------------------------------------------------
  // The touchscreen locator
  // ---------------------------------------------------------------------------

  /** Words whose presence in a device's name line marks it as a touchscreen. */
  const TOUCH_KEYWORDS: seq<string> := ["touch", "ts", "ft5", "goodix", "synaptics", "atmel",
                                        "elan", "himax", "focaltech", "mxt", "nvt", "ilitek",
                                        "sec_touchscreen", "input_mt", "mtk-tpd"]

  /** A listed input device worth considering, with its path and score. */
  datatype Candidate = Candidate(path: string, score: int)

  /** The first non-blank line that contains `name:`. */
  function FirstNameLine(lines: seq<string>): (r: Option<string>)
    ensures r.Some? ==> r.value in lines && Contains(r.value, "name:")
  {
    if lines == [] then None
    else if TrimSpace(lines[0]) != "" && Contains(lines[0], "name:") then Some(lines[0])
    else FirstNameLine(lines[1..])
  }

  /** Some keyword of the list occurs in `lower`. */
  predicate AnyKeyword(lower: string, keywords: seq<string>) {
    exists k :: 0 <= k < |keywords| && Contains(lower, keywords[k])
  }

  predicate HasTouchKeyword(lower: string) {
    AnyKeyword(lower, TOUCH_KEYWORDS)
  }

  /** The block's name line, lower-cased, mentions a touch keyword. */
  predicate NameMatch(block: string) {
    match FirstNameLine(Split(block, "\n"))
    case None => false
    case Some(line) => HasTouchKeyword(ToLower(line))
  }

  /** A block marks a multi-touch device when it mentions the X position axis, by name or code. */
  predicate IsMultitouch(block: string) {
    Contains(block, "ABS_MT_POSITION_X") || Contains(block, "0035")
  }

  /** The device path of a block: none if the block is blank, has no line break, or its first
      line names no `/dev/input/` path; otherwise the trimmed first line from `/dev/input/` on. */
  function BlockPath(block: string): Option<string>
  {
    if TrimSpace(block) == "" then None
    else
      var lineEnd := IndexOf(block, "\n");
      if lineEnd == -1 then None
      else
        var firstLine := block[..lineEnd];
        var pathIndex := IndexOf(firstLine, "/dev/input/");
        if pathIndex == -1 then None
        else Some(TrimSpace(firstLine[pathIndex..]))
  }

  /** What one `add device` block contributes: nothing without a path or if it is not multi-touch;
      otherwise its path, scoring 11 with a keyword in its name line and 1 without. */
  function BlockCandidate(block: string): Option<Candidate>
  {
    match BlockPath(block)
    case None => None
    case Some(path) =>
      if !IsMultitouch(block) then None
      else Some(Candidate(path, if NameMatch(block) then 11 else 1))
  }

  /** The candidates of the blocks, in listing order. */
  function Candidates(blocks: seq<string>): seq<Candidate>
  {
    if blocks == [] then []
    else
      var rest := Candidates(blocks[..|blocks| - 1]);
      match BlockCandidate(blocks[|blocks| - 1])
      case None => rest
      case Some(c) => rest + [c]
  }

  /** The running best (score, path), starting from (0, ""), replaced only by a strictly higher score. */
  function BestOf(cands: seq<Candidate>): (int, string)
  {
    if cands == [] then (0, "")
    else
      var (score, path) := BestOf(cands[..|cands| - 1]);
      var c := cands[|cands| - 1];
      if c.score > score then (c.score, c.path) else (score, path)
  }

  /** The blocks the listing is split into. */
  function Blocks(listing: string): seq<string>
  {
    Split(ReplaceAll(listing, "\r\n", "\n"), "add device")
  }

  /** GetTouchInputDevice on the output of `getevent -p` (or the error running it). */
  function LocateTouchDevice(listing: Result<string, string>): Result<string, string>
  {
    match listing
    case Err(e) => Err("failed to get input devices: " + e)
    case Ok(text) =>
      var (_, best) := BestOf(Candidates(Blocks(text)));
      if best != "" then Ok(best) else Err("no touch input device found")
  }

  /** The keyword loop: stops at the first keyword that occurs. */
  method ContainsAnyKeyword(lower: string, keywords: seq<string>) returns (found: bool)
    ensures found == AnyKeyword(lower, keywords)
  {
    var k := 0;
    while k < |keywords|
      invariant 0 <= k <= |keywords|
      invariant forall j :: 0 <= j < k ==> !Contains(lower, keywords[j])
    {
      if Contains(lower, keywords[k]) {
        return true;
      }
      k := k + 1;
    }
    return false;
  }

  /** The name-line scan of one block: the lines loop that stops at the first name line, and the
      keyword loop over it. */
  method NameMatches(block: string) returns (nameMatch: bool)
    ensures nameMatch == NameMatch(block)
  {
    var lines := Split(block, "\n");
    nameMatch := false;
    var i := 0;
    while i < |lines|
      invariant 0 <= i <= |lines|
      invariant FirstNameLine(lines[i..]) == FirstNameLine(lines)
    {
      var line := lines[i];
      assert lines[i..][1..] == lines[i + 1..];
      if TrimSpace(line) == "" {
        i := i + 1;
        continue;
      }
      if Contains(line, "name:") {
        nameMatch := ContainsAnyKeyword(ToLower(line), TOUCH_KEYWORDS);
        return;
      }
      i := i + 1;
    }
  }

  /** The checks and the scoring applied to one block. */
  method ExamineBlock(block: string) returns (candidate: Option<Candidate>)
    ensures candidate == BlockCandidate(block)
  {
    var path := BlockPath(block);
    var isMultitouch := Contains(block, "ABS_MT_POSITION_X") || Contains(block, "0035");
    if path.None? || !isMultitouch {
      candidate := None;
    } else {
      var score := 1;
      var nameMatch := NameMatches(block);
      if nameMatch {
        score := score + 10;
      }
      candidate := Some(Candidate(path.value, score));
    }
  }

  /** GetTouchInputDevice: collect the candidates block by block, then keep the best. */
  method GetTouchInputDevice(listing: Result<string, string>) returns (r: Result<string, string>)
    ensures r == LocateTouchDevice(listing)
  {
    if listing.Err? {
      r := Err("failed to get input devices: " + listing.error);
    } else {
      var output := ReplaceAll(listing.value, "\r\n", "\n");
      var devices := Split(output, "add device");
      var candidates := CollectCandidates(devices);
      var bestScore, bestPath := PickBest(candidates);
      r := if bestPath != "" then Ok(bestPath) else Err("no touch input device found");
    }
  }

  /** The loop keeping the first candidate with the strictly highest score. */
  method PickBest(candidates: seq<Candidate>) returns (bestScore: int, bestPath: string)
    ensures (bestScore, bestPath) == BestOf(candidates)
  {
    bestPath := "";
    bestScore := 0;
    var j := 0;
    while j < |candidates|
      invariant 0 <= j <= |candidates|
      invariant (bestScore, bestPath) == BestOf(candidates[..j])
    {
      assert candidates[..j + 1][..j] == candidates[..j];
      var c := candidates[j];
      if c.score > bestScore {
        bestScore := c.score;
        bestPath := c.path;
      }
      j := j + 1;
    }
    assert candidates[..j] == candidates;
  }

  /** The loop over the blocks, appending each candidate. */
  method CollectCandidates(devices: seq<string>) returns (candidates: seq<Candidate>)
    ensures candidates == Candidates(devices)
  {
    candidates := [];
    var i := 0;
    while i < |devices|
      invariant 0 <= i <= |devices|
      invariant candidates == Candidates(devices[..i])
    {
      assert devices[..i + 1][..i] == devices[..i];
      var candidate := ExamineBlock(devices[i]);
      if candidate.Some? {
        candidates := candidates + [candidate.value];
      }
      i := i + 1;
    }
    assert devices[..i] == devices;
  }

  // ---------------------------------------------------------------------------
  // Locator properties
  // ---------------------------------------------------------------------------

  /** A path taken from `/dev/input/` on keeps that prefix after trimming. */
  lemma TrimmedPathPrefix(t: string)
    requires HasPrefix(t, "/dev/input/")
    ensures HasPrefix(TrimSpace(t), "/dev/input/")
  {
    assert t[0] == '/' && t[10] == '/';
    assert SpanFrom(IsSpace, t, 0) == 0;
    var b := SpanBack(IsSpace, t, 0, |t|);
    assert TrimSpace(t) == t[..b];
    assert !IsSpace(t[10]);
    assert b > 10;
    assert t[..b][..11] == t[..11];
  }

  /** A block is a candidate exactly when it is non-blank, has a first line naming a
      `/dev/input/` path, and is multi-touch; its path keeps that prefix and it scores 11 with a
      keyword in its name line and 1 otherwise. */
  lemma BlockCandidateSpec(block: string)
    ensures var c := BlockCandidate(block);
      var lineEnd := IndexOf(block, "\n");
      && (c.Some? <==> (TrimSpace(block) != "" && lineEnd >= 0 && Contains(block[..lineEnd], "/dev/input/")
                        && IsMultitouch(block)))
      && (c.Some? ==> HasPrefix(c.value.path, "/dev/input/"))
      && (c.Some? ==> c.value.score == (if NameMatch(block) then 11 else 1))
  {
    var lineEnd := IndexOf(block, "\n");
    if TrimSpace(block) != "" && lineEnd >= 0 {
      var firstLine := block[..lineEnd];
      var p := IndexOf(firstLine, "/dev/input/");
      if p >= 0 {
        assert firstLine[p..][..11] == firstLine[p..p + 11];
        TrimmedPathPrefix(firstLine[p..]);
      }
    }
  }

  predicate IsFirstBest(cands: seq<Candidate>, i: int) {
    && 0 <= i < |cands|
    && (forall j :: 0 <= j < |cands| ==> cands[j].score <= cands[i].score)
    && (forall j :: 0 <= j < i ==> cands[j].score < cands[i].score)
  }

  /** With positive scores, the kept candidate is the first one of maximal score. */
  lemma {:induction false} BestIsFirstMaximum(cands: seq<Candidate>)
    requires forall j :: 0 <= j < |cands| ==> cands[j].score >= 1
    ensures cands == [] ==> BestOf(cands) == (0, "")
    ensures cands != [] ==> exists i :: IsFirstBest(cands, i) && BestOf(cands) == (cands[i].score, cands[i].path)
  {
    if cands != [] {
      var init := cands[..|cands| - 1];
      var c := cands[|cands| - 1];
      BestIsFirstMaximum(init);
      if init == [] {
        assert IsFirstBest(cands, 0);
      } else {
        var i :| IsFirstBest(init, i) && BestOf(init) == (init[i].score, init[i].path);
        assert forall j :: 0 <= j < |init| ==> cands[j] == init[j];
        if c.score > init[i].score {
          forall j | 0 <= j < |cands| - 1
            ensures cands[j].score < c.score
          {
            assert cands[j].score == init[j].score <= init[i].score;
          }
          assert IsFirstBest(cands, |cands| - 1);
        } else {
          assert cands[i] == init[i];
          assert IsFirstBest(cands, i);
        }
      }
    }
  }

  /** Every candidate's path starts with `/dev/input/` and its score is 1 or 11. */
  lemma {:induction false} CandidatesShape(blocks: seq<string>)
    ensures forall j :: 0 <= j < |Candidates(blocks)| ==>
      HasPrefix(Candidates(blocks)[j].path, "/dev/input/") && Candidates(blocks)[j].score in {1, 11}
  {
    if blocks != [] {
      CandidatesShape(blocks[..|blocks| - 1]);
      BlockCandidateSpec(blocks[|blocks| - 1]);
    }
  }

  /** The locator fails exactly when no block is a candidate, and otherwise returns the path of
      the first candidate with the highest score. */
  lemma LocateSpec(text: string)
    ensures var cands := Candidates(Blocks(text));
      && (LocateTouchDevice(Ok(text)).Err? <==> cands == [])
      && (cands != [] ==> exists i :: IsFirstBest(cands, i) && LocateTouchDevice(Ok(text)) == Ok(cands[i].path))
  {
    var cands := Candidates(Blocks(text));
    CandidatesShape(Blocks(text));
    BestIsFirstMaximum(cands);
    if cands != [] {
      var i :| IsFirstBest(cands, i) && BestOf(cands) == (cands[i].score, cands[i].path);
      assert cands[i].path != "";
    }
  }

  // ---------------------------------------------------------------------------
  // Screen resolution
  // ---------------------------------------------------------------------------

  /** The pattern `(\d+)x(\d+)` matches at `i`: a digit run there ends at an `x` followed by a digit. */
  predicate SizeAt(s: string, i: nat) {
    i < |s| && IsDigit(s[i]) && DigitsEnd(s, i) + 1 < |s| && s[DigitsEnd(s, i)] == 'x' && IsDigit(s[DigitsEnd(s, i) + 1])
  }

  /** The leftmost `(\d+)x(\d+)` match at or after `i`, as `WxH`. */
  function FindSize(s: string, i: nat): (r: Option<string>)
    requires i <= |s|
    decreases |s| - i
  {
    if i >= |s| then None
    else if SizeAt(s, i) then
      var e := DigitsEnd(s, i);
      Some(s[i..e] + "x" + s[e + 1..DigitsEnd(s, e + 1)])
    else FindSize(s, i + 1)
  }

  /** GetDeviceResolution on the output of `wm size`: the first `WxH`, or 1080x1920 when there is none. */
  function GetDeviceResolution(output: Result<string, string>): Result<string, string>
  {
    match output
    case Err(e) => Err(e)
    case Ok(text) =>
      match FindSize(text, 0)
      case None => Ok("1080x1920")
      case Some(size) => Ok(size)
  }

  /** Every found size is two non-empty digit runs joined by `x`. */
  lemma {:induction false} FindSizeShape(s: string, i: nat)
    requires i <= |s|
    ensures FindSize(s, i).Some? ==> exists w, h :: w != [] && h != [] && AllDigits(w) && AllDigits(h)
                                              && FindSize(s, i).value == w + "x" + h
    decreases |s| - i
  {
    if i < |s| {
      if SizeAt(s, i) {
        var e := DigitsEnd(s, i);
        var w, h := s[i..e], s[e + 1..DigitsEnd(s, e + 1)];
        assert AllDigits(w) && AllDigits(h);
      } else {
        FindSizeShape(s, i + 1);
      }
    }
  }

  /** Positions free of digits are skipped by the search. */
  lemma {:induction false} FindSizeSkips(s: string, i: nat, j: nat)
    requires i <= j <= |s|
    requires forall k :: i <= k < j ==> !IsDigit(s[k])
    ensures FindSize(s, i) == FindSize(s, j)
    decreases j - i
  {
    if i < j {
      FindSizeSkips(s, i + 1, j);
    }
  }

  /** A report such as `Physical size: 1080x2400` gives back its `WxH`, whatever the digit-free
      text before it and whatever follows it other than a digit. */
  lemma ResolutionOfReport(prefix: string, w: string, h: string, rest: string)
    requires forall k :: 0 <= k < |prefix| ==> !IsDigit(prefix[k])
    requires w != [] && h != [] && AllDigits(w) && AllDigits(h)
    requires rest == [] || !IsDigit(rest[0])
    ensures GetDeviceResolution(Ok(prefix + w + "x" + h + rest)) == Ok(w + "x" + h)
  {
    var t := w + "x" + h + rest;
    var s := prefix + w + "x" + h + rest;
    assert s == prefix + t;
    var a := |prefix|;
    forall k | 0 <= k < a
      ensures !IsDigit(s[k])
    {
      assert s[k] == prefix[k];
    }
    FindSizeSkips(s, 0, a);
    assert s[a..] == t;
    SizeAtReport(s, a, w, h, rest);
  }

  /** The size `WxH` written at `a` is found there. */
  lemma SizeAtReport(s: string, a: nat, w: string, h: string, rest: string)
    requires a <= |s| && s[a..] == w + "x" + h + rest
    requires w != [] && h != [] && AllDigits(w) && AllDigits(h)
    requires rest == [] || !IsDigit(rest[0])
    ensures FindSize(s, a) == Some(w + "x" + h)
  {
    var e := a + |w|;
    var f := e + 1 + |h|;
    ReportPieces(s, a, w, h, rest);
    DigitRun(s, a, w);
    DigitRun(s, e + 1, h);
    DigitsEndAt(s, a, e);
    DigitsEndAt(s, e + 1, f);
    assert SizeAt(s, a);
  }

  /** The pieces of `WxH` followed by `rest`, written at `a`. */
  lemma ReportPieces(s: string, a: nat, w: string, h: string, rest: string)
    requires a <= |s| && s[a..] == w + "x" + h + rest
    requires rest == [] || !IsDigit(rest[0])
    ensures a + |w| + 1 + |h| <= |s|
    ensures s[a..a + |w|] == w && s[a + |w|] == 'x' && s[a + |w| + 1..a + |w| + 1 + |h|] == h
    ensures a + |w| + 1 + |h| < |s| ==> !IsDigit(s[a + |w| + 1 + |h|])
  {
    var t := s[a..];
    assert t[..|w|] == w;
    assert t[|w|] == 'x';
    assert t[|w| + 1..|w| + 1 + |h|] == h;
    if |w| + 1 + |h| < |t| {
      assert t[|w| + 1 + |h|] == rest[0];
    }
  }

  /** A digit string written at `a` makes a run of digits there. */
  lemma DigitRun(s: string, a: nat, w: string)
    requires a + |w| <= |s| && s[a..a + |w|] == w && AllDigits(w)
    ensures forall k :: a <= k < a + |w| ==> IsDigit(s[k])
  {
    forall k | a <= k < a + |w|
      ensures IsDigit(s[k])
    {
      assert s[k] == w[k - a];
    }
  }

  /** The resolution found is always `WxH` with W and H digit runs, or the default. */
  lemma ResolutionShape(text: string)
    ensures var r := GetDeviceResolution(Ok(text));
      r.Ok? && (r.value == "1080x1920" || exists w, h :: w != [] && h != [] && AllDigits(w) && AllDigits(h)
                                                        && r.value == w + "x" + h)
  {
    FindSizeShape(text, 0);
  }

  // ---------------------------------------------------------------------------
  // Axis ranges
  // ---------------------------------------------------------------------------

  /** The end of the run of `\s` characters starting at `i`. */
  function GapEnd(s: string, i: nat): (e: nat)
    requires i <= |s|
    ensures i <= e <= |s|
    ensures forall k :: i <= k < e ==> IsRegexSpace(s[k])
    ensures e < |s| ==> !IsRegexSpace(s[e])
    decreases |s| - i
  {
    if i < |s| && IsRegexSpace(s[i]) then GapEnd(s, i + 1) else i
  }

  /** The end of `-?\d+` at `i`: an optional minus and a digit run, or None. */
  function NumberEnd(s: string, i: nat): (r: Option<nat>)
    requires i <= |s|
    ensures r.Some? ==> i < r.value <= |s|
  {
    if i + 1 < |s| && s[i] == '-' && IsDigit(s[i + 1]) then Some(DigitsEnd(s, i + 1))
    else if i < |s| && IsDigit(s[i]) then Some(DigitsEnd(s, i))
    else None
  }

  /** The pattern `min\s+(-?\d+),\s+max\s+(-?\d+)` matched at `i`: the two captured numbers. */
  function MinMaxAt(s: string, i: nat): Option<(int, int)>
    requires i <= |s|
  {
    if !IsAt(s, "min", i) then None
    else
      var g1 := GapEnd(s, i + 3);
      if g1 == i + 3 then None
      else match NumberEnd(s, g1)
        case None => None
        case Some(n1) =>
          if !(n1 < |s| && s[n1] == ',') then None
          else
            var g2 := GapEnd(s, n1 + 1);
            if g2 == n1 + 1 || !IsAt(s, "max", g2) then None
            else
              var g3 := GapEnd(s, g2 + 3);
              if g3 == g2 + 3 then None
              else match NumberEnd(s, g3)
                case None => None
                case Some(n2) => Some((AtoiOrZero(s[g1..n1]), AtoiOrZero(s[g3..n2])))
  }

  /** The leftmost match at or after `i`. */
  function FindMinMax(s: string, i: nat): Option<(int, int)>
    requires i <= |s|
    decreases |s| - i
  {
    if i >= |s| then None
    else match MinMaxAt(s, i)
      case Some(r) => Some(r)
      case None => FindMinMax(s, i + 1)
  }

  /** The range a line gives the X axis: it must name the axis (or its code 0035) and match. */
  function XRange(line: string): Option<(int, int)>
  {
    if Contains(line, "ABS_MT_POSITION_X") || Contains(line, "0035") then FindMinMax(line, 0) else None
  }

  function YRange(line: string): Option<(int, int)>
  {
    if Contains(line, "ABS_MT_POSITION_Y") || Contains(line, "0036") then FindMinMax(line, 0) else None
  }

  datatype AxisRanges = AxisRanges(minX: int, maxX: int, minY: int, maxY: int)

  /** The ranges after the given lines: each axis keeps the last range a line gave it, or 0..0. */
  function RangesOf(lines: seq<string>): AxisRanges
  {
    if lines == [] then AxisRanges(0, 0, 0, 0)
    else
      RangesAfter(RangesOf(lines[..|lines| - 1]), lines[|lines| - 1])
  }

  /** The ranges after one more line: each axis the line gives a range to takes it. */
  function RangesAfter(r: AxisRanges, line: string): AxisRanges
  {
    var r1 := match XRange(line) case None => r case Some((lo, hi)) => r.(minX := lo, maxX := hi);
    match YRange(line) case None => r1 case Some((lo, hi)) => r1.(minY := lo, maxY := hi)
  }

  lemma RangesStep(lines: seq<string>, i: nat)
    requires i < |lines|
    ensures RangesOf(lines[..i + 1]) == RangesAfter(RangesOf(lines[..i]), lines[i])
  {
    assert lines[..i + 1][..i] == lines[..i];
  }

  /** The detected ranges from the output of `getevent -p <device>`; all zero if it failed. */
  function DetectRanges(props: Result<string, string>): AxisRanges
  {
    match props
    case Err(_) => AxisRanges(0, 0, 0, 0)
    case Ok(text) => RangesOf(Split(text, "\n"))
  }

  /** The axis-range loop of StartTouchRecording. */
  method DetectAxisRanges(props: Result<string, string>) returns (minX: int, maxX: int, minY: int, maxY: int)
    ensures AxisRanges(minX, maxX, minY, maxY) == DetectRanges(props)
  {
    minX, maxX, minY, maxY := 0, 0, 0, 0;
    if props.Err? {
      return;
    }
    var lines := Split(props.value, "\n");
    var i := 0;
    while i < |lines|
      invariant 0 <= i <= |lines|
      invariant AxisRanges(minX, maxX, minY, maxY) == RangesOf(lines[..i])
    {
      RangesStep(lines, i);
      var line := lines[i];
      match XRange(line) {
        case Some((lo, hi)) => minX, maxX := lo, hi;
        case None =>
      }
      match YRange(line) {
        case Some((lo, hi)) => minY, maxY := lo, hi;
        case None =>
      }
      i := i + 1;
    }
    assert lines[..i] == lines;
  }

  /** The X range is the one given by the last line that gives one. */
  lemma {:induction false} LastXLineWins(lines: seq<string>, k: nat)
    requires k < |lines| && XRange(lines[k]).Some?
    requires forall j :: k < j < |lines| ==> XRange(lines[j]).None?
    ensures (RangesOf(lines).minX, RangesOf(lines).maxX) == XRange(lines[k]).value
  {
    if k < |lines| - 1 {
      LastXLineWins(lines[..|lines| - 1], k);
    }
  }

  /** The Y range likewise. */
  lemma {:induction false} LastYLineWins(lines: seq<string>, k: nat)
    requires k < |lines| && YRange(lines[k]).Some?
    requires forall j :: k < j < |lines| ==> YRange(lines[j]).None?
    ensures (RangesOf(lines).minY, RangesOf(lines).maxY) == YRange(lines[k]).value
  {
    if k < |lines| - 1 {
      LastYLineWins(lines[..|lines| - 1], k);
    }
  }

  /** With no line giving the X axis a range, it stays 0..0. */
  lemma {:induction false} NoXLineZero(lines: seq<string>)
    requires forall j :: 0 <= j < |lines| ==> XRange(lines[j]).None?
    ensures RangesOf(lines).minX == 0 && RangesOf(lines).maxX == 0
  {
    if lines != [] {
      NoXLineZero(lines[..|lines| - 1]);
    }
  }
}

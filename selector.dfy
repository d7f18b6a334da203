/** The UI selector engine: bounds strings and rectangles, the pre-order search of a UI hierarchy
    snapshot for nodes matching a selector, and the small AND/OR advanced-query language. */
module Selector {
  import opened Wrappers
  import opened Text

  // ---------------------------------------------------------------------------
  // Bounds
  // ---------------------------------------------------------------------------

  datatype BoundsRect = BoundsRect(x1: int, y1: int, x2: int, y2: int)

  /** A non-empty digit run at `i` followed by `delim`: the position of the delimiter. */
  function RunBefore(s: string, i: nat, delim: char): (e: Option<nat>)
    requires i <= |s|
    ensures e.Some? ==> i < e.value < |s| && s[e.value] == delim
  {
    var e := DigitsEnd(s, i);
    if e > i && e < |s| && s[e] == delim then Some(e) else None
  }

  /** The pattern `\[(\d+),(\d+)\]\[(\d+),(\d+)\]` tried at position `i`: the positions of
      the delimiters closing its four digit runs. Each run is maximal and must be followed by its
      fixed delimiter, so the match there, if any, is unique. */
  function Delimiters(s: string, i: nat): Option<(nat, nat, nat, nat)>
    requires i <= |s|
  {
    if i < |s| && s[i] == '[' then
      match RunBefore(s, i + 1, ',')
      case None => None
      case Some(a) =>
        match RunBefore(s, a + 1, ']')
        case None => None
        case Some(b) =>
          if b + 1 < |s| && s[b + 1] == '[' then
            match RunBefore(s, b + 2, ',')
            case None => None
            case Some(c) =>
              match RunBefore(s, c + 1, ']')
              case None => None
              case Some(d) => Some((a, b, c, d))
          else None
    else None
  }

  /** The rectangle matched at `i`, its four numbers read with strconv.Atoi (whose 64-bit range
      limit is not modelled). */
  function BoundsAt(s: string, i: nat): Option<BoundsRect>
  {
    if i > |s| then None
    else match Delimiters(s, i)
      case None => None
      case Some((a, b, c, d)) =>
        if i < a < b < c < d < |s| then
          Some(BoundsRect(AtoiOrZero(s[i + 1..a]), AtoiOrZero(s[a + 1..b]), AtoiOrZero(s[b + 2..c]), AtoiOrZero(s[c + 1..d])))
        else None
  }

  /** The first match at or after `i` of a pattern tried position by position. */
  function FirstMatch(s: string, i: nat, at: (string, nat) -> Option<BoundsRect>): Option<BoundsRect>
    decreases |s| - i
  {
    if i >= |s| then None
    else match at(s, i)
      case Some(r) => Some(r)
      case None => FirstMatch(s, i + 1, at)
  }

  /** The leftmost match at or after `i`. */
  function FindBounds(s: string, i: nat): Option<BoundsRect>
  {
    FirstMatch(s, i, BoundsAt)
  }

  /** ParseBounds. */
  function ParseBounds(bounds: string): Result<BoundsRect, string>
  {
    match FindBounds(bounds, 0)
    case None => Err("invalid bounds format: " + bounds)
    case Some(r) => Ok(r)
  }

  /** The Android spelling `[x1,y1][x2,y2]` of a rectangle with non-negative corners. */
  function FormatBounds(r: BoundsRect): string
    requires r.x1 >= 0 && r.y1 >= 0 && r.x2 >= 0 && r.y2 >= 0
  {
    "[" + NatToString(r.x1) + "," + NatToString(r.y1) + "][" + NatToString(r.x2) + "," + NatToString(r.y2) + "]"
  }

  /** A digit run written at `i` of `s`, followed by `delim`, is the run the pattern reads. */
  lemma RunBeforeAt(s: string, i: nat, w: string, delim: char)
    requires w != [] && AllDigits(w) && !IsDigit(delim)
    requires i + |w| < |s| && s[i..i + |w|] == w && s[i + |w|] == delim
    ensures RunBefore(s, i, delim) == Some(i + |w|)
  {
    forall k | i <= k < i + |w|
      ensures IsDigit(s[k])
    {
      assert s[k] == w[k - i];
    }
    DigitsEndAt(s, i, i + |w|);
  }

  lemma BoundsAtOf(s: string, i: nat, a: nat, b: nat, c: nat, d: nat)
    requires i < |s| && a < |s| && b + 1 < |s| && c < |s| && d < |s|
    requires s[i] == '[' && s[b + 1] == '['
    requires RunBefore(s, i + 1, ',') == Some(a) && RunBefore(s, a + 1, ']') == Some(b)
    requires RunBefore(s, b + 2, ',') == Some(c) && RunBefore(s, c + 1, ']') == Some(d)
    ensures Delimiters(s, i) == Some((a, b, c, d))
  {
  }

  /** The rectangle read between the delimiters found. */
  lemma BoundsAtDelimiters(s: string, i: nat, a: nat, b: nat, c: nat, d: nat)
    requires i < a < b < c < d < |s| && Delimiters(s, i) == Some((a, b, c, d))
    ensures BoundsAt(s, i) == Some(BoundsRect(AtoiOrZero(s[i + 1..a]), AtoiOrZero(s[a + 1..b]),
                                              AtoiOrZero(s[b + 2..c]), AtoiOrZero(s[c + 1..d])))
  {
  }


  /** Where the pieces of a formatted rectangle sit in `prefix + FormatBounds(r) + rest`. */
  lemma Layout(prefix: string, w1: string, w2: string, w3: string, w4: string, rest: string)
    ensures var s := prefix + ("[" + w1 + "," + w2 + "][" + w3 + "," + w4 + "]") + rest;
      var i := |prefix|; var a := i + 1 + |w1|; var b := a + 1 + |w2|; var c := b + 2 + |w3|; var d := c + 1 + |w4|;
      && s[..i] == prefix && d < |s|
      && s[i] == '[' && s[i + 1..a] == w1 && s[a] == ',' && s[a + 1..b] == w2 && s[b] == ']' && s[b + 1] == '['
      && s[b + 2..c] == w3 && s[c] == ',' && s[c + 1..d] == w4 && s[d] == ']'
  {
  }

  /** Positions where the pattern does not match are skipped by the search. */
  lemma {:induction false} FirstMatchSkips(s: string, i: nat, j: nat, at: (string, nat) -> Option<BoundsRect>)
    requires i <= j <= |s|
    requires forall k :: i <= k < j ==> at(s, k).None?
    ensures FirstMatch(s, i, at) == FirstMatch(s, j, at)
    decreases j - i
  {
    if i < j {
      FirstMatchSkips(s, i + 1, j, at);
    }
  }

  /** Positions before which no `[` occurs are skipped by the search. */
  lemma FindBoundsSkips(s: string, i: nat, j: nat)
    requires i <= j <= |s|
    requires forall k :: i <= k < j ==> s[k] != '['
    ensures FindBounds(s, i) == FindBounds(s, j)
  {
    forall k | i <= k < j
      ensures BoundsAt(s, k).None?
    {
      NoBoundsAt(s, k);
    }
    FirstMatchSkips(s, i, j, BoundsAt);
  }

  /** No match starts where there is no `[`. */
  lemma NoBoundsAt(s: string, k: nat)
    requires k < |s| && s[k] != '['
    ensures BoundsAt(s, k).None?
  {
    assert Delimiters(s, k) == None;
  }

  /** A string without `[` is not a bounds string. */
  lemma ParseBoundsWithoutBracket(s: string)
    requires forall k :: 0 <= k < |s| ==> s[k] != '['
    ensures ParseBounds(s) == Err("invalid bounds format: " + s)
  {
    FindBoundsSkips(s, 0, |s|);
  }

  /** Four digit runs written as `[w1,w2][w3,w4]` after bracket-free text are the first match. */
  lemma FormattedMatch(prefix: string, w1: string, w2: string, w3: string, w4: string, rest: string)
    requires w1 != [] && w2 != [] && w3 != [] && w4 != []
    requires AllDigits(w1) && AllDigits(w2) && AllDigits(w3) && AllDigits(w4)
    requires forall k :: 0 <= k < |prefix| ==> prefix[k] != '['
    ensures FindBounds(prefix + ("[" + w1 + "," + w2 + "][" + w3 + "," + w4 + "]") + rest, 0)
         == Some(BoundsRect(AtoiOrZero(w1), AtoiOrZero(w2), AtoiOrZero(w3), AtoiOrZero(w4)))
  {
    var s := prefix + ("[" + w1 + "," + w2 + "][" + w3 + "," + w4 + "]") + rest;
    var i := |prefix|;
    PrefixSkipped(prefix, s);
    FormattedAt(prefix, w1, w2, w3, w4, rest);
  }

  lemma PrefixSkipped(prefix: string, s: string)
    requires forall k :: 0 <= k < |prefix| ==> prefix[k] != '['
    requires prefix <= s
    ensures FindBounds(s, 0) == FindBounds(s, |prefix|)
  {
    assert forall k :: 0 <= k < |prefix| ==> s[k] == prefix[k];
    FindBoundsSkips(s, 0, |prefix|);
  }

  lemma FormattedAt(prefix: string, w1: string, w2: string, w3: string, w4: string, rest: string)
    requires w1 != [] && w2 != [] && w3 != [] && w4 != []
    requires AllDigits(w1) && AllDigits(w2) && AllDigits(w3) && AllDigits(w4)
    ensures var s := prefix + ("[" + w1 + "," + w2 + "][" + w3 + "," + w4 + "]") + rest;
      BoundsAt(s, |prefix|) == Some(BoundsRect(AtoiOrZero(w1), AtoiOrZero(w2), AtoiOrZero(w3), AtoiOrZero(w4)))
  {
    Layout(prefix, w1, w2, w3, w4, rest);
    RunsAt(prefix + ("[" + w1 + "," + w2 + "][" + w3 + "," + w4 + "]") + rest, |prefix|, w1, w2, w3, w4);
  }

  /** The digit runs `w1`..`w4` standing between the pattern's delimiters from `i` on. */
  lemma RunsAt(s: string, i: nat, w1: string, w2: string, w3: string, w4: string)
    requires w1 != [] && w2 != [] && w3 != [] && w4 != []
    requires AllDigits(w1) && AllDigits(w2) && AllDigits(w3) && AllDigits(w4)
    requires var a := i + 1 + |w1|; var b := a + 1 + |w2|; var c := b + 2 + |w3|; var d := c + 1 + |w4|;
      && d < |s|
      && s[i] == '[' && s[i + 1..a] == w1 && s[a] == ',' && s[a + 1..b] == w2 && s[b] == ']' && s[b + 1] == '['
      && s[b + 2..c] == w3 && s[c] == ',' && s[c + 1..d] == w4 && s[d] == ']'
    ensures BoundsAt(s, i) == Some(BoundsRect(AtoiOrZero(w1), AtoiOrZero(w2), AtoiOrZero(w3), AtoiOrZero(w4)))
  {
    var a := i + 1 + |w1|;
    var b := a + 1 + |w2|;
    var c := b + 2 + |w3|;
    var d := c + 1 + |w4|;
    DelimitersAt(s, i, a, b, c, d, w1, w2, w3, w4);
    BoundsAtDelimiters(s, i, a, b, c, d);
  }

  lemma DelimitersAt(s: string, i: nat, a: nat, b: nat, c: nat, d: nat, w1: string, w2: string, w3: string, w4: string)
    requires w1 != [] && w2 != [] && w3 != [] && w4 != []
    requires AllDigits(w1) && AllDigits(w2) && AllDigits(w3) && AllDigits(w4)
    requires a == i + 1 + |w1| && b == a + 1 + |w2| && c == b + 2 + |w3| && d == c + 1 + |w4| && d < |s|
    requires s[i] == '[' && s[i + 1..a] == w1 && s[a] == ',' && s[a + 1..b] == w2 && s[b] == ']' && s[b + 1] == '['
    requires s[b + 2..c] == w3 && s[c] == ',' && s[c + 1..d] == w4 && s[d] == ']'
    ensures Delimiters(s, i) == Some((a, b, c, d))
  {
    RunBeforeAt(s, i + 1, w1, ',');
    RunBeforeAt(s, a + 1, w2, ']');
    RunBeforeAt(s, b + 2, w3, ',');
    RunBeforeAt(s, c + 1, w4, ']');
    BoundsAtOf(s, i, a, b, c, d);
  }

  /** Formatting a rectangle and parsing it back gives the rectangle, whatever follows it and
      whatever bracket-free text precedes it. */
  lemma ParseFormatBounds(prefix: string, r: BoundsRect, rest: string)
    requires r.x1 >= 0 && r.y1 >= 0 && r.x2 >= 0 && r.y2 >= 0
    requires forall k :: 0 <= k < |prefix| ==> prefix[k] != '['
    ensures ParseBounds(prefix + FormatBounds(r) + rest) == Ok(r)
  {
    var w1, w2, w3, w4 := NatToString(r.x1), NatToString(r.y1), NatToString(r.x2), NatToString(r.y2);
    assert prefix + FormatBounds(r) + rest == prefix + ("[" + w1 + "," + w2 + "][" + w3 + "," + w4 + "]") + rest;
    FormattedMatch(prefix, w1, w2, w3, w4, rest);
    AtoiOfDigits(w1);
    AtoiOfDigits(w2);
    AtoiOfDigits(w3);
    AtoiOfDigits(w4);
    NatToStringValue(r.x1);
    NatToStringValue(r.y1);
    NatToStringValue(r.x2);
    NatToStringValue(r.y2);
  }

  // ---------------------------------------------------------------------------
  // Rectangle geometry
  // ---------------------------------------------------------------------------

  /** Center: half the extent added to the first corner, halves truncated toward zero. */
  function Center(b: BoundsRect): (int, int)
  {
    (b.x1 + TruncDiv(b.x2 - b.x1, 2), b.y1 + TruncDiv(b.y2 - b.y1, 2))
  }

  /** Contains: inclusive on all four edges. */
  predicate ContainsPoint(b: BoundsRect, x: int, y: int)
  {
    x >= b.x1 && x <= b.x2 && y >= b.y1 && y <= b.y2
  }

  function Area(b: BoundsRect): int
  {
    (b.x2 - b.x1) * (b.y2 - b.y1)
  }

  /** The center lies between the two corners on each axis, in either order, so a well-formed
      rectangle contains its center. */
  lemma CenterBetween(b: BoundsRect)
    ensures var (cx, cy) := Center(b);
      && (if b.x1 <= b.x2 then b.x1 <= cx <= b.x2 else b.x2 <= cx <= b.x1)
      && (if b.y1 <= b.y2 then b.y1 <= cy <= b.y2 else b.y2 <= cy <= b.y1)
    ensures b.x1 <= b.x2 && b.y1 <= b.y2 ==> ContainsPoint(b, Center(b).0, Center(b).1)
  {
  }

  /** Halving truncates toward zero: a rectangle spelt from right to left has its center rounded
      toward its first corner, not down. */
  lemma CenterTruncates()
    ensures Center(BoundsRect(0, 0, 5, 5)) == (2, 2)
    ensures Center(BoundsRect(5, 5, 0, 0)) == (3, 3)
  {
  }

  /** A well-formed rectangle contains its four corners and nothing outside its edges; a point
      inside means the rectangle is well-formed. */
  lemma ContainsEdges(b: BoundsRect, x: int, y: int)
    ensures b.x1 <= b.x2 && b.y1 <= b.y2 ==>
      ContainsPoint(b, b.x1, b.y1) && ContainsPoint(b, b.x2, b.y2) && ContainsPoint(b, b.x1, b.y2) && ContainsPoint(b, b.x2, b.y1)
    ensures x < b.x1 || x > b.x2 || y < b.y1 || y > b.y2 ==> !ContainsPoint(b, x, y)
    ensures ContainsPoint(b, x, y) ==> b.x1 <= b.x2 && b.y1 <= b.y2
  {
  }

  /** The area is the product of the extents: non-negative for a well-formed rectangle, and zero
      exactly when the rectangle is flat. */
  lemma AreaSign(b: BoundsRect)
    ensures b.x1 <= b.x2 && b.y1 <= b.y2 ==> Area(b) >= 0
    ensures Area(b) == 0 <==> b.x1 == b.x2 || b.y1 == b.y2
  {
    var w, h := b.x2 - b.x1, b.y2 - b.y1;
    if w != 0 && h != 0 {
      assert w * h != 0;
    }
  }
}

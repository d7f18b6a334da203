/** The subset of Go's `strings`, `strconv` and `unicode` packages that the core relies on,
    over strings as sequences of Unicode scalar values (Go runes). */
module Text {
  import opened Wrappers

  // ---------------------------------------------------------------------------
  // Character classes
  // ---------------------------------------------------------------------------

  /** unicode.IsSpace: the characters with the Unicode White_Space property. */
  predicate IsSpace(c: char) {
    c == ' ' || ('\t' <= c <= '\r') || c == '\U{0085}' || c == '\U{00A0}' || c == '\U{1680}'
    || ('\U{2000}' <= c <= '\U{200A}') || c == '\U{2028}' || c == '\U{2029}' || c == '\U{202F}'
    || c == '\U{205F}' || c == '\U{3000}'
  }

  predicate NotSpace(c: char) { !IsSpace(c) }

  /** The RE2 class `\s`: `[\t\n\f\r ]` (no vertical tab, ASCII only). */
  predicate IsRegexSpace(c: char) { c == ' ' || c == '\t' || c == '\n' || c == '\U{000C}' || c == '\r' }

  /** The RE2 class `\d`. */
  predicate IsDigit(c: char) { '0' <= c <= '9' }

  /** The RE2 class `\w`: `[0-9A-Za-z_]`. */
  predicate IsWord(c: char) { IsDigit(c) || 'a' <= c <= 'z' || 'A' <= c <= 'Z' || c == '_' }

  /** The class `[0-9a-fA-F]`. */
  predicate IsHexDigit(c: char) { IsDigit(c) || 'a' <= c <= 'f' || 'A' <= c <= 'F' }

  predicate AllDigits(s: string) { forall i :: 0 <= i < |s| ==> IsDigit(s[i]) }

  /** ASCII lower-casing of one character. */
  function LowerChar(c: char): (d: char)
    ensures 'A' <= c <= 'Z' ==> d as int == c as int + 32
    ensures !('A' <= c <= 'Z') ==> d == c
  {
    if 'A' <= c <= 'Z' then (c as int + 32) as char else c
  }

  /** strings.ToLower, restricted to ASCII letters: a pointwise map, so it preserves length. */
  function ToLower(s: string): (r: string)
    ensures |r| == |s|
    ensures forall i :: 0 <= i < |s| ==> r[i] == LowerChar(s[i])
  {
    seq(|s|, i requires 0 <= i < |s| => LowerChar(s[i]))
  }

  lemma LowerSlice(s: string, a: nat, b: nat)
    requires a <= b <= |s|
    ensures ToLower(s)[a..b] == ToLower(s[a..b])
  {
  }

  lemma LowerConcat(s: string, t: string)
    ensures ToLower(s + t) == ToLower(s) + ToLower(t)
  {
    assert forall i :: 0 <= i < |s + t| ==> ToLower(s + t)[i] == (ToLower(s) + ToLower(t))[i];
  }

  // ---------------------------------------------------------------------------
  // Spans and trimming
  // ---------------------------------------------------------------------------

  /** The end of the longest run of characters satisfying `p` that starts at `k`. */
  function SpanFrom(p: char -> bool, s: string, k: nat): (e: nat)
    requires k <= |s|
    ensures k <= e <= |s|
    ensures forall i :: k <= i < e ==> p(s[i])
    ensures e < |s| ==> !p(s[e])
    decreases |s| - k
  {
    if k < |s| && p(s[k]) then SpanFrom(p, s, k + 1) else k
  }

  /** The start of the longest run of characters satisfying `p` that ends at `k`, not going below `lo`. */
  function SpanBack(p: char -> bool, s: string, lo: nat, k: nat): (b: nat)
    requires lo <= k <= |s|
    ensures lo <= b <= k
    ensures forall i :: b <= i < k ==> p(s[i])
    ensures b > lo ==> !p(s[b - 1])
    decreases k
  {
    if k > lo && p(s[k - 1]) then SpanBack(p, s, lo, k - 1) else k
  }

  /** strings.TrimSpace: `s` without its leading and trailing white space. */
  function TrimSpace(s: string): (r: string)
    ensures |r| <= |s|
    ensures r != [] ==> !IsSpace(r[0]) && !IsSpace(r[|r| - 1])
    ensures IsSlice(r, s, SpanFrom(IsSpace, s, 0))
    ensures forall i :: 0 <= i < SpanFrom(IsSpace, s, 0) ==> IsSpace(s[i])
    ensures forall i :: SpanFrom(IsSpace, s, 0) + |r| <= i < |s| ==> IsSpace(s[i])
  {
    var a := SpanFrom(IsSpace, s, 0);
    var b := SpanBack(IsSpace, s, a, |s|);
    s[a..b]
  }

  /** `r` occurs in `s` at position `a`. */
  predicate IsSlice(r: string, s: string, a: int) {
    0 <= a && a + |r| <= |s| && s[a..a + |r|] == r
  }

  lemma TrimSpaceIdempotent(s: string)
    ensures TrimSpace(TrimSpace(s)) == TrimSpace(s)
  {
    var t := TrimSpace(s);
    if t != [] {
      assert SpanFrom(IsSpace, t, 0) == 0;
      assert SpanBack(IsSpace, t, 0, |t|) == |t|;
    }
  }

  /** A string with no leading or trailing white space is its own trim. */
  lemma TrimSpaceOfTrimmed(s: string)
    requires s != [] ==> !IsSpace(s[0]) && !IsSpace(s[|s| - 1])
    ensures TrimSpace(s) == s
  {
    if s != [] {
      assert SpanFrom(IsSpace, s, 0) == 0;
      assert SpanBack(IsSpace, s, 0, |s|) == |s|;
    }
  }

  // ---------------------------------------------------------------------------
  // Prefixes, suffixes, searching
  // ---------------------------------------------------------------------------

  /** strings.HasPrefix. */
  predicate HasPrefix(s: string, p: string) { |p| <= |s| && s[..|p|] == p }

  /** strings.HasSuffix. */
  predicate HasSuffix(s: string, p: string) { |p| <= |s| && s[|s| - |p|..] == p }

  /** strings.TrimPrefix. */
  function TrimPrefix(s: string, p: string): (r: string)
    ensures HasPrefix(s, p) ==> p + r == s
    ensures !HasPrefix(s, p) ==> r == s
  {
    if HasPrefix(s, p) then s[|p|..] else s
  }

  /** `sub` occurs in `s` starting at index `i`. */
  predicate IsAt(s: string, sub: string, i: int) {
    0 <= i && i + |sub| <= |s| && s[i..i + |sub|] == sub
  }

  /** The first index at or after `k` where `sub` occurs in `s`, or -1. */
  function IndexFrom(s: string, sub: string, k: nat): (r: int)
    ensures r == -1 || (k <= r && IsAt(s, sub, r))
    ensures r == -1 ==> forall j :: k <= j ==> !IsAt(s, sub, j)
    ensures r != -1 ==> forall j :: k <= j < r ==> !IsAt(s, sub, j)
    decreases |s| - k
  {
    if k + |sub| > |s| then -1
    else if s[k..k + |sub|] == sub then k
    else IndexFrom(s, sub, k + 1)
  }

  /** strings.Index: the first index of `sub` in `s`, or -1. */
  function IndexOf(s: string, sub: string): (r: int)
    ensures r >= -1
    ensures r >= 0 ==> IsAt(s, sub, r) && forall j :: 0 <= j < r ==> !IsAt(s, sub, j)
    ensures r == -1 <==> forall j :: 0 <= j ==> !IsAt(s, sub, j)
  {
    IndexFrom(s, sub, 0)
  }

  /** strings.Contains. */
  predicate Contains(s: string, sub: string) { IndexOf(s, sub) >= 0 }

  lemma ContainsAt(s: string, sub: string, i: int)
    requires IsAt(s, sub, i)
    ensures Contains(s, sub)
  {
  }

  /** An occurrence inside a slice is an occurrence in the whole string. */
  lemma ContainsOfSlice(s: string, a: nat, b: nat, sub: string)
    requires a <= b <= |s| && Contains(s[a..b], sub)
    ensures Contains(s, sub)
  {
    var i := IndexOf(s[a..b], sub);
    assert s[a + i..a + i + |sub|] == s[a..b][i..i + |sub|];
    ContainsAt(s, sub, a + i);
  }

  // ---------------------------------------------------------------------------
  // Splitting and joining
  // ---------------------------------------------------------------------------

  /** strings.Split with a non-empty separator: the pieces between the non-overlapping
      occurrences of `sep`, found left to right. */
  function Split(s: string, sep: string): (parts: seq<string>)
    requires sep != []
    ensures |parts| >= 1
    decreases |s|
  {
    var i := IndexOf(s, sep);
    if i < 0 then [s] else [s[..i]] + Split(s[i + |sep|..], sep)
  }

  /** strings.Join. */
  function Join(parts: seq<string>, sep: string): string
  {
    if parts == [] then "" else if |parts| == 1 then parts[0] else parts[0] + sep + Join(parts[1..], sep)
  }

  /** Splitting and joining again gives back the original string. */
  lemma {:induction false} JoinSplit(s: string, sep: string)
    requires sep != []
    ensures Join(Split(s, sep), sep) == s
    decreases |s|
  {
    var i := IndexOf(s, sep);
    if i >= 0 {
      var rest := s[i + |sep|..];
      var tail := Split(rest, sep);
      assert Split(s, sep) == [s[..i]] + tail;
      assert ([s[..i]] + tail)[1..] == tail;
      JoinSplit(rest, sep);
      assert Join(Split(s, sep), sep) == s[..i] + sep + Join(tail, sep);
      Rejoin(s, sep, i);
    }
  }

  /** Cutting out an occurrence of `sep` and putting it back gives the string back. */
  lemma Rejoin(s: string, sep: string, i: int)
    requires IsAt(s, sep, i)
    ensures s[..i] + sep + s[i + |sep|..] == s
  {
  }

  /** The text before the first occurrence of `sub` does not contain `sub`. */
  lemma PrefixBeforeFirstFree(s: string, sub: string)
    requires sub != [] && IndexOf(s, sub) >= 0
    ensures !Contains(s[..IndexOf(s, sub)], sub)
  {
    var i := IndexOf(s, sub);
    if Contains(s[..i], sub) {
      var j := IndexOf(s[..i], sub);
      assert s[j..j + |sub|] == s[..i][j..j + |sub|];
      assert IsAt(s, sub, j);
    }
  }

  /** No piece of a split contains the separator. */
  lemma {:induction false} SplitPiecesFree(s: string, sep: string)
    requires sep != []
    ensures forall p :: p in Split(s, sep) ==> !Contains(p, sep)
    decreases |s|
  {
    var i := IndexOf(s, sep);
    if i >= 0 {
      var tail := Split(s[i + |sep|..], sep);
      SplitPiecesFree(s[i + |sep|..], sep);
      PrefixBeforeFirstFree(s, sep);
      assert Split(s, sep) == [s[..i]] + tail;
    }
  }

  lemma CharAt(t: string, c: char, j: int)
    requires IsAt(t, [c], j)
    ensures t[j] == c
  {
    assert t[j..j + 1][0] == t[j];
  }

  /** A string free of a character has no occurrence of it. */
  lemma IndexOfAbsentChar(t: string, c: char)
    requires forall i :: 0 <= i < |t| ==> t[i] != c
    ensures IndexOf(t, [c]) == -1
  {
    forall j | 0 <= j
      ensures !IsAt(t, [c], j)
    {
      if IsAt(t, [c], j) {
        CharAt(t, c, j);
      }
    }
  }

  /** The first occurrence of a character is right after a prefix free of it. */
  lemma IndexOfFirstChar(a: string, c: char, b: string)
    requires forall i :: 0 <= i < |a| ==> a[i] != c
    ensures IndexOf(a + [c] + b, [c]) == |a|
  {
    var s := a + [c] + b;
    assert s[|a|..|a| + 1] == [c];
    forall j | 0 <= j < |a|
      ensures !IsAt(s, [c], j)
    {
      assert s[j] == a[j];
      if IsAt(s, [c], j) {
        CharAt(s, c, j);
      }
    }
    assert IsAt(s, [c], |a|);
    var r := IndexOf(s, [c]);
    assert r != -1;
    assert !(r < |a|) && !(r > |a|);
  }

  /** strings.Index with a one-character pattern finds its first occurrence, and -1 exactly
      when the character does not occur. */
  lemma IndexOfCharFirst(t: string, c: char)
    ensures var r := IndexOf(t, [c]);
      && (r == -1 <==> c !in t)
      && (r >= 0 ==> r < |t| && t[r] == c && c !in t[..r])
  {
    var r := IndexOf(t, [c]);
    if r >= 0 {
      CharAt(t, c, r);
      forall j | 0 <= j < r
        ensures t[j] != c
      {
        if t[j] == c {
          assert t[j..j + 1] == [c];
          assert IsAt(t, [c], j);
        }
      }
    } else {
      forall j | 0 <= j < |t|
        ensures t[j] != c
      {
        if t[j] == c {
          assert t[j..j + 1] == [c];
          assert IsAt(t, [c], j);
        }
      }
    }
  }

  /** A pattern holding a character that the text lacks does not occur in it. */
  lemma IndexOfMissingChar(t: string, sub: string, k: nat)
    requires k < |sub| && sub[k] !in t
    ensures IndexOf(t, sub) == -1
  {
    forall j | 0 <= j
      ensures !IsAt(t, sub, j)
    {
      if j + |sub| <= |t| {
        assert t[j..j + |sub|][k] == t[j + k];
        assert t[j + k] in t;
      }
    }
  }

  /** Two pieces free of a one-character separator, joined by it, split back into themselves. */
  lemma SplitTwo(a: string, c: char, b: string)
    requires forall i :: 0 <= i < |a| ==> a[i] != c
    requires forall i :: 0 <= i < |b| ==> b[i] != c
    ensures Split(a + [c] + b, [c]) == [a, b]
  {
    var s := a + [c] + b;
    IndexOfFirstChar(a, c, b);
    IndexOfAbsentChar(b, c);
    assert s[|a| + 1..] == b;
    assert s[..|a|] == a;
    assert Split(b, [c]) == [b];
  }

  /** A first piece free of a one-character separator splits off on its own. */
  lemma SplitCons(a: string, c: char, b: string)
    requires forall i :: 0 <= i < |a| ==> a[i] != c
    ensures Split(a + [c] + b, [c]) == [a] + Split(b, [c])
  {
    var s := a + [c] + b;
    IndexOfFirstChar(a, c, b);
    assert s[|a| + 1..] == b;
    assert s[..|a|] == a;
  }

  /** Words free of a one-character separator, joined by it, split back into the same words. */
  lemma {:induction false} SplitJoin(words: seq<string>, c: char)
    requires words != []
    requires forall w, i :: w in words && 0 <= i < |w| ==> w[i] != c
    ensures Split(Join(words, [c]), [c]) == words
  {
    if |words| == 1 {
      IndexOfAbsentChar(words[0], c);
    } else {
      var rest := words[1..];
      assert forall w :: w in rest ==> w in words;
      SplitJoin(rest, c);
      SplitCons(words[0], c, Join(rest, [c]));
    }
  }

  /** strings.ReplaceAll with a non-empty pattern. */
  function ReplaceAll(s: string, pattern: string, replacement: string): string
    requires pattern != []
  {
    Join(Split(s, pattern), replacement)
  }

  /** strings.Fields: the maximal runs of non-white-space characters, in order. */
  function Fields(s: string): (r: seq<string>)
    ensures forall i :: 0 <= i < |r| ==> r[i] != [] && forall k :: 0 <= k < |r[i]| ==> !IsSpace(r[i][k])
    decreases |s|
  {
    var a := SpanFrom(IsSpace, s, 0);
    if a == |s| then []
    else
      var b := SpanFrom(NotSpace, s, a);
      [s[a..b]] + Fields(s[b..])
  }

  /** A word: a non-empty run of non-white-space characters. */
  predicate IsWordRun(w: string) {
    w != [] && forall k :: 0 <= k < |w| ==> !IsSpace(w[k])
  }

  /** Runs are found the same way after a prefix. */
  lemma {:induction false} SpanShift(p: char -> bool, pre: string, x: string, k: nat)
    requires k <= |x|
    ensures SpanFrom(p, pre + x, |pre| + k) == |pre| + SpanFrom(p, x, k)
    decreases |x| - k
  {
    if k < |x| {
      assert (pre + x)[|pre| + k] == x[k];
      if p(x[k]) {
        SpanShift(p, pre, x, k + 1);
      }
    }
  }

  /** A run that covers `w` stops where `w` ends when the next character fails `p`. */
  lemma {:induction false} SpanToEnd(p: char -> bool, w: string, rest: string, k: nat)
    requires k <= |w|
    requires forall i :: k <= i < |w| ==> p(w[i])
    requires rest != [] ==> !p(rest[0])
    ensures SpanFrom(p, w + rest, k) == |w|
    decreases |w| - k
  {
    if k < |w| {
      assert (w + rest)[k] == w[k];
      SpanToEnd(p, w, rest, k + 1);
    } else if rest != [] {
      assert (w + rest)[k] == rest[0];
    }
  }

  /** Leading white space does not change the fields. */
  lemma FieldsAfterSpace(c: char, x: string)
    requires IsSpace(c)
    ensures Fields([c] + x) == Fields(x)
  {
    var s := [c] + x;
    assert s[0] == c;
    SpanShift(IsSpace, [c], x, 0);
    var a := SpanFrom(IsSpace, x, 0);
    assert SpanFrom(IsSpace, s, 0) == 1 + a;
    if a < |x| {
      SpanShift(NotSpace, [c], x, a);
      var b := SpanFrom(NotSpace, x, a);
      FieldsUnfold(s, 1 + a, 1 + b);
      FieldsUnfold(x, a, b);
      SliceAfterOne(c, x, a, b);
    }
  }

  lemma SliceAfterOne(c: char, x: string, a: nat, b: nat)
    requires a <= b <= |x|
    ensures ([c] + x)[1 + a..1 + b] == x[a..b] && ([c] + x)[1 + b..] == x[b..]
  {
  }

  lemma FieldsUnfold(s: string, a: nat, b: nat)
    requires a == SpanFrom(IsSpace, s, 0) && a < |s|
    requires b == SpanFrom(NotSpace, s, a)
    ensures Fields(s) == [s[a..b]] + Fields(s[b..])
  {
  }

  /** A word followed by white space (or nothing) is the first field. */
  lemma FieldsCons(w: string, rest: string)
    requires IsWordRun(w)
    requires rest != [] ==> IsSpace(rest[0])
    ensures Fields(w + rest) == [w] + Fields(rest)
  {
    var s := w + rest;
    assert s[0] == w[0];
    assert SpanFrom(IsSpace, s, 0) == 0;
    SpanToEnd(NotSpace, w, rest, 0);
    assert s[0..|w|] == w;
    assert s[|w|..] == rest;
  }

  /** The fields of words joined by single spaces are those words. */
  lemma {:induction false} FieldsOfJoin(ws: seq<string>)
    requires forall i :: 0 <= i < |ws| ==> IsWordRun(ws[i])
    ensures Fields(Join(ws, " ")) == ws
  {
    if ws == [] {
    } else if |ws| == 1 {
      FieldsCons(ws[0], "");
      assert ws[0] + "" == ws[0];
    } else {
      var tail := Join(ws[1..], " ");
      assert Join(ws, " ") == ws[0] + ([' '] + tail);
      FieldsCons(ws[0], [' '] + tail);
      FieldsAfterSpace(' ', tail);
      FieldsOfJoin(ws[1..]);
    }
  }

  /** Non-empty words joined by any separator begin with the first word's first character and
      end with the last word's last character. */
  lemma {:induction false} JoinEnds(ws: seq<string>, sep: string)
    requires ws != [] && forall i :: 0 <= i < |ws| ==> ws[i] != []
    ensures var j := Join(ws, sep);
      j != [] && j[0] == ws[0][0] && j[|j| - 1] == ws[|ws| - 1][|ws[|ws| - 1]| - 1]
  {
    if |ws| > 1 {
      JoinEnds(ws[1..], sep);
      var tail := Join(ws[1..], sep);
      assert Join(ws, sep) == ws[0] + sep + tail;
    }
  }

  // ---------------------------------------------------------------------------
  // Decimal and hexadecimal numbers
  // ---------------------------------------------------------------------------

  function DigitValue(c: char): nat
    requires IsDigit(c)
  {
    c as int - '0' as int
  }

  function DigitChar(d: nat): (c: char)
    requires d < 10
    ensures IsDigit(c) && DigitValue(c) == d
  {
    ('0' as int + d) as char
  }

  /** The value of a run of decimal digits. */
  function DigitsValue(s: string): nat
    requires AllDigits(s)
  {
    if s == [] then 0 else DigitsValue(s[..|s| - 1]) * 10 + DigitValue(s[|s| - 1])
  }

  /** The decimal representation of a natural number, no leading zeros (strconv.Itoa). */
  function NatToString(n: nat): (s: string)
    ensures s != [] && AllDigits(s)
  {
    if n < 10 then [DigitChar(n)] else NatToString(n / 10) + [DigitChar(n % 10)]
  }

  /** fmt's `%d` and strconv.Itoa: a minus sign for negative numbers. */
  function IntToString(n: int): (s: string)
    ensures s != []
    ensures forall i :: 0 <= i < |s| ==> s[i] == '-' || IsDigit(s[i])
  {
    if n < 0 then "-" + NatToString(-n) else NatToString(n)
  }

  lemma {:induction false} NatToStringValue(n: nat)
    ensures DigitsValue(NatToString(n)) == n
  {
    if n >= 10 {
      NatToStringValue(n / 10);
      var s := NatToString(n);
      assert s[..|s| - 1] == NatToString(n / 10);
    }
  }

  /** strconv.Atoi (base 10, optional sign), or None where Go reports a syntax error.
      Go's 64-bit range errors are not modelled: integers are unbounded here. */
  function Atoi(s: string): (r: Option<int>)
    ensures r.Some? && AllDigits(s) ==> r.value == DigitsValue(s)
  {
    if s != [] && (s[0] == '+' || s[0] == '-') then
      var t := s[1..];
      if t != [] && AllDigits(t) then
        var v: int := if s[0] == '-' then -(DigitsValue(t) as int) else DigitsValue(t);
        Some(v)
      else None
    else if s != [] && AllDigits(s) then Some(DigitsValue(s))
    else None
  }

  /** `n, _ := strconv.Atoi(s)`: a syntax error yields 0. */
  function AtoiOrZero(s: string): int
  {
    match Atoi(s) case Some(n) => n case None => 0
  }

  /** Printing a number and reading it back gives the same number. */
  lemma AtoiIntToString(n: int)
    ensures Atoi(IntToString(n)) == Some(n)
  {
    NatToStringValue(if n < 0 then -n else n);
    if n < 0 {
      assert IntToString(n)[1..] == NatToString(-n);
    } else {
      assert IntToString(n)[0] != '-' && IntToString(n)[0] != '+';
    }
  }

  /** The end of the run of decimal digits starting at `i`. */
  function DigitsEnd(s: string, i: nat): (e: nat)
    requires i <= |s|
    ensures i <= e <= |s|
    ensures forall k :: i <= k < e ==> IsDigit(s[k])
    ensures e < |s| ==> !IsDigit(s[e])
    decreases |s| - i
  {
    if i < |s| && IsDigit(s[i]) then DigitsEnd(s, i + 1) else i
  }

  lemma {:induction false} DigitsEndAt(s: string, i: nat, e: nat)
    requires i <= e <= |s|
    requires forall k :: i <= k < e ==> IsDigit(s[k])
    requires e < |s| ==> !IsDigit(s[e])
    ensures DigitsEnd(s, i) == e
    decreases e - i
  {
    if i < e {
      DigitsEndAt(s, i + 1, e);
    }
  }

  /** Two digit runs each read back as their values. */
  lemma AtoiOfDigits(w: string)
    requires w != [] && AllDigits(w)
    ensures AtoiOrZero(w) == DigitsValue(w)
  {
    assert IsDigit(w[0]);
  }

  /** Division by a positive number truncating toward zero, as Go's integer `/` and its
      conversion of a real number to an integer both do. */
  function TruncDiv(a: int, b: int): (q: int)
    requires b > 0
    ensures a >= 0 ==> q == a / b
    ensures a < 0 ==> q == -((-a) / b)
    ensures a >= 0 ==> q >= 0
    ensures a <= 0 ==> q <= 0
  {
    if a >= 0 then DivNonNegative(a, b); a / b else DivNonNegative(-a, b); -((-a) / b)
  }

  lemma DivNonNegative(a: int, b: int)
    requires a >= 0 && b > 0
    ensures a / b >= 0
  {
  }

  function HexDigitValue(c: char): (v: nat)
    requires IsHexDigit(c)
    ensures v < 16
  {
    if IsDigit(c) then c as int - '0' as int
    else if 'a' <= c <= 'f' then c as int - 'a' as int + 10
    else c as int - 'A' as int + 10
  }

  /** The value of a run of hexadecimal digits. */
  function HexValue(s: string): nat
    requires forall i :: 0 <= i < |s| ==> IsHexDigit(s[i])
  {
    if s == [] then 0 else HexValue(s[..|s| - 1]) * 16 + HexDigitValue(s[|s| - 1])
  }

  const TWO_POW_32: nat := 0x1_0000_0000
  const TWO_POW_31: nat := 0x8000_0000

  /** strconv.ParseUint(s, 16, 32): the value of a non-empty run of hex digits below 2^32;
      None for an empty string, a non-hex character, or a value out of range. */
  function ParseUint32Hex(s: string): (r: Option<nat>)
    ensures r.Some? ==> r.value < TWO_POW_32
    ensures r.Some? <==> s != [] && (forall i :: 0 <= i < |s| ==> IsHexDigit(s[i])) && HexValue(s) < TWO_POW_32
  {
    if s != [] && (forall i :: 0 <= i < |s| ==> IsHexDigit(s[i])) && HexValue(s) < TWO_POW_32
    then Some(HexValue(s)) else None
  }

  /** Go's `int32(u)` conversion of a uint64 below 2^32: two's-complement reinterpretation. */
  function ToInt32(u: nat): (v: int)
    requires u < TWO_POW_32
    ensures -(TWO_POW_31 as int) <= v < TWO_POW_31
    ensures (v - u) % TWO_POW_32 == 0
  {
    if u >= TWO_POW_31 then u - TWO_POW_32 else u
  }
}

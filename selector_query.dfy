/** The advanced selector query language: conditions `attr<op>value` with the five operators
    `~ ^ $ = :`, combined with `AND` and `OR` (OR binding loosest), matched case-insensitively. */
module SelectorQuery {
  import opened Wrappers
  import opened Text
  import opened UiTree
  import opened Seqs

  // ---------------------------------------------------------------------------
  // Splitting on a separator, case-insensitively
  // ---------------------------------------------------------------------------

  /** The untrimmed pieces of `q` from `start` on, cut at the leftmost non-overlapping
      occurrences of `lsep` in `lq`, the lower-cased query. */
  function Pieces(q: string, lq: string, lsep: string, start: nat): (r: seq<string>)
    requires lsep != [] && |lq| == |q| && start <= |q|
    ensures |r| >= 1
    decreases |q| - start
  {
    var idx := IndexOf(lq[start..], lsep);
    if idx < 0 then [q[start..]]
    else [q[start..start + idx]] + Pieces(q, lq, lsep, start + idx + |lsep|)
  }

  /** No piece is longer than what remains of the query, and when there are several, each is
      shorter, since a separator has been cut out. */
  lemma {:induction false} PiecesShorter(q: string, lq: string, lsep: string, start: nat)
    requires lsep != [] && |lq| == |q| && start <= |q|
    ensures var r := Pieces(q, lq, lsep, start);
      && (forall i :: 0 <= i < |r| ==> |r[i]| <= |q| - start)
      && (|r| > 1 ==> forall i :: 0 <= i < |r| ==> |r[i]| < |q| - start)
    decreases |q| - start
  {
    var idx := IndexOf(lq[start..], lsep);
    if idx >= 0 {
      PiecesShorter(q, lq, lsep, start + idx + |lsep|);
    }
  }

  lemma PiecesLast(q: string, lq: string, lsep: string, start: nat)
    requires lsep != [] && |lq| == |q| && start <= |q| && IndexOf(lq[start..], lsep) == -1
    ensures Pieces(q, lq, lsep, start) == [q[start..]]
  {
  }

  lemma PiecesStep(q: string, lq: string, lsep: string, start: nat, idx: int)
    requires lsep != [] && |lq| == |q| && start <= |q| && idx == IndexOf(lq[start..], lsep) && idx >= 0
    ensures start + idx + |lsep| <= |q|
    ensures Pieces(q, lq, lsep, start) == [q[start..start + idx]] + Pieces(q, lq, lsep, start + idx + |lsep|)
  {
  }

  /** Each string trimmed of surrounding white space. */
  function Trimmed(ps: seq<string>): (r: seq<string>)
    ensures |r| == |ps|
  {
    if ps == [] then [] else [TrimSpace(ps[0])] + Trimmed(ps[1..])
  }

  lemma {:induction false} TrimmedAt(ps: seq<string>, i: nat)
    requires i < |ps|
    ensures Trimmed(ps)[i] == TrimSpace(ps[i])
  {
    if i > 0 {
      TrimmedAt(ps[1..], i - 1);
    }
  }

  /** splitAdvancedQuery, as a value: the trimmed pieces, at least one; when there are several,
      every one is shorter than the query. */
  function SplitQuery(q: string, sep: string): (r: seq<string>)
    requires sep != []
    ensures |r| >= 1
    ensures |r| > 1 ==> forall i :: 0 <= i < |r| ==> |r[i]| < |q|
  {
    var ps := Pieces(q, ToLower(q), ToLower(sep), 0);
    PiecesShorter(q, ToLower(q), ToLower(sep), 0);
    forall i | 0 <= i < |ps| ensures |Trimmed(ps)[i]| <= |ps[i]| {
      TrimmedAt(ps, i);
    }
    Trimmed(ps)
  }

  /** Every part is its own trim. */
  lemma SplitQueryTrimmed(q: string, sep: string)
    requires sep != []
    ensures forall i :: 0 <= i < |SplitQuery(q, sep)| ==> TrimSpace(SplitQuery(q, sep)[i]) == SplitQuery(q, sep)[i]
  {
    var ps := Pieces(q, ToLower(q), ToLower(sep), 0);
    forall i | 0 <= i < |ps| ensures TrimSpace(Trimmed(ps)[i]) == Trimmed(ps)[i] {
      TrimmedAt(ps, i);
      TrimSpaceIdempotent(ps[i]);
    }
  }

  /** One round of the scan: the piece before the separator moves from the pending pieces to
      the parts found. */
  lemma SplitStep(q: string, lq: string, lsep: string, start: nat, idx: int, next: nat, parts: seq<string>, all: seq<string>)
    requires lsep != [] && |lq| == |q| && start <= |q| && idx == IndexOf(lq[start..], lsep) && idx >= 0
    requires next == start + idx + |lsep|
    requires parts + Trimmed(Pieces(q, lq, lsep, start)) == all
    ensures next <= |q|
    ensures (parts + [TrimSpace(q[start..start + idx])]) + Trimmed(Pieces(q, lq, lsep, next)) == all
  {
    PiecesStep(q, lq, lsep, start, idx);
    var piece := q[start..start + idx];
    var pending := Pieces(q, lq, lsep, next);
    TrimmedCons(piece, pending);
    MoveFront(parts, TrimSpace(piece), Trimmed(pending), all);
  }

  lemma TrimmedCons(p: string, ps: seq<string>)
    ensures Trimmed([p] + ps) == [TrimSpace(p)] + Trimmed(ps)
  {
    assert ([p] + ps)[1..] == ps;
  }

  /** splitAdvancedQuery: scans the lower-cased query for the lower-cased separator, appending
      each trimmed piece and moving past the separator. */
  method SplitAdvancedQuery(query: string, sep: string) returns (parts: seq<string>)
    requires sep != []
    ensures parts == SplitQuery(query, sep)
  {
    var lowerQuery := ToLower(query);
    var lowerSep := ToLower(sep);
    parts := [];
    var start: nat := 0;
    ghost var all := Trimmed(Pieces(query, lowerQuery, lowerSep, 0));
    assert [] + all == all;
    while true
      invariant start <= |query|
      invariant parts + Trimmed(Pieces(query, lowerQuery, lowerSep, start)) == all
      decreases |query| - start
    {
      var idx := IndexOf(lowerQuery[start..], lowerSep);
      if idx == -1 {
        PiecesLast(query, lowerQuery, lowerSep, start);
        parts := parts + [TrimSpace(query[start..])];
        break;
      }
      var next := start + idx + |sep|;
      SplitStep(query, lowerQuery, lowerSep, start, idx, next, parts, all);
      parts := parts + [TrimSpace(query[start..start + idx])];
      start := next;
    }
  }

  /** Lower-cased, the pieces of one list are those of the other, position by position. */
  predicate LowerAgree(ps: seq<string>, ss: seq<string>)
  {
    |ps| == |ss| && forall i :: 0 <= i < |ps| ==> ToLower(ps[i]) == ss[i]
  }

  lemma LowerAgreeCons(p: string, s: string, ps: seq<string>, ss: seq<string>)
    requires ToLower(p) == s && LowerAgree(ps, ss)
    ensures LowerAgree([p] + ps, [s] + ss)
  {
    forall i | 0 <= i < |ps| + 1
      ensures ToLower(([p] + ps)[i]) == ([s] + ss)[i]
    {
      if i > 0 {
        assert ([p] + ps)[i] == ps[i - 1] && ([s] + ss)[i] == ss[i - 1];
      }
    }
  }

  /** The pieces are cut where the separator occurs regardless of case: lower-cased, they are
      exactly the pieces strings.Split gives on the lower-cased query and separator. */
  lemma {:induction false} PiecesAreLowerSplit(q: string, L: string, lsep: string, start: nat)
    requires lsep != [] && L == ToLower(q) && start <= |q|
    ensures LowerAgree(Pieces(q, L, lsep, start), Split(L[start..], lsep))
    decreases |q| - start
  {
    var idx := IndexOf(L[start..], lsep);
    if idx >= 0 {
      PiecesStep(q, L, lsep, start, idx);
      SplitStepLower(L, lsep, start, idx);
      PiecesAreLowerSplit(q, L, lsep, start + idx + |lsep|);
      LowerSlice(q, start, start + idx);
      LowerAgreeCons(q[start..start + idx], L[start..start + idx],
                     Pieces(q, L, lsep, start + idx + |lsep|), Split(L[start + idx + |lsep|..], lsep));
    } else {
      LowerSlice(q, start, |q|);
      PiecesLast(q, L, lsep, start);
      LowerAgreeOne(q[start..], L[start..]);
    }
  }

  /** strings.Split on a suffix of `L`, cutting at its first separator. */
  lemma SplitStepLower(L: string, lsep: string, start: nat, idx: int)
    requires lsep != [] && start <= |L| && idx == IndexOf(L[start..], lsep) && idx >= 0
    ensures start + idx + |lsep| <= |L|
    ensures Split(L[start..], lsep) == [L[start..start + idx]] + Split(L[start + idx + |lsep|..], lsep)
  {
    SplitAt(L[start..], lsep, idx);
    SuffixSlices(L, start, idx, idx + |lsep|);
  }

  /** Slices of a suffix are slices of the whole. */
  lemma SuffixSlices(L: string, start: nat, a: nat, b: nat)
    requires start + b <= |L| && a <= b
    ensures L[start..][..a] == L[start..start + a]
    ensures L[start..][b..] == L[start + b..]
  {
  }

  lemma SplitAt(s: string, sep: string, idx: int)
    requires sep != [] && idx == IndexOf(s, sep) && idx >= 0
    ensures Split(s, sep) == [s[..idx]] + Split(s[idx + |sep|..], sep)
  {
  }

  lemma LowerAgreeOne(p: string, s: string)
    requires ToLower(p) == s
    ensures LowerAgree([p], [s])
  {
  }

  /** Hence the number of parts is one more than the number of non-overlapping occurrences of
      the separator, ignoring case: re-joined with it, the lower-cased pieces give back the
      lower-cased query, and none of them contains it. */
  lemma SplitQueryCount(q: string, sep: string)
    requires sep != []
    ensures var ss := Split(ToLower(q), ToLower(sep));
      && |SplitQuery(q, sep)| == |ss|
      && Join(ss, ToLower(sep)) == ToLower(q)
      && forall p :: p in ss ==> !Contains(p, ToLower(sep))
  {
    PiecesAreLowerSplit(q, ToLower(q), ToLower(sep), 0);
    assert ToLower(q)[0..] == ToLower(q);
    JoinSplit(ToLower(q), ToLower(sep));
    SplitPiecesFree(ToLower(q), ToLower(sep));
  }

  // ---------------------------------------------------------------------------
  // Conditions
  // ---------------------------------------------------------------------------

  datatype Operator = Tilde | Caret | Dollar | Equal | Colon

  function Symbol(op: Operator): char
  {
    match op
    case Tilde => '~'
    case Caret => '^'
    case Dollar => '$'
    case Equal => '='
    case Colon => ':'
  }

  /** The order in which the operators are looked for. */
  const OperatorOrder: seq<Operator> := [Tilde, Caret, Dollar, Equal, Colon]

  /** The first operator of `ops`, in list order, that occurs anywhere in `c`: its position in
      `ops` and the index of its first occurrence in `c`. */
  function FirstOperator(c: string, ops: seq<Operator>): (r: Option<(nat, nat)>)
    ensures r.Some? ==> var (k, idx) := r.value;
      && k < |ops| && idx < |c| && c[idx] == Symbol(ops[k]) && Symbol(ops[k]) !in c[..idx]
      && forall m :: 0 <= m < k ==> Symbol(ops[m]) !in c
    ensures r.None? <==> forall m :: 0 <= m < |ops| ==> Symbol(ops[m]) !in c
  {
    if ops == [] then None
    else
      IndexOfCharFirst(c, Symbol(ops[0]));
      var idx := IndexOf(c, [Symbol(ops[0])]);
      if idx != -1 then Some((0, idx))
      else
        match FirstOperator(c, ops[1..])
        case None => None
        case Some((k, i)) => Some((k + 1, i))
  }

  /** A condition split at its operator, both sides trimmed. */
  datatype Condition = Condition(attr: string, op: Operator, value: string)

  function ParseCondition(c: string): Option<Condition>
  {
    match FirstOperator(c, OperatorOrder)
    case None => None
    case Some((k, idx)) => Some(Condition(TrimSpace(c[..idx]), OperatorOrder[k], TrimSpace(c[idx + 1..])))
  }

  /** The fallback search: the lower-cased condition as a substring of the lower-cased text,
      content description or resource id. */
  predicate TextSearch(n: UINode, c: string)
  {
    var lc := ToLower(c);
    Contains(ToLower(n.text), lc) || Contains(ToLower(n.contentDesc), lc) || Contains(ToLower(n.resourceId), lc)
  }

  /** What each operator tests of the lower-cased attribute value against the lower-cased value. */
  predicate Compare(op: Operator, attrValue: string, value: string)
  {
    match op
    case Equal => attrValue == value
    case Colon => Contains(attrValue, value)
    case Tilde => Contains(attrValue, value)
    case Caret => HasPrefix(attrValue, value)
    case Dollar => HasSuffix(attrValue, value)
  }

  /** evaluateAdvancedCondition. A condition without an operator, or whose attribute name is
      empty, is a search for the whole trimmed condition (operator included). */
  predicate EvaluateCondition(n: UINode, condition: string, o: Oracles)
  {
    var c := TrimSpace(condition);
    match ParseCondition(c)
    case None => TextSearch(n, c)
    case Some(cond) =>
      if cond.attr == [] then TextSearch(n, c)
      else Compare(cond.op, ToLower(o.attribute(n, cond.attr)), ToLower(cond.value))
  }

  /** matchAdvancedQuery: false on a blank query; otherwise any of the OR parts, if there are
      several; otherwise all of the AND parts, if there are several; otherwise one condition. */
  predicate MatchAdvanced(n: UINode, query: string, o: Oracles)
    decreases |query|
  {
    var q := TrimSpace(query);
    if q == [] then false
    else
      var orParts := SplitQuery(q, " OR ");
      if |orParts| > 1 then exists i :: 0 <= i < |orParts| && MatchAdvanced(n, orParts[i], o)
      else
        var andParts := SplitQuery(q, " AND ");
        if |andParts| > 1 then forall i :: 0 <= i < |andParts| ==> MatchAdvanced(n, andParts[i], o)
        else EvaluateCondition(n, q, o)
  }

  // ---------------------------------------------------------------------------
  // Properties
  // ---------------------------------------------------------------------------

  lemma SymbolsDistinct(a: Operator, b: Operator)
    ensures Symbol(a) == Symbol(b) <==> a == b
  {
  }

  /** The position of an operator in the search order. */
  function OrderIndex(op: Operator): (k: nat)
    ensures k < |OperatorOrder| && OperatorOrder[k] == op
    ensures forall m :: 0 <= m < |OperatorOrder| && OperatorOrder[m] == op ==> m == k
  {
    match op case Tilde => 0 case Caret => 1 case Dollar => 2 case Equal => 3 case Colon => 4
  }

  /** A character that is not an operator symbol. */
  predicate NoOperatorChar(ch: char)
  {
    forall m :: 0 <= m < |OperatorOrder| ==> ch != Symbol(OperatorOrder[m])
  }

  /** When the only operator character of `c` is at `p`, that is the one chosen. */
  lemma OnlyOperatorAt(c: string, op: Operator, p: nat)
    requires p < |c| && c[p] == Symbol(op)
    requires forall j :: 0 <= j < |c| && j != p ==> NoOperatorChar(c[j])
    ensures FirstOperator(c, OperatorOrder) == Some((OrderIndex(op), p))
  {
    var r := FirstOperator(c, OperatorOrder);
    var k := OrderIndex(op);
    assert Symbol(OperatorOrder[k]) in c;
    var (k', idx) := r.value;
    assert idx == p by {
      assert c[idx] == Symbol(OperatorOrder[k']);
      assert !NoOperatorChar(c[idx]);
    }
    SymbolsDistinct(OperatorOrder[k'], op);
  }

  /** The operator characters of `attr + [Symbol(op)] + value` when its sides hold none. */
  lemma SidesFree(attr: string, op: Operator, value: string)
    requires forall i :: 0 <= i < |attr| ==> NoOperatorChar(attr[i])
    requires forall i :: 0 <= i < |value| ==> NoOperatorChar(value[i])
    ensures var c := attr + [Symbol(op)] + value;
      forall j :: 0 <= j < |c| && j != |attr| ==> NoOperatorChar(c[j])
  {
    var c := attr + [Symbol(op)] + value;
    forall j | 0 <= j < |c| && j != |attr|
      ensures NoOperatorChar(c[j])
    {
      if j < |attr| {
        assert c[j] == attr[j];
      } else {
        assert c[j] == value[j - |attr| - 1];
      }
    }
  }

  /** The operator chosen is the first of the list that occurs, not the leftmost in the text:
      in `id=a~b` the `~` wins although `=` comes first. */
  lemma ListOrderNotLeftmost()
    ensures ParseCondition("id=a~b") == Some(Condition("id=a", Tilde, "b"))
  {
    var c := "id=a~b";
    IndexOfCharFirst(c, '~');
    assert c[4] == '~' && '~' !in c[..4];
    assert IndexOf(c, "~") == 4;
    assert FirstOperator(c, OperatorOrder) == Some((0, 4));
    assert c[..4] == "id=a" && c[5..] == "b";
    TrimSpaceOfTrimmed("id=a");
    TrimSpaceOfTrimmed("b");
  }

  /** A condition `attr<op>value` whose two sides hold no operator character, with a non-blank
      attribute, applies that operator to the lower-cased attribute value and value. */
  lemma EvaluateWithOperator(n: UINode, attr: string, op: Operator, value: string, o: Oracles)
    requires attr != [] && !IsSpace(attr[0])
    requires value != [] ==> !IsSpace(value[|value| - 1])
    requires forall i :: 0 <= i < |attr| ==> NoOperatorChar(attr[i])
    requires forall i :: 0 <= i < |value| ==> NoOperatorChar(value[i])
    ensures EvaluateCondition(n, attr + [Symbol(op)] + value, o)
        == Compare(op, ToLower(o.attribute(n, TrimSpace(attr))), ToLower(TrimSpace(value)))
  {
    var c := attr + [Symbol(op)] + value;
    TrimSpaceOfTrimmed(c);
    ParseWithOperator(attr, op, value);
    TrimNonBlank(attr);
  }

  /** The split of such a condition: its two sides, trimmed, around its one operator. */
  lemma ParseWithOperator(attr: string, op: Operator, value: string)
    requires forall i :: 0 <= i < |attr| ==> NoOperatorChar(attr[i])
    requires forall i :: 0 <= i < |value| ==> NoOperatorChar(value[i])
    ensures ParseCondition(attr + [Symbol(op)] + value) == Some(Condition(TrimSpace(attr), op, TrimSpace(value)))
  {
    var c := attr + [Symbol(op)] + value;
    SidesFree(attr, op, value);
    OnlyOperatorAt(c, op, |attr|);
    assert c[..|attr|] == attr && c[|attr| + 1..] == value;
  }

  /** A string starting with a non-space character does not trim to nothing. */
  lemma TrimNonBlank(s: string)
    requires s != [] && !IsSpace(s[0])
    ensures TrimSpace(s) != []
  {
    assert SpanFrom(IsSpace, s, 0) == 0;
  }

  /** A condition holding none of the operator characters is a text search. */
  lemma EvaluateWithoutOperator(n: UINode, condition: string, o: Oracles)
    requires forall i :: 0 <= i < |condition| ==> NoOperatorChar(condition[i])
    ensures EvaluateCondition(n, condition, o) == TextSearch(n, TrimSpace(condition))
  {
    var c := TrimSpace(condition);
    var a := SpanFrom(IsSpace, condition, 0);
    assert c == condition[a..a + |c|];
    forall j | 0 <= j < |c|
      ensures NoOperatorChar(c[j])
    {
      assert c[j] == condition[a + j];
    }
  }

  /** A condition starting with an operator has an empty attribute name, and so searches for the
      whole condition, operator included. */
  lemma EvaluateLeadingOperator(n: UINode, op: Operator, value: string, o: Oracles)
    requires value != [] ==> !IsSpace(value[|value| - 1])
    requires forall i :: 0 <= i < |value| ==> NoOperatorChar(value[i])
    ensures EvaluateCondition(n, [Symbol(op)] + value, o) == TextSearch(n, [Symbol(op)] + value)
  {
    var c := [Symbol(op)] + value;
    TrimSpaceOfTrimmed(c);
    SidesFree([], op, value);
    assert [] + [Symbol(op)] + value == c;
    OnlyOperatorAt(c, op, 0);
    assert c[..0] == [];
  }

  /** Equality implies the other four tests, and a prefix or suffix is also contained. */
  lemma CompareImplications(attrValue: string, value: string)
    ensures Compare(Equal, attrValue, value) ==>
      Compare(Caret, attrValue, value) && Compare(Dollar, attrValue, value) && Compare(Colon, attrValue, value)
    ensures Compare(Caret, attrValue, value) ==> Compare(Colon, attrValue, value)
    ensures Compare(Dollar, attrValue, value) ==> Compare(Colon, attrValue, value)
    ensures Compare(Colon, attrValue, value) == Compare(Tilde, attrValue, value)
  {
    if HasPrefix(attrValue, value) {
      ContainsAt(attrValue, value, 0);
    }
    if HasSuffix(attrValue, value) {
      ContainsAt(attrValue, value, |attrValue| - |value|);
    }
  }

  /** A blank query matches nothing. */
  lemma BlankQueryMatchesNothing(n: UINode, query: string, o: Oracles)
    requires forall i :: 0 <= i < |query| ==> IsSpace(query[i])
    ensures !MatchAdvanced(n, query, o)
  {
  }

  /** The two separators, lower-cased. */
  lemma LowerSeparators()
    ensures ToLower(" OR ") == " or " && ToLower(" AND ") == " and "
  {
    assert ToLower(" OR ") == " or ";
    assert ToLower(" AND ") == " and ";
  }

  /** A query in which neither separator occurs, in any case, is a single condition. */
  lemma SingleCondition(n: UINode, query: string, o: Oracles)
    requires TrimSpace(query) != []
    requires !Contains(ToLower(TrimSpace(query)), " or ") && !Contains(ToLower(TrimSpace(query)), " and ")
    ensures MatchAdvanced(n, query, o) == EvaluateCondition(n, TrimSpace(query), o)
  {
    var q := TrimSpace(query);
    LowerSeparators();
    assert ToLower(q)[0..] == ToLower(q);
    PiecesLast(q, ToLower(q), " or ", 0);
    PiecesLast(q, ToLower(q), " and ", 0);
  }

  /** A single word, free of white space and operator characters, is a text search for itself. */
  lemma MatchWord(n: UINode, w: string, o: Oracles)
    requires w != []
    requires forall i :: 0 <= i < |w| ==> !IsSpace(w[i]) && NoOperatorChar(w[i])
    ensures MatchAdvanced(n, w, o) == TextSearch(n, w)
  {
    TrimSpaceOfTrimmed(w);
    assert ' ' !in ToLower(w);
    IndexOfMissingChar(ToLower(w), " or ", 0);
    IndexOfMissingChar(ToLower(w), " and ", 0);
    SingleCondition(n, w, o);
    EvaluateWithoutOperator(n, w, o);
  }

  // ---------------------------------------------------------------------------
  // Queries built with AND and OR
  // ---------------------------------------------------------------------------

  /** No occurrence of the lower-cased separator `lsep` starts inside the lower-cased `p`, not
      even one running on into a copy of the separator right after it. */
  predicate SeparatorFree(p: string, lsep: string)
  {
    forall j :: 0 <= j < |p| ==> !IsAt(ToLower(p) + lsep, lsep, j)
  }

  /** After a separator-free piece, the first separator is the one that follows it. */
  lemma FirstSeparatorAfter(p: string, lsep: string, rest: string)
    requires lsep != [] && SeparatorFree(p, lsep)
    ensures IndexOf(ToLower(p) + lsep + rest, lsep) == |p|
  {
    var u := ToLower(p) + lsep;
    var t := u + rest;
    assert t[|p|..|p| + |lsep|] == lsep;
    assert IsAt(t, lsep, |p|);
    forall j | 0 <= j < |p|
      ensures !IsAt(t, lsep, j)
    {
      assert !IsAt(u, lsep, j);
      assert t[j..j + |lsep|] == u[j..j + |lsep|];
    }
  }

  /** A separator-free piece holds no separator at all. */
  lemma NoSeparatorIn(p: string, lsep: string)
    requires lsep != [] && SeparatorFree(p, lsep)
    ensures IndexOf(ToLower(p), lsep) == -1
  {
    var u := ToLower(p) + lsep;
    forall j | 0 <= j
      ensures !IsAt(ToLower(p), lsep, j)
    {
      if j + |lsep| <= |p| {
        assert !IsAt(u, lsep, j);
        assert u[j..j + |lsep|] == ToLower(p)[j..j + |lsep|];
      }
    }
  }

  /** Each of `ps` is separator-free. */
  predicate AllSeparatorFree(ps: seq<string>, lsep: string)
    decreases |ps|
  {
    ps == [] || (SeparatorFree(ps[0], lsep) && AllSeparatorFree(ps[1..], lsep))
  }

  lemma {:induction false} AllSeparatorFreeOf(ps: seq<string>, lsep: string)
    requires forall i :: 0 <= i < |ps| ==> SeparatorFree(ps[i], lsep)
    ensures AllSeparatorFree(ps, lsep)
    decreases |ps|
  {
    if ps != [] {
      assert SeparatorFree(ps[0], lsep);
      var tail := ps[1..];
      forall i | 0 <= i < |tail|
        ensures SeparatorFree(tail[i], lsep)
      {
        assert tail[i] == ps[i + 1];
      }
      AllSeparatorFreeOf(tail, lsep);
    }
  }

  /** Separator-free pieces joined with the separator, from `start` on, are cut back into
      those pieces. */
  lemma {:induction false} PiecesOfJoin(q: string, sep: string, start: nat, ps: seq<string>)
    requires ps != [] && sep != [] && start <= |q| && q[start..] == Join(ps, sep)
    requires AllSeparatorFree(ps, ToLower(sep))
    ensures Pieces(q, ToLower(q), ToLower(sep), start) == ps
    decreases |ps|
  {
    if |ps| == 1 {
      assert Join(ps, sep) == ps[0];
      LastPiece(q, sep, start, ps[0]);
      assert ps == [ps[0]];
    } else {
      var tail := ps[1..];
      var rest := Join(tail, sep);
      assert Join(ps, sep) == ps[0] + sep + rest;
      SuffixAfter(q, start, ps[0], sep, rest);
      PiecesOfJoin(q, sep, start + |ps[0]| + |sep|, tail);
      assert ps == [ps[0]] + tail;
      HeadPiece(q, sep, start, ps[0], rest, tail, ps);
    }
  }

  /** A separator-free suffix is the last piece. */
  lemma LastPiece(q: string, sep: string, start: nat, p: string)
    requires sep != [] && start <= |q| && q[start..] == p
    requires SeparatorFree(p, ToLower(sep))
    ensures Pieces(q, ToLower(q), ToLower(sep), start) == [p]
  {
    LowerSuffix(q, start);
    NoSeparatorIn(p, ToLower(sep));
    PiecesLast(q, ToLower(q), ToLower(sep), start);
  }

  /** What follows a piece and a separator at `start`. */
  lemma SuffixAfter(q: string, start: nat, p: string, sep: string, rest: string)
    requires start <= |q| && q[start..] == p + sep + rest
    ensures start + |p| + |sep| <= |q| && q[start + |p| + |sep|..] == rest
  {
    assert q[start + |p| + |sep|..] == q[start..][|p| + |sep|..];
  }

  /** A separator-free piece at `start`, in front of the pieces that follow its separator. */
  lemma HeadPiece(q: string, sep: string, start: nat, p: string, rest: string,
                  tail: seq<string>, ps: seq<string>)
    requires sep != [] && start <= |q| && q[start..] == p + sep + rest
    requires SeparatorFree(p, ToLower(sep))
    requires start + |p| + |sep| <= |q|
    requires Pieces(q, ToLower(q), ToLower(sep), start + |p| + |sep|) == tail
    requires ps == [p] + tail
    ensures Pieces(q, ToLower(q), ToLower(sep), start) == ps
  {
    PieceAt(q, sep, start, p, rest);
    ConsPiece(q, sep, start, p, tail, ps);
  }

  /** The first piece of a suffix `p + sep + rest` with a separator-free `p`. */
  lemma PieceAt(q: string, sep: string, start: nat, p: string, rest: string)
    requires sep != [] && start <= |q| && q[start..] == p + sep + rest
    requires SeparatorFree(p, ToLower(sep))
    ensures start + |p| + |sep| <= |q|
    ensures Pieces(q, ToLower(q), ToLower(sep), start)
         == [p] + Pieces(q, ToLower(q), ToLower(sep), start + |p| + |sep|)
  {
    var lsep := ToLower(sep);
    LowerSuffixSplit(q, start, p, sep, rest);
    FirstSeparatorAfter(p, lsep, ToLower(rest));
    PiecesAfter(q, ToLower(q), lsep, start, p, start + |p| + |sep|);
  }

  /** The head piece in front of the pieces that follow it. */
  lemma ConsPiece(q: string, sep: string, start: nat, p: string, tail: seq<string>, ps: seq<string>)
    requires sep != [] && start + |p| + |sep| <= |q|
    requires Pieces(q, ToLower(q), ToLower(sep), start)
          == [p] + Pieces(q, ToLower(q), ToLower(sep), start + |p| + |sep|)
    requires Pieces(q, ToLower(q), ToLower(sep), start + |p| + |sep|) == tail
    requires ps == [p] + tail
    ensures Pieces(q, ToLower(q), ToLower(sep), start) == ps
  {
  }

  lemma LowerSuffix(q: string, start: nat)
    requires start <= |q|
    ensures ToLower(q)[start..] == ToLower(q[start..])
  {
    LowerSlice(q, start, |q|);
    assert q[start..|q|] == q[start..] && ToLower(q)[start..|q|] == ToLower(q)[start..];
  }

  /** A suffix made of a piece, a separator and the rest, lower-cased, and where each part sits. */
  lemma LowerSuffixSplit(q: string, start: nat, p: string, sep: string, rest: string)
    requires start <= |q| && q[start..] == p + sep + rest
    ensures ToLower(q)[start..] == ToLower(p) + ToLower(sep) + ToLower(rest)
    ensures q[start..start + |p|] == p && q[start + |p| + |sep|..] == rest
  {
    LowerSuffix(q, start);
    LowerConcat(p + sep, rest);
    LowerConcat(p, sep);
    assert q[start + |p| + |sep|..] == q[start..][|p| + |sep|..];
    assert q[start..start + |p|] == q[start..][..|p|];
  }

  /** The piece `p` found at `start`, and the scan goes on at `next`. */
  lemma PiecesAfter(q: string, lq: string, lsep: string, start: nat, p: string, next: nat)
    requires lsep != [] && |lq| == |q| && start <= |q| && IndexOf(lq[start..], lsep) == |p|
    requires q[start..start + |p|] == p && next == start + |p| + |lsep|
    ensures Pieces(q, lq, lsep, start) == [p] + Pieces(q, lq, lsep, next)
  {
    PiecesStep(q, lq, lsep, start, |p|);
  }

  lemma {:induction false} TrimmedFixed(ps: seq<string>)
    requires forall i :: 0 <= i < |ps| ==> TrimSpace(ps[i]) == ps[i]
    ensures Trimmed(ps) == ps
  {
    if ps != [] {
      TrimmedFixed(ps[1..]);
      assert ps == [ps[0]] + ps[1..];
    }
  }

  /** Trimmed, separator-free parts joined with the separator split back into those parts. */
  lemma SplitQueryOfJoin(ps: seq<string>, sep: string)
    requires ps != [] && sep != []
    requires forall i :: 0 <= i < |ps| ==> SeparatorFree(ps[i], ToLower(sep)) && TrimSpace(ps[i]) == ps[i]
    ensures SplitQuery(Join(ps, sep), sep) == ps
  {
    assert Join(ps, sep)[0..] == Join(ps, sep);
    AllSeparatorFreeOf(ps, ToLower(sep));
    PiecesOfJoin(Join(ps, sep), sep, 0, ps);
    TrimmedFixed(ps);
  }

  /** Lower-casing keeps a character that is not white space clear of the space character. */
  lemma LowerNotBlank(c: char)
    requires !IsSpace(c)
    ensures LowerChar(c) != ' '
  {
  }

  /** A word holds no separator that starts with a space. */
  lemma WordSeparatorFree(w: string, lsep: string)
    requires IsWordRun(w) && lsep != [] && lsep[0] == ' '
    ensures SeparatorFree(w, lsep)
  {
    var t := ToLower(w) + lsep;
    forall j | 0 <= j < |w|
      ensures !IsAt(t, lsep, j)
    {
      LowerNotBlank(w[j]);
      assert t[j..j + |lsep|][0] == t[j] == LowerChar(w[j]);
    }
  }

  /** A word is a single condition. */
  lemma WordCondition(n: UINode, w: string, o: Oracles)
    requires IsWordRun(w)
    ensures MatchAdvanced(n, w, o) == EvaluateCondition(n, w, o)
  {
    TrimSpaceOfTrimmed(w);
    WordSeparatorFree(w, " or ");
    WordSeparatorFree(w, " and ");
    NoSeparatorIn(w, " or ");
    NoSeparatorIn(w, " and ");
    SingleCondition(n, w, o);
  }

  /** Words joined by single space-led separators, lower-cased and followed by a space-led tail,
      start with the first word lower-cased and a space. */
  lemma HeadWord(ws: seq<string>, sep: string, tail: string)
    requires ws != [] && IsWordRun(ws[0]) && sep != [] && sep[0] == ' ' && tail != [] && tail[0] == ' '
    ensures var t := ToLower(Join(ws, sep)) + tail;
      |ws[0]| < |t| && t[..|ws[0]|] == ToLower(ws[0]) && t[|ws[0]|] == ' '
  {
    if |ws| > 1 {
      var rest := Join(ws[1..], sep);
      assert Join(ws, sep) == ws[0] + sep + rest;
      LowerConcat(ws[0] + sep, rest);
      LowerConcat(ws[0], sep);
    }
  }

  /** A lower-cased word other than `or`, followed by a space, does not begin `or `. */
  lemma NotOrStart(b: string, t: string)
    requires IsWordRun(b) && b != "or" && |b| < |t| && t[..|b|] == b && t[|b|] == ' '
    ensures !HasPrefix(t, "or ")
  {
    if |t| >= 3 {
      if |b| >= 3 {
        assert t[..3][2] == b[2];
      } else if |b| == 2 {
        assert t[..3][..2] == b;
      } else {
        assert t[..3][1] == t[1];
      }
    }
  }

  /** Words joined with AND hold no OR separator, not even one running on into an OR after
      them, when no word after the first is `or` in any case (such a word would itself read as
      part of an OR separator). */
  lemma {:induction false} AndJoinFree(cs: seq<string>)
    requires cs != [] && forall i :: 0 <= i < |cs| ==> IsWordRun(cs[i])
    requires forall i :: 0 < i < |cs| ==> ToLower(cs[i]) != "or"
    ensures SeparatorFree(Join(cs, " AND "), " or ")
  {
    if |cs| == 1 {
      WordSeparatorFree(cs[0], " or ");
    } else {
      var q := Join(cs, " AND ");
      var rest := Join(cs[1..], " AND ");
      AndJoinFree(cs[1..]);
      assert q == cs[0] + " AND " + rest;
      LowerConcat(cs[0] + " AND ", rest);
      LowerConcat(cs[0], " AND ");
      LowerSeparators();
      var a := ToLower(cs[0]);
      var t1 := ToLower(rest) + " or ";
      var t := ToLower(q) + " or ";
      assert t == a + " and " + t1;
      HeadWord(cs[1..], " AND ", " or ");
      forall k | 0 <= k < |a|
        ensures a[k] != ' '
      {
        LowerNotBlank(cs[0][k]);
      }
      forall j | 0 <= j < |q|
        ensures !IsAt(t, " or ", j)
      {
        if j >= |a| + 5 {
          assert !IsAt(t1, " or ", j - |a| - 5);
        }
        NoOrAt(a, t1, ToLower(cs[1]), j);
      }
    }
  }

  /** No `or` separator starts at `j` in a lower-cased word, `and`, and what follows it, when
      that is a lower-cased word other than `or` and a space, and holds none itself. */
  lemma NoOrAt(a: string, t1: string, b: string, j: nat)
    requires forall k :: 0 <= k < |a| ==> a[k] != ' '
    requires IsWordRun(b) && b != "or" && |b| < |t1| && t1[..|b|] == b && t1[|b|] == ' '
    requires j + 4 <= |a| + 5 + |t1|
    requires j >= |a| + 5 ==> !IsAt(t1, " or ", j - |a| - 5)
    ensures !IsAt(a + " and " + t1, " or ", j)
  {
    var m := |a|;
    var pre := a + " and ";
    var t := pre + t1;
    assert |pre| == m + 5;
    assert pre[m] == ' ' && pre[m + 1] == 'a' && pre[m + 2] == 'n' && pre[m + 3] == 'd' && pre[m + 4] == ' ';
    var w := t[j..j + 4];
    if j < m {
      assert w[0] == t[j] == a[j];
    } else if j == m {
      assert w[1] == t[j + 1] == 'a';
    } else if j < m + 4 {
      assert w[0] == t[j] == pre[j];
    } else if j == m + 4 {
      NotOrStart(b, t1);
      assert w[1..] == t1[..3];
    } else {
      assert w == t1[j - m - 5..j - m - 5 + 4];
    }
  }

  /** A trimmed query that splits into several OR parts holds when one of them does. */
  lemma MatchOrSplit(n: UINode, q: string, parts: seq<string>, o: Oracles)
    requires TrimSpace(q) == q && q != [] && SplitQuery(q, " OR ") == parts && |parts| > 1
    ensures MatchAdvanced(n, q, o) <==> exists i :: 0 <= i < |parts| && MatchAdvanced(n, parts[i], o)
  {
  }

  /** A trimmed query with no OR part but several AND parts holds when all of them do. */
  lemma MatchAndSplit(n: UINode, q: string, parts: seq<string>, o: Oracles)
    requires TrimSpace(q) == q && q != [] && |SplitQuery(q, " OR ")| == 1
    requires SplitQuery(q, " AND ") == parts && |parts| > 1
    ensures MatchAdvanced(n, q, o) <==> forall i :: 0 <= i < |parts| ==> MatchAdvanced(n, parts[i], o)
  {
  }

  /** Single-word conditions joined with OR: the query holds exactly when one of them does. */
  lemma MatchOrJoin(n: UINode, cs: seq<string>, o: Oracles)
    requires cs != [] && forall i :: 0 <= i < |cs| ==> IsWordRun(cs[i])
    ensures MatchAdvanced(n, Join(cs, " OR "), o) <==> exists i :: 0 <= i < |cs| && EvaluateCondition(n, cs[i], o)
  {
    var q := Join(cs, " OR ");
    LowerSeparators();
    forall i | 0 <= i < |cs|
      ensures SeparatorFree(cs[i], ToLower(" OR ")) && TrimSpace(cs[i]) == cs[i]
      ensures MatchAdvanced(n, cs[i], o) == EvaluateCondition(n, cs[i], o)
    {
      WordSeparatorFree(cs[i], " or ");
      TrimSpaceOfTrimmed(cs[i]);
      WordCondition(n, cs[i], o);
    }
    if |cs| > 1 {
      JoinEnds(cs, " OR ");
      TrimSpaceOfTrimmed(q);
      SplitQueryOfJoin(cs, " OR ");
      MatchOrSplit(n, q, cs, o);
    } else {
      assert q == cs[0];
      OneOf(n, cs, o);
    }
  }

  lemma OneOf(n: UINode, cs: seq<string>, o: Oracles)
    requires |cs| == 1
    ensures EvaluateCondition(n, cs[0], o) <==> exists i :: 0 <= i < |cs| && EvaluateCondition(n, cs[i], o)
    ensures EvaluateCondition(n, cs[0], o) <==> forall i :: 0 <= i < |cs| ==> EvaluateCondition(n, cs[i], o)
  {
    assert forall i :: 0 <= i < |cs| ==> cs[i] == cs[0];
  }

  /** Single-word conditions joined with AND: the query holds exactly when all of them do. */
  lemma MatchAndJoin(n: UINode, cs: seq<string>, o: Oracles)
    requires cs != [] && forall i :: 0 <= i < |cs| ==> IsWordRun(cs[i])
    requires forall i :: 0 < i < |cs| ==> ToLower(cs[i]) != "or"
    ensures MatchAdvanced(n, Join(cs, " AND "), o) <==> forall i :: 0 <= i < |cs| ==> EvaluateCondition(n, cs[i], o)
  {
    var q := Join(cs, " AND ");
    LowerSeparators();
    forall i | 0 <= i < |cs|
      ensures SeparatorFree(cs[i], ToLower(" AND ")) && TrimSpace(cs[i]) == cs[i]
      ensures MatchAdvanced(n, cs[i], o) == EvaluateCondition(n, cs[i], o)
    {
      WordSeparatorFree(cs[i], " and ");
      TrimSpaceOfTrimmed(cs[i]);
      WordCondition(n, cs[i], o);
    }
    if |cs| > 1 {
      JoinEnds(cs, " AND ");
      TrimSpaceOfTrimmed(q);
      AndJoinFree(cs);
      LowerSeparators();
      assert Join([q], " OR ") == q;
      SplitQueryOfJoin([q], " OR ");
      SplitQueryOfJoin(cs, " AND ");
      MatchAndSplit(n, q, cs, o);
    } else {
      assert q == cs[0];
      OneOf(n, cs, o);
    }
  }

  /** Each group joined with AND. */
  function AndJoins(groups: seq<seq<string>>): (r: seq<string>)
    ensures |r| == |groups| && forall i :: 0 <= i < |groups| ==> r[i] == Join(groups[i], " AND ")
  {
    seq(|groups|, i requires 0 <= i < |groups| => Join(groups[i], " AND "))
  }

  /** Every condition of a group holds. */
  predicate AllConditions(n: UINode, g: seq<string>, o: Oracles)
  {
    forall k :: 0 <= k < |g| ==> EvaluateCondition(n, g[k], o)
  }

  /** Groups of AND-ed single-word conditions, OR-ed together: the query holds exactly when
      every condition of some group holds, so AND binds tighter than OR. */
  lemma MatchOrOfAnds(n: UINode, groups: seq<seq<string>>, o: Oracles)
    requires groups != []
    requires forall i :: 0 <= i < |groups| ==> groups[i] != []
    requires forall i, k :: 0 <= i < |groups| && 0 <= k < |groups[i]| ==> IsWordRun(groups[i][k])
    requires forall i, k :: 0 <= i < |groups| && 0 < k < |groups[i]| ==> ToLower(groups[i][k]) != "or"
    ensures MatchAdvanced(n, Join(AndJoins(groups), " OR "), o) <==>
      exists i :: 0 <= i < |groups| && AllConditions(n, groups[i], o)
  {
    var ps := AndJoins(groups);
    var q := Join(ps, " OR ");
    LowerSeparators();
    forall i | 0 <= i < |groups|
      ensures ps[i] != [] && SeparatorFree(ps[i], ToLower(" OR ")) && TrimSpace(ps[i]) == ps[i]
      ensures MatchAdvanced(n, ps[i], o) <==> AllConditions(n, groups[i], o)
    {
      JoinEnds(groups[i], " AND ");
      TrimSpaceOfTrimmed(ps[i]);
      AndJoinFree(groups[i]);
      MatchAndJoin(n, groups[i], o);
    }
    if |groups| > 1 {
      JoinEnds(ps, " OR ");
      TrimSpaceOfTrimmed(q);
      SplitQueryOfJoin(ps, " OR ");
      MatchOrSplit(n, q, ps, o);
      OrOfParts(n, q, ps, groups, o);
    } else {
      assert q == ps[0];
      OneGroup(n, q, groups, o);
    }
  }

  lemma OneGroup(n: UINode, q: string, groups: seq<seq<string>>, o: Oracles)
    requires |groups| == 1 && (MatchAdvanced(n, q, o) <==> AllConditions(n, groups[0], o))
    ensures MatchAdvanced(n, q, o) <==> exists i :: 0 <= i < |groups| && AllConditions(n, groups[i], o)
  {
    assert forall i :: 0 <= i < |groups| ==> groups[i] == groups[0];
  }

  lemma OrOfParts(n: UINode, q: string, ps: seq<string>, groups: seq<seq<string>>, o: Oracles)
    requires |ps| == |groups|
    requires MatchAdvanced(n, q, o) <==> exists i :: 0 <= i < |ps| && MatchAdvanced(n, ps[i], o)
    requires forall i :: 0 <= i < |ps| ==> (MatchAdvanced(n, ps[i], o) <==> AllConditions(n, groups[i], o))
    ensures MatchAdvanced(n, q, o) <==> exists i :: 0 <= i < |groups| && AllConditions(n, groups[i], o)
  {
  }

  /** `a AND b OR c` reads as `(a AND b) OR c`. */
  lemma AndBindsTighter(n: UINode, a: string, b: string, c: string, o: Oracles)
    requires IsWordRun(a) && IsWordRun(b) && IsWordRun(c) && ToLower(b) != "or"
    ensures MatchAdvanced(n, a + " AND " + b + " OR " + c, o) <==>
      (EvaluateCondition(n, a, o) && EvaluateCondition(n, b, o)) || EvaluateCondition(n, c, o)
  {
    var groups := [[a, b], [c]];
    MatchOrOfAnds(n, groups, o);
    TwoGroupsQuery(a, b, c);
    TwoGroups(n, groups, o);
    AllOfTwo(n, a, b, o);
    AllOfOne(n, c, o);
  }

  lemma TwoGroupsQuery(a: string, b: string, c: string)
    ensures Join(AndJoins([[a, b], [c]]), " OR ") == a + " AND " + b + " OR " + c
  {
    JoinTwo(a, b, " AND ");
    assert Join([c], " AND ") == c;
    assert AndJoins([[a, b], [c]]) == [a + " AND " + b, c];
    JoinTwo(a + " AND " + b, c, " OR ");
  }

  lemma TwoGroups(n: UINode, groups: seq<seq<string>>, o: Oracles)
    requires |groups| == 2
    ensures (exists i :: 0 <= i < |groups| && AllConditions(n, groups[i], o))
        <==> AllConditions(n, groups[0], o) || AllConditions(n, groups[1], o)
  {
    assert forall i :: 0 <= i < |groups| ==> groups[i] == groups[0] || groups[i] == groups[1];
  }

  lemma AllOfTwo(n: UINode, a: string, b: string, o: Oracles)
    ensures AllConditions(n, [a, b], o) <==> EvaluateCondition(n, a, o) && EvaluateCondition(n, b, o)
  {
    var g := [a, b];
    assert g[0] == a && g[1] == b;
    if EvaluateCondition(n, a, o) && EvaluateCondition(n, b, o) {
      forall k | 0 <= k < |g|
        ensures EvaluateCondition(n, g[k], o)
      {
        assert g[k] == a || g[k] == b;
      }
    }
  }

  lemma AllOfOne(n: UINode, c: string, o: Oracles)
    ensures AllConditions(n, [c], o) <==> EvaluateCondition(n, c, o)
  {
    var g := [c];
    assert g[0] == c;
    if EvaluateCondition(n, c, o) {
      forall k | 0 <= k < |g|
        ensures EvaluateCondition(n, g[k], o)
      {
        assert g[k] == c;
      }
    }
  }

  lemma JoinTwo(x: string, y: string, sep: string)
    ensures Join([x, y], sep) == x + sep + y
  {
    assert [x, y][1..] == [y];
  }
}

/** Selector suggestions for a node: one candidate per usable attribute, ranked by priority with
    an in-place exchange sort, and the best-selector fallback chain. */
module SelectorSuggest {
  import opened Wrappers
  import opened Text
  import opened UiTree
  import opened SelectorFind

  datatype Suggestion = Suggestion(kind: string, value: string, priority: int, description: string)

  /** isSelectorUnique: exactly one node of the hierarchy matches. */
  predicate IsSelectorUnique(root: UINode, kind: string, value: string, o: Oracles)
  {
    o.countMatches(root, kind, value) == 1
  }

  /** GetSelectorMatchCount: no selector counts nothing. */
  function GetSelectorMatchCount(root: UINode, selector: Option<ElementSelector>, o: Oracles): (count: int)
    ensures selector.None? ==> count == 0
    ensures count == 1 <==> selector.Some? && IsSelectorUnique(root, selector.value.kind, selector.value.value, o)
  {
    match selector
    case None => 0
    case Some(s) => o.countMatches(root, s.kind, s.value)
  }

  /** A selector is unique exactly when its match count is one; a missing one never is. */
  lemma UniqueIsCountOne(root: UINode, selector: Option<ElementSelector>, o: Oracles)
    ensures selector.Some? ==> (IsSelectorUnique(root, selector.value.kind, selector.value.value, o) <==> GetSelectorMatchCount(root, selector, o) == 1)
    ensures selector.None? ==> GetSelectorMatchCount(root, selector, o) == 0
  {
  }

  // ---------------------------------------------------------------------------
  // The candidates
  // ---------------------------------------------------------------------------

  /** The last dot-separated segment of a class name. */
  function ShortClass(className: string): string
  {
    var parts := Split(className, ['.']);
    parts[|parts| - 1]
  }

  /** The short name of a qualified class is its last segment. */
  lemma ShortClassOfQualified(segments: seq<string>)
    requires segments != []
    requires forall w, i :: w in segments && 0 <= i < |w| ==> w[i] != '.'
    ensures ShortClass(Join(segments, ['.'])) == segments[|segments| - 1]
  {
    var joined := Join(segments, ['.']);
    SplitJoin(segments, '.');
    ShortClassIsLast(joined, segments);
  }

  lemma ShortClassIsLast(className: string, parts: seq<string>)
    requires Split(className, ['.']) == parts
    ensures parts != [] && ShortClass(className) == parts[|parts| - 1]
  {
  }

  function TextSuggestion(node: UINode, root: UINode, o: Oracles): Suggestion
  {
    var description := "Text: \"" + node.text + "\"";
    if o.isGenericText(node.text) then Suggestion("text", node.text, 3, description + " (generic text)")
    else if !IsSelectorUnique(root, "text", node.text, o) then Suggestion("text", node.text, 3, description + " (not unique)")
    else Suggestion("text", node.text, 5, description)
  }

  function IdSuggestion(node: UINode, root: UINode, o: Oracles): Suggestion
  {
    var description := "Resource ID: " + node.resourceId;
    if !IsSelectorUnique(root, "id", node.resourceId, o) then Suggestion("id", node.resourceId, 3, description + " (not unique)")
    else Suggestion("id", node.resourceId, 5, description)
  }

  function DescSuggestion(node: UINode, root: UINode, o: Oracles): Suggestion
  {
    var description := "Content Description: \"" + node.contentDesc + "\"";
    if !IsSelectorUnique(root, "desc", node.contentDesc, o) then Suggestion("desc", node.contentDesc, 3, description + " (not unique)")
    else Suggestion("desc", node.contentDesc, 4, description)
  }

  function ClassSuggestion(node: UINode): Suggestion
  {
    Suggestion("class", node.className, 2, "Class: " + ShortClass(node.className) + " (usually matches multiple)")
  }

  function XPathSuggestion(xpath: string): Suggestion
  {
    Suggestion("xpath", xpath, 2, "XPath (specific but fragile)")
  }

  function BoundsSuggestion(node: UINode): Suggestion
  {
    Suggestion("bounds", node.bounds, 1, "Bounds: " + node.bounds + " (position dependent)")
  }

  function TextPart(node: UINode, root: UINode, o: Oracles): seq<Suggestion>
  {
    if node.text != "" then [TextSuggestion(node, root, o)] else []
  }

  function IdPart(node: UINode, root: UINode, o: Oracles): seq<Suggestion>
  {
    if node.resourceId != "" then [IdSuggestion(node, root, o)] else []
  }

  function DescPart(node: UINode, root: UINode, o: Oracles): seq<Suggestion>
  {
    if node.contentDesc != "" then [DescSuggestion(node, root, o)] else []
  }

  function ClassPart(node: UINode): seq<Suggestion>
  {
    if node.className != "" then [ClassSuggestion(node)] else []
  }

  function XPathPart(xpath: string): seq<Suggestion>
  {
    if xpath != "" then [XPathSuggestion(xpath)] else []
  }

  function BoundsPart(node: UINode): seq<Suggestion>
  {
    if node.bounds != "" then [BoundsSuggestion(node)] else []
  }

  /** The candidates before ranking, in the order they are built: text, resource id, content
      description, class, xpath and bounds, each present when its value is not empty. */
  function Candidates(node: UINode, root: UINode, o: Oracles): seq<Suggestion>
  {
    TextPart(node, root, o) + IdPart(node, root, o) + DescPart(node, root, o)
    + ClassPart(node) + XPathPart(o.buildXPath(root, node)) + BoundsPart(node)
  }

  /** What the candidates are, one possibility per type. */
  lemma CandidatesMembers(node: UINode, root: UINode, o: Oracles, c: Suggestion)
    ensures c in Candidates(node, root, o) <==>
      || (node.text != "" && c == TextSuggestion(node, root, o))
      || (node.resourceId != "" && c == IdSuggestion(node, root, o))
      || (node.contentDesc != "" && c == DescSuggestion(node, root, o))
      || (node.className != "" && c == ClassSuggestion(node))
      || (o.buildXPath(root, node) != "" && c == XPathSuggestion(o.buildXPath(root, node)))
      || (node.bounds != "" && c == BoundsSuggestion(node))
  {
    var t, i, d, k := TextPart(node, root, o), IdPart(node, root, o), DescPart(node, root, o), ClassPart(node);
    var x, b := XPathPart(o.buildXPath(root, node)), BoundsPart(node);
    assert Candidates(node, root, o) == t + i + d + k + x + b;
    assert c in t + i + d + k + x + b <==> c in t || c in i || c in d || c in k || c in x || c in b;
  }

  /** A candidate's value and priority, by its type: text 5, demoted to 3 when generic or not
      unique; resource id 5 and description 4, each demoted to 3 when not unique; class 2, xpath 2,
      bounds 1. */
  predicate RankedByRule(c: Suggestion, node: UINode, root: UINode, o: Oracles)
  {
    if c.kind == "text" then
      c.value == node.text
      && c.priority == (if o.isGenericText(node.text) || !IsSelectorUnique(root, "text", node.text, o) then 3 else 5)
    else if c.kind == "id" then
      c.value == node.resourceId && c.priority == (if IsSelectorUnique(root, "id", node.resourceId, o) then 5 else 3)
    else if c.kind == "desc" then
      c.value == node.contentDesc && c.priority == (if IsSelectorUnique(root, "desc", node.contentDesc, o) then 4 else 3)
    else if c.kind == "class" then c.value == node.className && c.priority == 2
    else if c.kind == "xpath" then c.value == o.buildXPath(root, node) && c.priority == 2
    else c.kind == "bounds" && c.value == node.bounds && c.priority == 1
  }

  /** Every candidate follows its type's rule. */
  lemma CandidatesRanked(node: UINode, root: UINode, o: Oracles)
    ensures forall c :: c in Candidates(node, root, o) ==> RankedByRule(c, node, root, o)
  {
    forall c | c in Candidates(node, root, o)
      ensures RankedByRule(c, node, root, o)
    {
      CandidatesMembers(node, root, o, c);
      KindNamesDistinct();
    }
  }

  /** A type has a candidate exactly when its value is not empty. */
  lemma CandidateTypes(node: UINode, root: UINode, o: Oracles)
    ensures (exists c :: c in Candidates(node, root, o) && c.kind == "text") <==> node.text != ""
    ensures (exists c :: c in Candidates(node, root, o) && c.kind == "id") <==> node.resourceId != ""
    ensures (exists c :: c in Candidates(node, root, o) && c.kind == "desc") <==> node.contentDesc != ""
    ensures (exists c :: c in Candidates(node, root, o) && c.kind == "class") <==> node.className != ""
    ensures (exists c :: c in Candidates(node, root, o) && c.kind == "xpath") <==> o.buildXPath(root, node) != ""
    ensures (exists c :: c in Candidates(node, root, o) && c.kind == "bounds") <==> node.bounds != ""
  {
    CandidatesMembers(node, root, o, TextSuggestion(node, root, o));
    CandidatesMembers(node, root, o, IdSuggestion(node, root, o));
    CandidatesMembers(node, root, o, DescSuggestion(node, root, o));
    CandidatesMembers(node, root, o, ClassSuggestion(node));
    CandidatesMembers(node, root, o, XPathSuggestion(o.buildXPath(root, node)));
    CandidatesMembers(node, root, o, BoundsSuggestion(node));
    forall c | c in Candidates(node, root, o)
      ensures c.kind == "text" ==> node.text != ""
      ensures c.kind == "id" ==> node.resourceId != ""
      ensures c.kind == "desc" ==> node.contentDesc != ""
      ensures c.kind == "class" ==> node.className != ""
      ensures c.kind == "xpath" ==> o.buildXPath(root, node) != ""
      ensures c.kind == "bounds" ==> node.bounds != ""
    {
      CandidatesMembers(node, root, o, c);
      KindNamesDistinct();
    }
  }

  lemma KindNamesDistinct()
    ensures "text" != "id" && "text" != "desc" && "text" != "class" && "text" != "xpath" && "text" != "bounds"
    ensures "id" != "desc" && "id" != "class" && "id" != "xpath" && "id" != "bounds"
    ensures "desc" != "class" && "desc" != "xpath" && "desc" != "bounds"
    ensures "class" != "xpath" && "class" != "bounds" && "xpath" != "bounds"
  {
    assert "text"[0] == 't' && "desc"[0] == 'd' && "class"[0] == 'c' && "xpath"[0] == 'x' && "bounds"[0] == 'b';
  }

  // ---------------------------------------------------------------------------
  // Ranking
  // ---------------------------------------------------------------------------

  predicate SortedByPriority(s: seq<Suggestion>)
  {
    forall i, j :: 0 <= i < j < |s| ==> s[i].priority >= s[j].priority
  }

  method Swap(a: array<Suggestion>, i: int, j: int)
    requires 0 <= i < a.Length && 0 <= j < a.Length
    modifies a
    ensures a[..] == old(a[..])[i := old(a[j])][j := old(a[i])]
    ensures multiset(a[..]) == multiset(old(a[..]))
  {
    a[i], a[j] := a[j], a[i];
  }

  /** The first `i` positions hold, in order, priorities no lower than anything after them. */
  predicate PrefixPlaced(s: seq<Suggestion>, i: int)
  {
    forall p, q :: 0 <= p < i && p < q < |s| ==> s[p].priority >= s[q].priority
  }

  /** Position `i` holds a priority no lower than any at positions `i + 1` to `j - 1`. */
  predicate HeadsUpTo(s: seq<Suggestion>, i: int, j: int)
    requires 0 <= i < |s|
  {
    forall q :: i < q < j && q < |s| ==> s[i].priority >= s[q].priority
  }

  /** With all but the last position placed, the whole sequence is sorted. */
  lemma PlacedSorted(s: seq<Suggestion>, i: int)
    requires i + 1 >= |s| && PrefixPlaced(s, i)
    ensures SortedByPriority(s)
  {
    forall p, q | 0 <= p < q < |s|
      ensures s[p].priority >= s[q].priority
    {
      assert p < i;
    }
  }

  /** A position heading the whole rest extends the placed prefix by one. */
  lemma PlacedNext(s: seq<Suggestion>, i: int)
    requires 0 <= i < |s| && PrefixPlaced(s, i) && HeadsUpTo(s, i, |s|)
    ensures PrefixPlaced(s, i + 1)
  {
  }

  /** Exchanging position `i` with a later one of higher priority keeps the placed prefix, and
      position `i` then heads everything up to the exchanged one. */
  lemma ExchangeStep(s: seq<Suggestion>, t: seq<Suggestion>, i: int, j: int)
    requires 0 <= i < j < |s| && t == s[i := s[j]][j := s[i]] && s[j].priority > s[i].priority
    requires PrefixPlaced(s, i) && HeadsUpTo(s, i, j)
    ensures PrefixPlaced(t, i) && HeadsUpTo(t, i, j + 1)
  {
    forall p, q | 0 <= p < i && p < q < |t|
      ensures t[p].priority >= t[q].priority
    {
      assert t[p] == s[p];
      assert t[q] == s[q] || t[q] == s[i] || t[q] == s[j];
    }
    forall q | i < q < j + 1 && q < |t|
      ensures t[i].priority >= t[q].priority
    {
      if q < j {
        assert t[q] == s[q];
      }
    }
  }

  /** The nested exchange loops: for each position in turn, every later element of higher
      priority is swapped into it. */
  method SortByPriority(a: array<Suggestion>)
    modifies a
    ensures SortedByPriority(a[..])
    ensures multiset(a[..]) == multiset(old(a[..]))
  {
    var i := 0;
    while i < a.Length - 1
      invariant 0 <= i <= a.Length
      invariant multiset(a[..]) == multiset(old(a[..]))
      invariant PrefixPlaced(a[..], i)
    {
      SelectHighest(a, i);
      i := i + 1;
    }
    PlacedSorted(a[..], i);
  }

  /** One pass of the inner loop: afterwards position `i` holds a highest priority of the
      suffix from `i`, and the sorted prefix before it is untouched. */
  method SelectHighest(a: array<Suggestion>, i: int)
    requires 0 <= i < a.Length
    requires PrefixPlaced(a[..], i)
    modifies a
    ensures multiset(a[..]) == multiset(old(a[..]))
    ensures PrefixPlaced(a[..], i + 1)
  {
    var j := i + 1;
    while j < a.Length
      invariant i + 1 <= j <= a.Length
      invariant multiset(a[..]) == multiset(old(a[..]))
      invariant PrefixPlaced(a[..], i) && HeadsUpTo(a[..], i, j)
    {
      if a[j].priority > a[i].priority {
        ghost var s := a[..];
        Swap(a, i, j);
        ExchangeStep(s, a[..], i, j);
      }
      j := j + 1;
    }
    PlacedNext(a[..], i);
  }

  /** The appends of GenerateSelectorSuggestions, one per usable attribute. */
  method AppendCandidates(node: UINode, root: UINode, o: Oracles) returns (suggestions: seq<Suggestion>)
    ensures suggestions == Candidates(node, root, o)
  {
    suggestions := [];
    if node.text != "" {
      suggestions := suggestions + [TextSuggestion(node, root, o)];
    }
    assert suggestions == TextPart(node, root, o);
    if node.resourceId != "" {
      suggestions := suggestions + [IdSuggestion(node, root, o)];
    }
    assert suggestions == TextPart(node, root, o) + IdPart(node, root, o);
    if node.contentDesc != "" {
      suggestions := suggestions + [DescSuggestion(node, root, o)];
    }
    assert suggestions == TextPart(node, root, o) + IdPart(node, root, o) + DescPart(node, root, o);
    if node.className != "" {
      suggestions := suggestions + [ClassSuggestion(node)];
    }
    assert suggestions == TextPart(node, root, o) + IdPart(node, root, o) + DescPart(node, root, o) + ClassPart(node);
    var xpath := o.buildXPath(root, node);
    if xpath != "" {
      suggestions := suggestions + [XPathSuggestion(xpath)];
    }
    assert suggestions == TextPart(node, root, o) + IdPart(node, root, o) + DescPart(node, root, o) + ClassPart(node)
      + XPathPart(xpath);
    if node.bounds != "" {
      suggestions := suggestions + [BoundsSuggestion(node)];
    }
  }

  /** Ranks a list in an array of its own: the same suggestions, highest priority first. */
  method Rank(s: seq<Suggestion>) returns (r: seq<Suggestion>)
    ensures multiset(r) == multiset(s)
    ensures SortedByPriority(r)
  {
    var a := new Suggestion[|s|](k requires 0 <= k < |s| => s[k]);
    assert a[..] == s;
    SortByPriority(a);
    r := a[..];
  }

  /** GenerateSelectorSuggestions: the candidates, appended one by one, then ranked. The result
      holds exactly the candidates, highest priority first. */
  method GenerateSelectorSuggestions(node: UINode, root: UINode, o: Oracles) returns (suggestions: seq<Suggestion>)
    ensures multiset(suggestions) == multiset(Candidates(node, root, o))
    ensures SortedByPriority(suggestions)
  {
    var candidates := AppendCandidates(node, root, o);
    suggestions := Rank(candidates);
  }

  // ---------------------------------------------------------------------------
  // The best selector
  // ---------------------------------------------------------------------------

  /** GetBestSelector: unique non-generic text, then unique resource id, then unique content
      description, then xpath, then bounds; otherwise none. */
  function GetBestSelector(node: UINode, root: UINode, o: Oracles): Option<ElementSelector>
  {
    if node.text != "" && IsSelectorUnique(root, "text", node.text, o) && !o.isGenericText(node.text) then
      Some(ElementSelector("text", node.text, 0))
    else if node.resourceId != "" && IsSelectorUnique(root, "id", node.resourceId, o) then
      Some(ElementSelector("id", node.resourceId, 0))
    else if node.contentDesc != "" && IsSelectorUnique(root, "desc", node.contentDesc, o) then
      Some(ElementSelector("desc", node.contentDesc, 0))
    else
      var xpath := o.buildXPath(root, node);
      if xpath != "" then Some(ElementSelector("xpath", xpath, 0))
      else if node.bounds != "" then Some(ElementSelector("bounds", node.bounds, 0))
      else None
  }

  /** The best selector is one of the suggestions, never the class one, and selects the first match. */
  lemma BestIsSuggested(node: UINode, root: UINode, o: Oracles)
    ensures var best := GetBestSelector(node, root, o);
      best.Some? ==>
        && best.value.kind != "class" && best.value.index == 0
        && exists c :: c in Candidates(node, root, o) && c.kind == best.value.kind && c.value == best.value.value
  {
    var best := GetBestSelector(node, root, o);
    var cs := Candidates(node, root, o);
    KindNamesDistinct();
    if best.Some? {
      var k := best.value.kind;
      if k == "text" {
        assert TextSuggestion(node, root, o) in cs;
      } else if k == "id" {
        assert IdSuggestion(node, root, o) in cs;
      } else if k == "desc" {
        assert DescSuggestion(node, root, o) in cs;
      } else if k == "xpath" {
        assert XPathSuggestion(o.buildXPath(root, node)) in cs;
      } else {
        assert BoundsSuggestion(node) in cs;
      }
    }
  }

  /** A best selector by text, resource id or description is a top-ranked suggestion: no
      candidate has a higher priority. */
  lemma BestIsTopRanked(node: UINode, root: UINode, o: Oracles)
    ensures var best := GetBestSelector(node, root, o);
      best.Some? && best.value.kind in {"text", "id", "desc"} ==>
        exists c :: c in Candidates(node, root, o) && c.kind == best.value.kind && c.value == best.value.value
          && forall d :: d in Candidates(node, root, o) ==> d.priority <= c.priority
  {
    var cs := Candidates(node, root, o);
    var c;
    if node.text != "" && IsSelectorUnique(root, "text", node.text, o) && !o.isGenericText(node.text) {
      c := TextSuggestion(node, root, o);
    } else if node.resourceId != "" && IsSelectorUnique(root, "id", node.resourceId, o) {
      c := IdSuggestion(node, root, o);
    } else if node.contentDesc != "" && IsSelectorUnique(root, "desc", node.contentDesc, o) {
      c := DescSuggestion(node, root, o);
    } else {
      KindNamesDistinct();
      return;
    }
    CandidatesMembers(node, root, o, c);
    forall d | d in cs
      ensures d.priority <= c.priority
    {
      CandidatesMembers(node, root, o, d);
    }
  }

  /** There is no best selector only when no suggestion ranks above 3 and there is neither an
      xpath nor a bounds suggestion, even if the node has text, an id or a description. */
  lemma NoBestSelector(node: UINode, root: UINode, o: Oracles)
    ensures GetBestSelector(node, root, o).None? ==>
      forall c :: c in Candidates(node, root, o) ==> c.priority <= 3 && c.kind != "xpath" && c.kind != "bounds"
  {
    if GetBestSelector(node, root, o).None? {
      forall c | c in Candidates(node, root, o)
        ensures c.priority <= 3 && c.kind != "xpath" && c.kind != "bounds"
      {
        CandidatesMembers(node, root, o, c);
        KindNamesDistinct();
      }
    }
  }
}

/** Finding elements of a UI hierarchy by selector: the per-type match predicates, the pre-order
    collection of matches, and the choice of the match at the selector's index. */
module SelectorFind {
  import opened Wrappers
  import opened Text
  import opened UiTree
  import opened SelectorQuery

  /** A selector: its type name, its value and the index of the wanted match. */
  datatype ElementSelector = ElementSelector(kind: string, value: string, index: int)

  /** The selector types answered by collecting the matching nodes of the tree. */
  predicate IsCollecting(kind: string)
  {
    kind in {"text", "id", "desc", "description", "class", "contains", "advanced"}
  }

  /** The match predicate of each collecting type; no node matches a type without one. */
  predicate Matches(kind: string, value: string, n: UINode, o: Oracles)
  {
    if kind == "text" then n.text == value || n.contentDesc == value
    else if kind == "id" then n.resourceId == value || HasSuffix(n.resourceId, ":id/" + value)
    else if kind == "desc" || kind == "description" then n.contentDesc == value
    else if kind == "class" then n.className == value
    else if kind == "contains" then Contains(n.text, value) || Contains(n.contentDesc, value)
    else if kind == "advanced" then MatchAdvanced(n, value, o)
    else false
  }

  /** The nodes of the tree matching a collecting type, in pre-order. */
  function Matching(root: UINode, kind: string, value: string, o: Oracles): seq<UINode>
  {
    Collect(root, n => Matches(kind, value, n, o))
  }

  // ---------------------------------------------------------------------------
  // Choosing the match at an index
  // ---------------------------------------------------------------------------

  /** The outcome of choosing by an index guard that checks only the upper bound: the node, no
      match, or the run-time panic a negative index causes. */
  datatype Pick = Picked(node: UINode) | NoMatch | IndexPanic

  function PickAsWritten(nodes: seq<UINode>, index: int): Pick
  {
    if index < |nodes| then
      if index < 0 then IndexPanic else Picked(nodes[index])
    else NoMatch
  }

  /** The guard as intended: the match at `index` when there is one, and none otherwise. */
  function PickAt(nodes: seq<UINode>, index: int): (r: Option<UINode>)
    ensures r.Some? <==> 0 <= index < |nodes|
    ensures r.Some? ==> r.value == nodes[index]
  {
    if 0 <= index < |nodes| then Some(nodes[index]) else None
  }

  /** A negative index gets past the guard and indexes the slice: a panic, for every list of
      matches, the empty one included. */
  lemma NegativeIndexPanics(nodes: seq<UINode>, index: int)
    requires index < 0
    ensures PickAsWritten(nodes, index) == IndexPanic
    ensures PickAt(nodes, index) == None
  {
  }

  /** For the indices the guard was written for, the two agree. */
  lemma PickAgrees(nodes: seq<UINode>, index: int)
    requires index >= 0
    ensures PickAsWritten(nodes, index) == (match PickAt(nodes, index) case Some(x) => Picked(x) case None => NoMatch)
  {
  }

  // ---------------------------------------------------------------------------
  // FindElementBySelector and FindAllElementsBySelector
  // ---------------------------------------------------------------------------

  /** The node a `bounds` selector stands for: no tree search, only the bounds string. */
  function BoundsNode(bounds: string): UINode
  {
    UINode("", "", "", "", bounds, [])
  }

  /** FindElementBySelector. A missing root or selector, or an unknown type, gives none. */
  function FindElement(root: Option<UINode>, selector: Option<ElementSelector>, o: Oracles): Option<UINode>
  {
    if root.None? || selector.None? then None
    else
      var r, s := root.value, selector.value;
      if IsCollecting(s.kind) then PickAt(Matching(r, s.kind, s.value, o), s.index)
      else if s.kind == "xpath" then PickAt(o.searchXPath(r, s.value), s.index)
      else if s.kind == "bounds" then Some(BoundsNode(s.value))
      else if s.kind == "coordinates" then
        var parts := Split(s.value, ",");
        if |parts| == 2 then o.elementAtPoint(r, AtoiOrZero(TrimSpace(parts[0])), AtoiOrZero(TrimSpace(parts[1])))
        else None
      else None
  }

  /** The guard's outcome as an option: a panic has no counterpart. */
  function AsPick(x: Option<UINode>): Pick
  {
    match x case Some(v) => Picked(v) case None => NoMatch
  }

  /** FindElementBySelector exactly as written: the text, id, desc, class, contains, advanced
      and xpath cases index their matches past the `index < len` guard. */
  function FindElementAsWritten(root: Option<UINode>, selector: Option<ElementSelector>, o: Oracles): Pick
  {
    if root.None? || selector.None? then NoMatch
    else
      var r, s := root.value, selector.value;
      if IsCollecting(s.kind) then PickAsWritten(Matching(r, s.kind, s.value, o), s.index)
      else if s.kind == "xpath" then PickAsWritten(o.searchXPath(r, s.value), s.index)
      else AsPick(FindElement(root, selector, o))
  }

  /** The model's FindElement is the source's whenever the index is not negative, and a negative
      index with a tree-searching type is the panic, whatever the tree holds. */
  lemma FindElementAgrees(root: Option<UINode>, sel: ElementSelector, o: Oracles)
    ensures sel.index >= 0 ==> FindElementAsWritten(root, Some(sel), o) == AsPick(FindElement(root, Some(sel), o))
    ensures sel.index < 0 && root.Some? && (IsCollecting(sel.kind) || sel.kind == "xpath") ==>
      FindElementAsWritten(root, Some(sel), o) == IndexPanic && FindElement(root, Some(sel), o) == None
  {
    if sel.index >= 0 && root.Some? {
      PickAgrees(Matching(root.value, sel.kind, sel.value, o), sel.index);
      PickAgrees(o.searchXPath(root.value, sel.value), sel.index);
    }
  }

  /** FindAllElementsBySelector: there is no `bounds` or `coordinates` case. */
  function FindAll(root: Option<UINode>, selector: Option<ElementSelector>, o: Oracles): seq<UINode>
  {
    if root.None? || selector.None? then []
    else
      var r, s := root.value, selector.value;
      if IsCollecting(s.kind) then Matching(r, s.kind, s.value, o)
      else if s.kind == "xpath" then o.searchXPath(r, s.value)
      else []
  }

  // ---------------------------------------------------------------------------
  // Properties
  // ---------------------------------------------------------------------------

  /** Apart from `bounds` and `coordinates`, finding one element is taking the match at the
      selector's index from the list of all matches. */
  lemma FindIsPickOfAll(root: Option<UINode>, sel: ElementSelector, o: Oracles)
    requires sel.kind != "bounds" && sel.kind != "coordinates"
    ensures FindElement(root, Some(sel), o) == PickAt(FindAll(root, Some(sel), o), sel.index)
  {
  }

  /** The matches of a collecting type are exactly the matching nodes of the tree, in pre-order. */
  lemma FindAllIsPreorderFilter(root: UINode, sel: ElementSelector, o: Oracles, x: UINode)
    requires IsCollecting(sel.kind)
    ensures FindAll(Some(root), Some(sel), o) == Filter(Flatten(root), n => Matches(sel.kind, sel.value, n, o))
    ensures x in FindAll(Some(root), Some(sel), o) <==> x in Flatten(root) && Matches(sel.kind, sel.value, x, o)
  {
    CollectIsFilter(root, n => Matches(sel.kind, sel.value, n, o));
  }

  /** A `bounds` selector yields a node carrying only its value, whatever the tree holds, and
      the two location-based types yield nothing from FindAll. */
  lemma LocationSelectors(root: UINode, value: string, index: int, o: Oracles)
    ensures FindElement(Some(root), Some(ElementSelector("bounds", value, index)), o) == Some(BoundsNode(value))
    ensures FindAll(Some(root), Some(ElementSelector("bounds", value, index)), o) == []
    ensures FindAll(Some(root), Some(ElementSelector("coordinates", value, index)), o) == []
  {
    KindNames();
  }

  /** An `id` selector matches a fully qualified resource id `package:id/name` by its name. */
  lemma IdMatchesQualified(n: UINode, pkg: string, name: string, o: Oracles)
    requires n.resourceId == pkg + ":id/" + name
    ensures Matches("id", name, n, o)
  {
    var s, p := n.resourceId, ":id/" + name;
    assert s[|s| - |p|..] == p;
  }

  /** A `coordinates` selector `x,y` asks for the element at that point. */
  lemma CoordinatesSelector(root: UINode, x: int, y: int, index: int, o: Oracles)
    ensures FindElement(Some(root), Some(ElementSelector("coordinates", IntToString(x) + "," + IntToString(y), index)), o)
        == o.elementAtPoint(root, x, y)
  {
    CoordinatesValue(x, y);
    KindNames();
  }

  /** The type names are told apart. */
  lemma KindNames()
    ensures !IsCollecting("coordinates") && !IsCollecting("bounds") && !IsCollecting("xpath")
    ensures "coordinates" != "xpath" && "coordinates" != "bounds" && "bounds" != "xpath"
  {
    assert "coordinates"[0] == 'c' && "coordinates"[2] == 'o';
    assert "description"[0] == 'd';
    assert "contains"[2] == 'n';
  }

  /** The value `x,y` splits into two parts that read back as `x` and `y`. */
  lemma CoordinatesValue(x: int, y: int)
    ensures var parts := Split(IntToString(x) + "," + IntToString(y), ",");
      |parts| == 2 && AtoiOrZero(TrimSpace(parts[0])) == x && AtoiOrZero(TrimSpace(parts[1])) == y
  {
    var a, b := IntToString(x), IntToString(y);
    assert a + "," + b == a + [','] + b;
    SplitTwo(a, ',', b);
    NumberTrimmed(a);
    NumberTrimmed(b);
    AtoiIntToString(x);
    AtoiIntToString(y);
  }

  /** A number written out holds no white space, so trimming leaves it alone. */
  lemma NumberTrimmed(s: string)
    requires forall i :: 0 <= i < |s| ==> s[i] == '-' || IsDigit(s[i])
    ensures TrimSpace(s) == s
  {
    TrimSpaceOfTrimmed(s);
  }

  /** A `coordinates` value that is not two comma-separated parts finds nothing. */
  lemma CoordinatesNeedTwoParts(root: UINode, value: string, index: int, o: Oracles)
    requires |Split(value, ",")| != 2
    ensures FindElement(Some(root), Some(ElementSelector("coordinates", value, index)), o) == None
  {
    KindNames();
  }
}

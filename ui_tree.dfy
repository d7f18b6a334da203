/** A UI hierarchy snapshot and its pre-order traversal. */
module UiTree {
  import opened Wrappers

  /** One node of the hierarchy: the attributes the selector engine reads, and the ordered
      children. The boolean flags a snapshot also carries are never read by the engine. */
  datatype UINode = UINode(
    text: string,
    resourceId: string,
    className: string,
    contentDesc: string,
    bounds: string,
    children: seq<UINode>)

  /** The App's helpers that the selector engine calls but whose code is not part of this model,
      as total functions supplied by the caller. */
  datatype Oracles = Oracles(
    /** getNodeAttribute(node, name) */
    attribute: (UINode, string) -> string,
    /** isGenericText(text): the denylist of common UI words */
    isGenericText: string -> bool,
    /** buildXPath(root, node) */
    buildXPath: (UINode, UINode) -> string,
    /** countMatchingNodes(root, selectorType, value) */
    countMatches: (UINode, string, string) -> int,
    /** SearchElementsXPath(root, expression): the nodes of its results, in order */
    searchXPath: (UINode, string) -> seq<UINode>,
    /** FindElementAtPoint(root, x, y) */
    elementAtPoint: (UINode, int, int) -> Option<UINode>)

  /** The nodes of a tree in pre-order: a node before its children, children left to right. */
  function Flatten(n: UINode): (r: seq<UINode>)
    ensures r != [] && r[0] == n
    decreases n, 1
  {
    [n] + FlattenAll(n.children)
  }

  /** The pre-order traversals of sibling trees, one after the other. */
  function FlattenAll(ns: seq<UINode>): seq<UINode>
    decreases ns, 0
  {
    if ns == [] then [] else Flatten(ns[0]) + FlattenAll(ns[1..])
  }

  /** The elements of `s` that satisfy `p`, in their order in `s`. */
  function Filter(s: seq<UINode>, p: UINode -> bool): (r: seq<UINode>)
    ensures |r| <= |s|
    ensures forall x :: x in r <==> x in s && p(x)
  {
    if s == [] then [] else (if p(s[0]) then [s[0]] else []) + Filter(s[1..], p)
  }

  lemma {:induction false} FilterAppend(s: seq<UINode>, t: seq<UINode>, p: UINode -> bool)
    ensures Filter(s + t, p) == Filter(s, p) + Filter(t, p)
    decreases |s|
  {
    if s == [] {
      assert s + t == t;
    } else {
      assert (s + t)[0] == s[0];
      assert (s + t)[1..] == s[1..] + t;
      FilterAppend(s[1..], t, p);
    }
  }

  /** collectMatchingNodes: the node itself if it matches, then what each child's subtree
      contributes, in order. */
  function Collect(n: UINode, p: UINode -> bool): seq<UINode>
    decreases n, 1
  {
    (if p(n) then [n] else []) + CollectAll(n.children, p)
  }

  function CollectAll(ns: seq<UINode>, p: UINode -> bool): seq<UINode>
    decreases ns, 0
  {
    if ns == [] then [] else Collect(ns[0], p) + CollectAll(ns[1..], p)
  }

  /** The collection is exactly the matching nodes of the pre-order traversal, in that order. */
  lemma {:induction false} CollectIsFilter(n: UINode, p: UINode -> bool)
    ensures Collect(n, p) == Filter(Flatten(n), p)
    decreases n, 1
  {
    CollectAllIsFilter(n.children, p);
    FilterAppend([n], FlattenAll(n.children), p);
  }

  lemma {:induction false} CollectAllIsFilter(ns: seq<UINode>, p: UINode -> bool)
    ensures CollectAll(ns, p) == Filter(FlattenAll(ns), p)
    decreases ns, 0
  {
    if ns != [] {
      CollectIsFilter(ns[0], p);
      CollectAllIsFilter(ns[1..], p);
      FilterAppend(Flatten(ns[0]), FlattenAll(ns[1..]), p);
    }
  }

  /** A node is collected exactly when it occurs in the tree and satisfies the predicate; the
      collection is never longer than the tree. */
  lemma CollectMembership(n: UINode, p: UINode -> bool, x: UINode)
    ensures x in Collect(n, p) <==> x in Flatten(n) && p(x)
    ensures |Collect(n, p)| <= |Flatten(n)|
  {
    CollectIsFilter(n, p);
  }

  /** Every child's subtree is a contiguous block of the parent's traversal, after the parent
      and after the subtrees of the earlier children. */
  lemma {:induction false} FlattenChild(n: UINode, i: nat)
    requires i < |n.children|
    ensures Flatten(n) == [n] + FlattenAll(n.children[..i]) + Flatten(n.children[i]) + FlattenAll(n.children[i + 1..])
  {
    FlattenAllSplit(n.children, i);
  }

  lemma {:induction false} FlattenAllSplit(ns: seq<UINode>, i: nat)
    requires i < |ns|
    ensures FlattenAll(ns) == FlattenAll(ns[..i]) + Flatten(ns[i]) + FlattenAll(ns[i + 1..])
    decreases i
  {
    if i == 0 {
      assert ns[..0] == [];
    } else {
      FlattenAllSplit(ns[1..], i - 1);
      assert ns[1..][..i - 1] == ns[1..i];
      assert ns[1..][i - 1] == ns[i];
      assert ns[1..][i..] == ns[i + 1..];
      assert ns[..i][0] == ns[0] && ns[..i][1..] == ns[1..i];
    }
  }
}

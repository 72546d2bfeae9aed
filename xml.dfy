/**
 * The parsed XML document and the ElementTree queries the handler uses.
 *
 * A parsed document is a tree of element objects. Its shape and texts never
 * change after parsing; only tags are rewritten in place by the namespace
 * strip. So the tree is a `Node` value carrying each element's identity, and
 * the tags live in a separate table (an `array<string>` while being rewritten)
 * indexed by that identity. `View` reads the document back as an `Element`
 * value, on which `find`, `findall` and `.//` lookups are pure functions.
 */
module Xml {
  import opened Wrappers
  import opened Text

  /** An element as a value: tag, optional text, children in document order. */
  datatype Element = Element(tag: string, text: Option<string>, children: seq<Element>)

  /** The parser's tree: element identity, text and children; the tag of element `id` is `tags[id]`. */
  datatype Node = Node(id: nat, text: Option<string>, children: seq<Node>)

  /** What a successful parse yields: the tree and the tag table. */
  datatype Parsed = Parsed(root: Node, tags: seq<string>)

  /** Element identities in document order: the order of ElementTree's `root.iter()`. */
  function Ids(n: Node): seq<nat> {
    [n.id] + IdsList(n.children)
  }

  function IdsList(cs: seq<Node>): seq<nat> {
    if cs == [] then [] else Ids(cs[0]) + IdsList(cs[1..])
  }

  /** Every element identity of the tree is below `k` (an index into a tag table of length `k`). */
  predicate Bounded(n: Node, k: nat) {
    n.id < k && BoundedList(n.children, k)
  }

  predicate BoundedList(cs: seq<Node>, k: nat) {
    cs == [] || (Bounded(cs[0], k) && BoundedList(cs[1..], k))
  }

  /** `Bounded` says exactly that every identity met by `iter()` is below `k`. */
  lemma {:induction false} BoundedIds(n: Node, k: nat)
    ensures Bounded(n, k) <==> forall id :: id in Ids(n) ==> id < k
  {
    BoundedIdsList(n.children, k);
    assert Ids(n) == [n.id] + IdsList(n.children);
    assert n.id in Ids(n);
    if Bounded(n, k) {
      forall id | id in Ids(n)
        ensures id < k
      {
        if id != n.id {
          assert id in IdsList(n.children);
        }
      }
    } else if n.id < k {
      var id :| id in IdsList(n.children) && id >= k;
      assert id in Ids(n);
    }
  }

  lemma {:induction false} BoundedIdsList(cs: seq<Node>, k: nat)
    ensures BoundedList(cs, k) <==> forall id :: id in IdsList(cs) ==> id < k
  {
    if cs != [] {
      BoundedIds(cs[0], k);
      BoundedIdsList(cs[1..], k);
      assert IdsList(cs) == Ids(cs[0]) + IdsList(cs[1..]);
      if BoundedList(cs, k) {
        forall id | id in IdsList(cs)
          ensures id < k
        {
          if id !in Ids(cs[0]) {
            assert id in IdsList(cs[1..]);
          }
        }
      } else if Bounded(cs[0], k) {
        var id :| id in IdsList(cs[1..]) && id >= k;
        assert id in IdsList(cs);
      } else {
        var id :| id in Ids(cs[0]) && id >= k;
        assert id in IdsList(cs);
      }
    }
  }

  predicate Distinct(s: seq<nat>) {
    forall i, j :: 0 <= i < j < |s| ==> s[i] != s[j]
  }

  /** Every element has a tag, and `iter()` meets each element exactly once. */
  predicate WellFormed(p: Parsed) {
    Bounded(p.root, |p.tags|) && Distinct(Ids(p.root))
  }

  /** The document as a value, reading each element's tag from `tags`. */
  function View(n: Node, tags: seq<string>): (e: Element)
    requires Bounded(n, |tags|)
    ensures e.tag == tags[n.id] && e.text == n.text && |e.children| == |n.children|
  {
    Element(tags[n.id], n.text, ViewList(n.children, tags))
  }

  function ViewList(cs: seq<Node>, tags: seq<string>): (es: seq<Element>)
    requires BoundedList(cs, |tags|)
    ensures |es| == |cs|
  {
    if cs == [] then [] else [View(cs[0], tags)] + ViewList(cs[1..], tags)
  }

  /**
   * A tag without its `{namespace}` wrapper (`tag.split("}", 1)[1]` when the tag
   * contains `}`): the tag is the stripped prefix, a `}`, then the result.
   */
  function LocalName(tag: string): (r: string)
    ensures '}' !in tag ==> r == tag
    ensures '}' in tag ==>
      && |r| < |tag|
      && tag == tag[..|tag| - |r| - 1] + "}" + r
      && '}' !in tag[..|tag| - |r| - 1]
  {
    if '}' in tag then tag[IndexOf(tag, '}') + 1..] else tag
  }

  /** Every tag of the tree passed through `LocalName`; shape and texts untouched. */
  function StripTree(e: Element): (r: Element)
    ensures r.tag == LocalName(e.tag) && r.text == e.text && |r.children| == |e.children|
  {
    Element(LocalName(e.tag), e.text, StripList(e.children))
  }

  function StripList(es: seq<Element>): (rs: seq<Element>)
    ensures |rs| == |es|
  {
    if es == [] then [] else [StripTree(es[0])] + StripList(es[1..])
  }

  /**
   * Rewriting each element's tag to its local name in the tag table is the
   * same as stripping the tree viewed through the old table.
   */
  lemma {:induction false} StripViewCommutes(n: Node, before: seq<string>, after: seq<string>)
    requires Bounded(n, |before|) && Bounded(n, |after|)
    requires forall id :: id in Ids(n) ==> id < |before| && id < |after| && after[id] == LocalName(before[id])
    ensures View(n, after) == StripTree(View(n, before))
  {
    assert Ids(n) == [n.id] + IdsList(n.children);
    assert n.id in Ids(n);
    forall id | id in IdsList(n.children)
      ensures id < |before| && id < |after| && after[id] == LocalName(before[id])
    {
      assert id in Ids(n);
    }
    StripListViewCommutes(n.children, before, after);
  }

  lemma {:induction false} StripListViewCommutes(cs: seq<Node>, before: seq<string>, after: seq<string>)
    requires BoundedList(cs, |before|) && BoundedList(cs, |after|)
    requires forall id :: id in IdsList(cs) ==> id < |before| && id < |after| && after[id] == LocalName(before[id])
    ensures ViewList(cs, after) == StripList(ViewList(cs, before))
  {
    if cs != [] {
      assert IdsList(cs) == Ids(cs[0]) + IdsList(cs[1..]);
      forall id | id in Ids(cs[0])
        ensures id < |before| && id < |after| && after[id] == LocalName(before[id])
      {
        assert id in IdsList(cs);
      }
      forall id | id in IdsList(cs[1..])
        ensures id < |before| && id < |after| && after[id] == LocalName(before[id])
      {
        assert id in IdsList(cs);
      }
      StripViewCommutes(cs[0], before, after);
      StripListViewCommutes(cs[1..], before, after);
    }
  }

  /**
   * `_strip_namespaces_inplace`: walk `root.iter()` and rewrite, in place, every
   * tag that contains `}` to what follows its first `}`. Each element is met once,
   * so each tag is rewritten exactly once; tags of other elements are untouched.
   */
  method StripNamespacesInPlace(root: Node, tags: array<string>)
    requires forall id :: id in Ids(root) ==> id < tags.Length
    requires Distinct(Ids(root))
    modifies tags
    ensures forall id :: id in Ids(root) ==> tags[id] == LocalName(old(tags[id]))
    ensures forall k :: 0 <= k < tags.Length && k !in Ids(root) ==> tags[k] == old(tags[k])
  {
    var order := Ids(root);
    assert forall j :: 0 <= j < |order| ==> order[j] in order;
    var i := 0;
    while i < |order|
      invariant 0 <= i <= |order|
      invariant forall j :: 0 <= j < |order| ==> order[j] < tags.Length
      invariant forall j :: 0 <= j < i ==> tags[order[j]] == LocalName(old(tags[order[j]]))
      invariant forall k :: 0 <= k < tags.Length && k !in order[..i] ==> tags[k] == old(tags[k])
    {
      var id := order[i];
      var t := tags[id];
      assert id !in order[..i];
      if '}' in t {
        tags[id] := t[IndexOf(t, '}') + 1..];
      }
      assert order[..i + 1] == order[..i] + [id];
      i := i + 1;
    }
    assert order[..i] == order;
  }

  /** The document after parsing and namespace stripping, as a value. */
  function Normalized(p: Parsed): Element
    requires WellFormed(p)
  {
    StripTree(View(p.root, p.tags))
  }

  // ---------------------------------------------------------------------------
  // ElementTree queries
  // ---------------------------------------------------------------------------

  /** The first element of `es` whose tag is `tag`, if any. */
  function FirstWithTag(es: seq<Element>, tag: string): Option<Element> {
    if es == [] then None
    else if es[0].tag == tag then Some(es[0])
    else FirstWithTag(es[1..], tag)
  }

  /** `None` exactly when no element has the tag; otherwise the element at the first index that has it. */
  lemma {:induction false} FirstWithTagSpec(es: seq<Element>, tag: string)
    ensures var r := FirstWithTag(es, tag);
      && (r.None? <==> forall i :: 0 <= i < |es| ==> es[i].tag != tag)
      && (r.Some? ==> exists i :: 0 <= i < |es| && es[i] == r.value && es[i].tag == tag && forall j :: 0 <= j < i ==> es[j].tag != tag)
  {
    if es != [] && es[0].tag != tag {
      FirstWithTagSpec(es[1..], tag);
      assert forall i :: 1 <= i < |es| ==> es[i] == es[1..][i - 1];
      if FirstWithTag(es[1..], tag).Some? {
        var i :| 0 <= i < |es[1..]| && es[1..][i] == FirstWithTag(es[1..], tag).value && es[1..][i].tag == tag
          && forall j :: 0 <= j < i ==> es[1..][j].tag != tag;
        assert es[i + 1] == es[1..][i];
      }
    }
  }

  /** The elements of `es` whose tag is `tag`, in order. */
  function FilterTag(es: seq<Element>, tag: string): (r: seq<Element>)
    ensures |r| <= |es|
    ensures forall x :: x in r ==> x in es && x.tag == tag
    ensures forall i :: 0 <= i < |es| && es[i].tag == tag ==> es[i] in r
  {
    if es == [] then []
    else
      assert forall i :: 1 <= i < |es| ==> es[i] == es[1..][i - 1];
      (if es[0].tag == tag then [es[0]] else []) + FilterTag(es[1..], tag)
  }

  /** Filtering a concatenation filters each part, in order. */
  lemma {:induction false} FilterTagAppend(a: seq<Element>, b: seq<Element>, tag: string)
    ensures FilterTag(a + b, tag) == FilterTag(a, tag) + FilterTag(b, tag)
  {
    if a == [] {
      assert a + b == b;
    } else {
      assert (a + b)[0] == a[0] && (a + b)[1..] == a[1..] + b;
      FilterTagAppend(a[1..], b, tag);
    }
  }

  /** Each element with the tag occurs as often as in `es`, every other element not at all. */
  lemma {:induction false} FilterTagCounts(es: seq<Element>, tag: string, x: Element)
    ensures multiset(FilterTag(es, tag))[x] == if x.tag == tag then multiset(es)[x] else 0
  {
    if es != [] {
      FilterTagCounts(es[1..], tag, x);
      assert es == [es[0]] + es[1..];
    }
  }

  /** `find` returns the first element that `findall` returns. */
  lemma {:induction false} FindIsFirstOfFindAll(es: seq<Element>, tag: string)
    ensures FirstWithTag(es, tag) == if FilterTag(es, tag) == [] then None else Some(FilterTag(es, tag)[0])
  {
    if es != [] && es[0].tag != tag {
      FindIsFirstOfFindAll(es[1..], tag);
    }
  }

  /** The element and all its descendants in document order (`iter()`). */
  function Preorder(e: Element): seq<Element> {
    [e] + PreorderList(e.children)
  }

  function PreorderList(es: seq<Element>): seq<Element> {
    if es == [] then [] else Preorder(es[0]) + PreorderList(es[1..])
  }

  /** Strict descendants in document order: what the path `.//tag` searches. */
  function Descendants(e: Element): seq<Element> {
    PreorderList(e.children)
  }

  /** Every descendant of a child is a descendant of its parent. */
  lemma {:induction false} ChildDescendantsAreDescendants(e: Element, i: nat)
    requires i < |e.children|
    ensures forall d :: d in Preorder(e.children[i]) ==> d in Descendants(e)
  {
    PreorderListContains(e.children, i);
  }

  lemma {:induction false} PreorderListContains(es: seq<Element>, i: nat)
    requires i < |es|
    ensures forall d :: d in Preorder(es[i]) ==> d in PreorderList(es)
  {
    if i > 0 {
      PreorderListContains(es[1..], i - 1);
    }
  }

  /** `parent.find(tag)`: the first direct child tagged `tag`. */
  function FindChild(parent: Element, tag: string): Option<Element> {
    FirstWithTag(parent.children, tag)
  }

  /** `parent.findall(tag)`: the direct children tagged `tag`, in order. */
  function FindAll(parent: Element, tag: string): seq<Element> {
    FilterTag(parent.children, tag)
  }

  /** `root.find(".//tag")`: the first strict descendant tagged `tag`. */
  function FindDescendant(root: Element, tag: string): Option<Element> {
    FirstWithTag(Descendants(root), tag)
  }

  /** `e.text.strip() if e.text else ""`. */
  function TextOf(e: Element): string {
    match e.text
    case None => ""
    case Some(t) => if t == "" then "" else Strip(t)
  }

  /** A text produced by `TextOf` has no whitespace at either end. */
  lemma TextOfIsTrimmed(e: Element)
    ensures var r := TextOf(e); r != [] ==> !IsSpace(r[0]) && !IsSpace(r[|r| - 1])
  {
    if e.text.Some? && e.text.value != "" {
      StripTrimmedEnds(e.text.value);
    }
  }

  /**
   * `_get_text(parent, tag)`: the stripped text of the first direct child
   * tagged `tag`, or the empty string when there is none or it has no text.
   */
  function GetText(parent: Element, tag: string): string {
    match FindChild(parent, tag)
    case None => ""
    case Some(c) => TextOf(c)
  }

  /**
   * `_find_text(root, ".//tag")`: the stripped text of the first strict
   * descendant tagged `tag`, or the empty string.
   */
  function FindText(root: Element, tag: string): string {
    match FindDescendant(root, tag)
    case None => ""
    case Some(d) => TextOf(d)
  }

  /** The text of the first element of `es` tagged `tag`, or empty when there is none; never padded. */
  lemma FirstTextSpec(es: seq<Element>, tag: string, r: string)
    requires r == match FirstWithTag(es, tag) case None => "" case Some(c) => TextOf(c)
    ensures (forall i :: 0 <= i < |es| ==> es[i].tag != tag) ==> r == ""
    ensures forall i :: 0 <= i < |es| && es[i].tag == tag && (forall j :: 0 <= j < i ==> es[j].tag != tag) ==> r == TextOf(es[i])
    ensures r != [] ==> !IsSpace(r[0]) && !IsSpace(r[|r| - 1])
  {
    FirstWithTagSpec(es, tag);
    FirstTextAt(es, tag, r);
    if FirstWithTag(es, tag).Some? {
      TextOfIsTrimmed(FirstWithTag(es, tag).value);
    }
  }

  lemma FirstTextAt(es: seq<Element>, tag: string, r: string)
    requires r == match FirstWithTag(es, tag) case None => "" case Some(c) => TextOf(c)
    ensures forall i :: 0 <= i < |es| && es[i].tag == tag && (forall j :: 0 <= j < i ==> es[j].tag != tag) ==> r == TextOf(es[i])
  {
    forall i | 0 <= i < |es| && es[i].tag == tag && (forall j :: 0 <= j < i ==> es[j].tag != tag)
      ensures r == TextOf(es[i])
    {
      FirstWithTagAt(es, tag, i);
    }
  }

  /** The element at the first index with the tag is what `FirstWithTag` finds. */
  lemma {:induction false} FirstWithTagAt(es: seq<Element>, tag: string, i: nat)
    requires i < |es| && es[i].tag == tag && forall j :: 0 <= j < i ==> es[j].tag != tag
    ensures FirstWithTag(es, tag) == Some(es[i])
  {
    if i > 0 {
      assert es[0].tag != tag;
      FirstWithTagAt(es[1..], tag, i - 1);
    }
  }

  /** `_get_text` gives the text of the first child tagged `tag`, stripped, and "" when there is none. */
  lemma GetTextSpec(parent: Element, tag: string)
    ensures var cs, r := parent.children, GetText(parent, tag);
      && ((forall i :: 0 <= i < |cs| ==> cs[i].tag != tag) ==> r == "")
      && (forall i :: 0 <= i < |cs| && cs[i].tag == tag && (forall j :: 0 <= j < i ==> cs[j].tag != tag) ==> r == TextOf(cs[i]))
      && (r != [] ==> !IsSpace(r[0]) && !IsSpace(r[|r| - 1]))
  {
    FirstTextSpec(parent.children, tag, GetText(parent, tag));
  }

  /** `_find_text` gives the text of the first descendant tagged `tag`, stripped, and "" when there is none. */
  lemma FindTextSpec(root: Element, tag: string)
    ensures var ds, r := Descendants(root), FindText(root, tag);
      && ((forall i :: 0 <= i < |ds| ==> ds[i].tag != tag) ==> r == "")
      && (forall i :: 0 <= i < |ds| && ds[i].tag == tag && (forall j :: 0 <= j < i ==> ds[j].tag != tag) ==> r == TextOf(ds[i]))
      && (r != [] ==> !IsSpace(r[0]) && !IsSpace(r[|r| - 1]))
  {
    FirstTextSpec(Descendants(root), tag, FindText(root, tag));
  }
}

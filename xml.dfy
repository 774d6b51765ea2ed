/**
 * The slice of the ElementTree interface the mapping engine uses: an element
 * with a tag, an attribute dictionary, an optional text and ordered children;
 * `find` (first direct child with a tag), `iterfind` (every direct child with
 * a tag, in document order) and `SubElement`/`append` (add a last child).
 */
module Xml {
  import opened Results

  datatype Element = Element(
    tag: string,
    attrib: map<string, string>,
    text: Option<string>,
    children: seq<Element>)

  /** `etree.Element(tag)`: a detached element with nothing in it. */
  function NewElement(tag: string): (e: Element)
    ensures e.tag == tag && e.attrib == map[] && e.text == None && e.children == []
  {
    Element(tag, map[], None, [])
  }

  /** `parent.append(child)`: the child becomes the last child; nothing else changes. */
  function Append(parent: Element, child: Element): (r: Element)
    ensures r.tag == parent.tag && r.attrib == parent.attrib && r.text == parent.text
    ensures |r.children| == |parent.children| + 1
    ensures r.children[..|parent.children|] == parent.children
    ensures r.children[|parent.children|] == child
  {
    parent.(children := parent.children + [child])
  }

  /** `el.find(tag)`: the first direct child whose tag is `tag`, if any. */
  function Find(kids: seq<Element>, tag: string): (r: Option<Element>)
    ensures r.None? <==> forall i :: 0 <= i < |kids| ==> kids[i].tag != tag
    ensures r.Some? ==> r.value in kids && r.value.tag == tag
  {
    if kids == [] then None
    else if kids[0].tag == tag then Some(kids[0])
    else Find(kids[1..], tag)
  }

  /** `el.iterfind(tag)`: every direct child whose tag is `tag`, in document order. */
  function FindAll(kids: seq<Element>, tag: string): (r: seq<Element>)
    ensures |r| <= |kids|
    ensures r == [] <==> forall i :: 0 <= i < |kids| ==> kids[i].tag != tag
    ensures forall k :: k in r ==> k in kids && k.tag == tag
  {
    if kids == [] then []
    else if kids[0].tag == tag then [kids[0]] + FindAll(kids[1..], tag)
    else FindAll(kids[1..], tag)
  }

  /** `find` returns the child at the lowest index carrying the tag. */
  lemma {:induction false} FindIsFirst(kids: seq<Element>, tag: string, i: nat)
    requires i < |kids| && kids[i].tag == tag
    requires forall j :: 0 <= j < i ==> kids[j].tag != tag
    ensures Find(kids, tag) == Some(kids[i])
  {
    if i > 0 {
      FindIsFirst(kids[1..], tag, i - 1);
    }
  }

  /** Children appended after the first match do not change what `find` returns. */
  lemma {:induction false} FindAppend(a: seq<Element>, b: seq<Element>, tag: string)
    ensures Find(a + b, tag) == if Find(a, tag).Some? then Find(a, tag) else Find(b, tag)
  {
    if a != [] {
      assert (a + b)[0] == a[0];
      assert (a + b)[1..] == a[1..] + b;
      FindAppend(a[1..], b, tag);
    } else {
      assert a + b == b;
    }
  }

  /** `iterfind` over two runs of children is the matches of the first, then of the second. */
  lemma {:induction false} FindAllAppend(a: seq<Element>, b: seq<Element>, tag: string)
    ensures FindAll(a + b, tag) == FindAll(a, tag) + FindAll(b, tag)
  {
    if a != [] {
      assert (a + b)[0] == a[0];
      assert (a + b)[1..] == a[1..] + b;
      FindAllAppend(a[1..], b, tag);
    } else {
      assert a + b == b;
    }
  }

  /** When every child carries the tag, `iterfind` returns all of them, in order. */
  lemma {:induction false} FindAllAllMatch(kids: seq<Element>, tag: string)
    requires forall i :: 0 <= i < |kids| ==> kids[i].tag == tag
    ensures FindAll(kids, tag) == kids
  {
    if kids != [] {
      FindAllAllMatch(kids[1..], tag);
    }
  }

  /** Appending children with other tags changes neither `find` nor `iterfind` for a tag. */
  lemma FindUnchanged(kids: seq<Element>, extra: seq<Element>, tag: string)
    requires forall i :: 0 <= i < |extra| ==> extra[i].tag != tag
    ensures Find(kids + extra, tag) == Find(kids, tag)
    ensures FindAll(kids + extra, tag) == FindAll(kids, tag)
  {
    FindAppend(kids, extra, tag);
    FindAllAppend(kids, extra, tag);
    assert FindAll(kids, tag) + [] == FindAll(kids, tag);
  }
}

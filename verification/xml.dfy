/**
 * The part of an ElementTree document the converters read and write: a tree
 * of elements, each with a tag, attributes, optional text and children, and
 * the lookups `find`, `findall` and the `.//` descendant search.
 */
module Xml {
  import opened Wrappers

  datatype Element = Element(tag: string, attrs: map<string, string>, text: Option<string>, children: seq<Element>)

  /** An element with text and nothing else, as `SubElement(parent, tag).text = text` makes. */
  function Leaf(tag: string, text: string): Element {
    Element(tag, map[], Some(text), [])
  }

  /** An element with children and no text or attributes. */
  function Node(tag: string, children: seq<Element>): Element {
    Element(tag, map[], None, children)
  }

  /** The elements of `es` whose tag is `tag`, in order. */
  function WithTag(es: seq<Element>, tag: string): seq<Element> {
    if es == [] then []
    else if es[0].tag == tag then [es[0]] + WithTag(es[1..], tag)
    else WithTag(es[1..], tag)
  }

  /** `e.findall(tag)`: the direct children of `e` with that tag, in document order. */
  function FindAll(e: Element, tag: string): seq<Element> {
    WithTag(e.children, tag)
  }

  /** `e.find(tag)`: the first direct child of `e` with that tag. */
  function Find(e: Element, tag: string): Option<Element> {
    var all := FindAll(e, tag);
    if all == [] then None else Some(all[0])
  }

  /** Filtering by tag keeps exactly the elements with that tag, in order. */
  lemma {:induction false} WithTagFacts(es: seq<Element>, tag: string)
    ensures |WithTag(es, tag)| <= |es|
    ensures forall x :: x in WithTag(es, tag) <==> x in es && x.tag == tag
    decreases |es|
  {
    if es != [] {
      WithTagFacts(es[1..], tag);
    }
  }

  /** With no matching child, `find` gives None; otherwise the first matching child. */
  lemma {:induction false} FindFirst(e: Element, tag: string, k: nat)
    requires k < |e.children| && e.children[k].tag == tag
    requires forall i :: 0 <= i < k ==> e.children[i].tag != tag
    ensures Find(e, tag) == Some(e.children[k])
  {
    FirstWithTag(e.children, tag, k);
  }

  lemma {:induction false} FirstWithTag(es: seq<Element>, tag: string, k: nat)
    requires k < |es| && es[k].tag == tag
    requires forall i :: 0 <= i < k ==> es[i].tag != tag
    ensures WithTag(es, tag) != [] && WithTag(es, tag)[0] == es[k]
    decreases k
  {
    if k > 0 {
      FirstWithTag(es[1..], tag, k - 1);
    }
  }

  /** `e.attrib.get(name)`. */
  function Attr(e: Element, name: string): Option<string> {
    if name in e.attrs then Some(e.attrs[name]) else None
  }

  /** The elements of the forest `es` and all their descendants, in document (pre-)order. */
  function Preorder(es: seq<Element>): seq<Element>
    decreases es
  {
    if es == [] then [] else [es[0]] + Preorder(es[0].children) + Preorder(es[1..])
  }

  /** What `.//` ranges over from `e`: every element strictly below `e`, in document order. */
  function Descendants(e: Element): seq<Element> {
    Preorder(e.children)
  }
}

/**
 * The part of the host document the navigation touches: elements with an
 * ordered child list, the navigation container and the arrows inside it.
 * The arrow is a structured record instead of the markup string the script
 * assigns to innerHTML.
 */
module Dom {
  import opened Wrappers

  /** The optional `<div class=thumbnailClass><img src alt loading="lazy"></div>` block. */
  datatype Thumbnail = Thumbnail(className: string, src: string, alt: string)

  /** One arrow: a div with className wrapping a link, an icon block and a content block. */
  datatype Arrow = Arrow(
    className: string,
    href: string,
    linkClass: string,
    iconClass: string,
    icon: string,
    contentClass: string,
    thumbnail: Option<Thumbnail>,
    textClass: string,
    labelTag: string,
    labelClass: string,
    labelText: string,
    titleTag: string,
    titleClass: string,
    title: string)

  /** The navigation container div; its children are the arrows, appended one at a time. */
  class NavContainer {
    const className: string
    /** The value of its data-section-theme attribute. */
    const theme: string
    var arrows: seq<Arrow>

    constructor (className: string, theme: string)
      ensures this.className == className && this.theme == theme
      ensures arrows == []
    {
      this.className := className;
      this.theme := theme;
      arrows := [];
    }

    method AppendChild(a: Arrow)
      modifies this`arrows
      ensures arrows == old(arrows) + [a]
    {
      arrows := arrows + [a];
    }
  }

  /** A child of a document element. */
  datatype Node = ElementNode(element: Element) | NavNode(nav: NavContainer) | TextNode(text: string)

  /** Position of the first occurrence of x in s. */
  function IndexOf(s: seq<Node>, x: Node): (k: nat)
    requires x in s
    ensures k < |s| && s[k] == x
    ensures forall j :: 0 <= j < k ==> s[j] != x
  {
    if s[0] == x then 0 else 1 + IndexOf(s[1..], x)
  }

  /** s with x placed immediately before position k. */
  function InsertAt(s: seq<Node>, k: nat, x: Node): (r: seq<Node>)
    requires k <= |s|
    ensures |r| == |s| + 1 && r[k] == x
    ensures r[..k] == s[..k] && r[k + 1..] == s[k..]
  {
    s[..k] + [x] + s[k..]
  }

  class Element {
    var children: seq<Node>
    var parentNode: Element?

    function FirstChild(): (r: Option<Node>)
      reads this
      ensures r.None? <==> children == []
      ensures r.Some? ==> r.value == children[0]
    {
      if children == [] then None else Some(children[0])
    }

    method AppendChild(n: Node)
      modifies this`children
      ensures children == old(children) + [n]
    {
      children := children + [n];
    }

    /** insertBefore(n, ref): before the first occurrence of ref, or at the end when ref is null. */
    method InsertBefore(n: Node, ref: Option<Node>)
      requires ref.Some? ==> ref.value in children
      modifies this`children
      ensures ref.None? ==> children == old(children) + [n]
      ensures ref.Some? ==> children == InsertAt(old(children), IndexOf(old(children), ref.value), n)
    {
      if ref.None? {
        children := children + [n];
      } else {
        children := InsertAt(children, IndexOf(children, ref.value), n);
      }
    }
  }

  /** What the document guarantees about an element and its parent: no self-parenting, and the parent lists it. */
  predicate WellLinked(e: Element)
    reads e, e.parentNode
  {
    e.parentNode != null ==> e.parentNode != e && ElementNode(e) in e.parentNode.children
  }

  /** Removing the inserted node gives back the original children, in their original order. */
  lemma InsertAtKeepsOthers(s: seq<Node>, k: nat, x: Node)
    requires k <= |s|
    ensures InsertAt(s, k, x)[..k] + InsertAt(s, k, x)[k + 1..] == s
  {
    var r := InsertAt(s, k, x);
    assert r[..k] == s[..k];
    assert r[k + 1..] == s[k..];
    assert s[..k] + s[k..] == s;
  }
}

/**
 * The part of the player page's DOM that the adapter reads: a finite map of
 * element records, and the elements that the three control selectors match.
 * Selector matching itself is not modelled; each selector result is given.
 */
module Page {
  import opened Wrappers

  type ElementId = nat

  /** The first element child of an icon; the adapter reads only its `d` attribute. */
  datatype Child = Child(d: Option<string>)

  /** One DOM element: its tag name, its parent element, its `disabled` flag and its first element child. */
  datatype Element = Element(tag: string, parent: Option<ElementId>, disabled: bool, firstChild: Option<Child>)

  /**
   * A snapshot of the page: every element by id, and the result of the selector
   * for the combined play/pause icon, the next icon and the previous icon.
   */
  datatype Dom = Dom(
    elements: map<ElementId, Element>,
    playIcon: Option<ElementId>,
    nextIcon: Option<ElementId>,
    prevIcon: Option<ElementId>)

  /**
   * A slot the resolver can post-process: if it holds an element, the element
   * exists, and if it is an `svg` its parent element exists too.
   */
  predicate Liftable(dom: Dom, slot: Option<ElementId>)
  {
    slot.Some? ==>
      slot.value in dom.elements &&
      (dom.elements[slot.value].tag == "svg" ==>
         dom.elements[slot.value].parent.Some? && dom.elements[slot.value].parent.value in dom.elements)
  }

  /**
   * What the resolver needs of the page so that no dereference hits `null`:
   * every matched icon can be lifted, and the combined icon has a first child.
   */
  predicate Valid(dom: Dom)
  {
    Liftable(dom, dom.playIcon) && Liftable(dom, dom.nextIcon) && Liftable(dom, dom.prevIcon) &&
    (dom.playIcon.Some? ==> dom.elements[dom.playIcon.value].firstChild.Some?)
  }

  /** The element a slot's click should reach: an `svg` icon's parent, any other element itself. */
  function Clickable(dom: Dom, id: ElementId): (c: ElementId)
    requires Liftable(dom, Some(id))
    ensures c in dom.elements
    ensures dom.elements[id].tag != "svg" ==> c == id
    ensures dom.elements[id].tag == "svg" ==> dom.elements[id].parent == Some(c)
  {
    if dom.elements[id].tag == "svg" then dom.elements[id].parent.value else id
  }
}

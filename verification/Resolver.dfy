/**
 * The element resolver: finds the transport controls on the page, tells the
 * play glyph from the pause glyph on the combined control, lifts icons to the
 * button that holds them and drops disabled controls.
 */
module Resolver {
  import opened Wrappers
  import opened Page

  /** The `d` path of the play glyph's first child. */
  const PLAY_SVG: string := "M16.032 31.584c-8.64 0-15.616-6.976-15.616-15.616S7.392.416 16.032.416s15.552 6.976 15.552 15.616c0 8.576-6.976 15.552-15.552 15.552zm0-30.08c-8.064 0-14.528 6.464-14.528 14.528S7.968 30.56 16.032 30.56 30.56 24.096 30.56 16.032c-.064-8.064-6.528-14.528-14.528-14.528zm-3.776 8.992l9.568 5.536-9.568 5.536V10.496M11.168 8.64v14.72l12.672-7.328L11.168 8.64z"

  /** The `d` path of the pause glyph's first child. */
  const PAUSE_SVG: string := "M16.032 31.584c-8.64 0-15.616-6.976-15.616-15.616S7.392.416 16.032.416s15.552 6.976 15.552 15.616c0 8.576-6.976 15.552-15.552 15.552zm0-30.08c-8.064 0-14.528 6.464-14.528 14.528S7.968 30.56 16.032 30.56 30.56 24.096 30.56 16.032c-.064-8.064-6.528-14.528-14.528-14.528zm-3.776 8.064h1.696v12.864h-1.696V9.568zm5.888 0h1.664v12.864h-1.664V9.568z"

  /** What the combined control's icon currently shows. */
  datatype Glyph = PlayGlyph | PauseGlyph | UnknownGlyph

  /** The four control slots, in the order the resolver visits them. */
  datatype ControlSet = ControlSet(
    play: Option<ElementId>,
    pause: Option<ElementId>,
    next: Option<ElementId>,
    prev: Option<ElementId>)

  lemma DistinctGlyphs()
    ensures PLAY_SVG != PAUSE_SVG
  {
    assert |PLAY_SVG| != |PAUSE_SVG|;
  }

  /**
   * The icon classifier: an exact string comparison of the path against the
   * two reference glyphs; an absent path or any other string is unknown.
   */
  function Classify(d: Option<string>): (g: Glyph)
    ensures g == PauseGlyph <==> d == Some(PAUSE_SVG)
    ensures g == PlayGlyph <==> d == Some(PLAY_SVG)
    ensures g == UnknownGlyph <==> d != Some(PAUSE_SVG) && d != Some(PLAY_SVG)
  {
    DistinctGlyphs();
    if d == Some(PAUSE_SVG) then PauseGlyph
    else if d == Some(PLAY_SVG) then PlayGlyph
    else UnknownGlyph
  }

  /** The `d` path of the combined icon's first child. */
  function IconPath(dom: Dom): (d: Option<string>)
    requires Valid(dom) && dom.playIcon.Some?
    ensures dom.elements[dom.playIcon.value].firstChild == Some(Child(d))
  {
    dom.elements[dom.playIcon.value].firstChild.value.d
  }

  /**
   * The record after the combined control has been classified and before any
   * slot is post-processed: the icon stays in `play`, moves to `pause`, or is dropped.
   */
  function Classified(dom: Dom): (c: ControlSet)
    requires Valid(dom)
    ensures c.next == dom.nextIcon && c.prev == dom.prevIcon
    ensures c.play.Some? <==> dom.playIcon.Some? && Classify(IconPath(dom)) == PlayGlyph
    ensures c.play.Some? ==> c.play == dom.playIcon
    ensures c.pause.Some? <==> dom.playIcon.Some? && Classify(IconPath(dom)) == PauseGlyph
    ensures c.play.None? || c.pause.None?
    ensures c.pause.Some? ==> c.pause == dom.playIcon
  {
    var elms := ControlSet(dom.playIcon, None, dom.nextIcon, dom.prevIcon);
    if dom.playIcon.None? then elms
    else match Classify(IconPath(dom))
      case PauseGlyph => elms.(pause := elms.play, play := None)
      case PlayGlyph => elms
      case UnknownGlyph => elms.(play := None)
  }

  /**
   * The post-processing of one slot: an `svg` icon is replaced by its parent
   * (one level only), and a disabled element is replaced by nothing.
   */
  function Settle(dom: Dom, slot: Option<ElementId>): (r: Option<ElementId>)
    requires Liftable(dom, slot)
    ensures slot.None? ==> r.None?
    ensures slot.Some? ==> (r.Some? <==> !dom.elements[Clickable(dom, slot.value)].disabled)
    ensures r.Some? ==> r == Some(Clickable(dom, slot.value))
  {
    match slot
    case None => None
    case Some(id) => if dom.elements[Clickable(dom, id)].disabled then None else Some(Clickable(dom, id))
  }

  /** The record the resolver returns: every classified slot settled. */
  function Resolve(dom: Dom): (c: ControlSet)
    requires Valid(dom)
    ensures c.play.None? || c.pause.None?
    ensures c.play.Some? ==> dom.playIcon.Some? && c.play == Some(Clickable(dom, dom.playIcon.value))
    ensures c.pause.Some? ==> dom.playIcon.Some? && c.pause == Some(Clickable(dom, dom.playIcon.value))
    ensures c.next == Settle(dom, dom.nextIcon) && c.prev == Settle(dom, dom.prevIcon)
  {
    var k := Classified(dom);
    ControlSet(Settle(dom, k.play), Settle(dom, k.pause), Settle(dom, k.next), Settle(dom, k.prev))
  }

  /** A play glyph keeps the control in `play` (its button, unless disabled) and leaves `pause` empty. */
  lemma PlayGlyphResolves(dom: Dom)
    requires Valid(dom) && dom.playIcon.Some? && IconPath(dom) == Some(PLAY_SVG)
    ensures Resolve(dom).pause.None?
    ensures Resolve(dom).play.Some? <==> !dom.elements[Clickable(dom, dom.playIcon.value)].disabled
    ensures Resolve(dom).play.Some? ==> Resolve(dom).play == Some(Clickable(dom, dom.playIcon.value))
  {
    assert Classified(dom).play == dom.playIcon;
  }

  /** A pause glyph moves the control to `pause` (its button, unless disabled) and leaves `play` empty. */
  lemma PauseGlyphResolves(dom: Dom)
    requires Valid(dom) && dom.playIcon.Some? && IconPath(dom) == Some(PAUSE_SVG)
    ensures Resolve(dom).play.None?
    ensures Resolve(dom).pause.Some? <==> !dom.elements[Clickable(dom, dom.playIcon.value)].disabled
    ensures Resolve(dom).pause.Some? ==> Resolve(dom).pause == Some(Clickable(dom, dom.playIcon.value))
  {
    assert Classified(dom).pause == dom.playIcon;
  }

  /** No combined icon, or an icon showing neither glyph, leaves both `play` and `pause` empty. */
  lemma UnknownGlyphResolves(dom: Dom)
    requires Valid(dom)
    requires dom.playIcon.Some? ==> IconPath(dom) != Some(PLAY_SVG) && IconPath(dom) != Some(PAUSE_SVG)
    ensures Resolve(dom).play.None? && Resolve(dom).pause.None?
  {
  }

  /** `play` and `pause` are the same physical control: at most one of them is resolved. */
  lemma AtMostOneOfPlayPause(dom: Dom)
    requires Valid(dom)
    ensures Resolve(dom).play.None? || Resolve(dom).pause.None?
  {
  }

  /**
   * Every resolved control exists, is enabled, and is the clickable element of
   * the icon its selector matched; a selector that matched nothing gives nothing.
   */
  lemma ResolvedControlsEnabled(dom: Dom)
    requires Valid(dom)
    ensures forall s | s in Slots(Resolve(dom)) && s.Some? :: s.value in dom.elements && !dom.elements[s.value].disabled
    ensures Resolve(dom).play.Some? ==> Resolve(dom).play == Some(Clickable(dom, dom.playIcon.value))
    ensures Resolve(dom).pause.Some? ==> Resolve(dom).pause == Some(Clickable(dom, dom.playIcon.value))
    ensures Resolve(dom).next.Some? ==> Resolve(dom).next == Some(Clickable(dom, dom.nextIcon.value))
    ensures Resolve(dom).prev.Some? ==> Resolve(dom).prev == Some(Clickable(dom, dom.prevIcon.value))
    ensures dom.nextIcon.None? ==> Resolve(dom).next.None?
    ensures dom.prevIcon.None? ==> Resolve(dom).prev.None?
    ensures dom.playIcon.None? ==> Resolve(dom).play.None? && Resolve(dom).pause.None?
  {
  }

  /** `next` and `prev` depend only on their own selector result, never on the combined icon. */
  lemma NextPrevIndependent(dom1: Dom, dom2: Dom)
    requires Valid(dom1) && Valid(dom2)
    requires dom1.elements == dom2.elements
    requires dom1.nextIcon == dom2.nextIcon && dom1.prevIcon == dom2.prevIcon
    ensures Resolve(dom1).next == Resolve(dom2).next
    ensures Resolve(dom1).prev == Resolve(dom2).prev
  {
  }

  function Slots(c: ControlSet): seq<Option<ElementId>>
  {
    [c.play, c.pause, c.next, c.prev]
  }

  /**
   * `_getElements`: fills a four-slot record from the selectors, classifies the
   * combined icon, then walks the slots in order and settles each in place.
   */
  method GetElements(dom: Dom) returns (elms: ControlSet)
    requires Valid(dom)
    ensures elms == Resolve(dom)
    ensures elms.play.None? || elms.pause.None?
    ensures elms.next == Settle(dom, dom.nextIcon) && elms.prev == Settle(dom, dom.prevIcon)
  {
    var slots := new Option<ElementId>[4] [dom.playIcon, None, dom.nextIcon, dom.prevIcon];
    if slots[0].Some? {
      var svg := dom.elements[slots[0].value].firstChild.value.d;
      if svg == Some(PAUSE_SVG) {
        slots[1] := slots[0];
        slots[0] := None;
      } else if svg != Some(PLAY_SVG) {
        slots[0] := None;
      }
    }
    ghost var classified := Slots(Classified(dom));
    assert slots[..] == classified;
    for key := 0 to 4
      invariant forall j :: 0 <= j < key ==> Liftable(dom, classified[j]) && slots[j] == Settle(dom, classified[j])
      invariant forall j :: key <= j < 4 ==> slots[j] == classified[j]
    {
      if slots[key].Some? {
        assert Liftable(dom, slots[key]);
        if dom.elements[slots[key].value].tag == "svg" {
          slots[key] := dom.elements[slots[key].value].parent;
        }
        if dom.elements[slots[key].value].disabled {
          slots[key] := None;
        }
      }
    }
    elms := ControlSet(slots[0], slots[1], slots[2], slots[3]);
  }

  /** The resolver is re-run fresh on each call: two calls on an unchanged page agree. */
  method GetElementsTwice(dom: Dom) returns (first: ControlSet, second: ControlSet)
    requires Valid(dom)
    ensures first == second
  {
    first := GetElements(dom);
    second := GetElements(dom);
  }
}

/**
 * One tick of the poll loop: the track metadata, the playback state and the
 * four capability flags that `update` pushes to the player component.
 */
module Extractor {
  import opened Wrappers
  import opened Page
  import opened Resolver

  datatype PlaybackState = Playing | Paused | Unknown

  /** The text the page shows for the current track; each field is absent when its node is. */
  datatype PageText = PageText(title: Option<string>, artist: Option<string>, album: Option<string>, artLocation: Option<string>)

  /** The track record handed to the player component. */
  datatype Track = Track(title: Option<string>, artist: Option<string>, album: Option<string>, artLocation: Option<string>, rating: Option<real>)

  datatype Capabilities = Capabilities(canGoPrev: bool, canGoNext: bool, canPlay: bool, canPause: bool)

  /** Everything one tick pushes, in the order it is pushed. */
  datatype Tick = Tick(track: Track, state: PlaybackState, caps: Capabilities)

  /**
   * A visible pause control means the media plays, a visible play control
   * that it is paused; with neither the state is unknown.
   */
  function StateOf(elms: ControlSet): (s: PlaybackState)
    ensures s == Playing <==> elms.pause.Some?
    ensures s == Paused <==> elms.pause.None? && elms.play.Some?
    ensures s == Unknown <==> elms.pause.None? && elms.play.None?
  {
    if elms.pause.Some? then Playing
    else if elms.play.Some? then Paused
    else Unknown
  }

  /** Each flag tells whether the matching control is present. */
  function CapabilitiesOf(elms: ControlSet): (c: Capabilities)
    ensures c.canGoPrev <==> elms.prev.Some?
    ensures c.canGoNext <==> elms.next.Some?
    ensures c.canPlay <==> elms.play.Some?
    ensures c.canPause <==> elms.pause.Some?
  {
    Capabilities(elms.prev.Some?, elms.next.Some?, elms.play.Some?, elms.pause.Some?)
  }

  /** The page's text fields are passed through; the rating is never known. */
  function TrackOf(text: PageText): (t: Track)
    ensures t.rating.None?
    ensures t.title == text.title && t.artist == text.artist
    ensures t.album == text.album && t.artLocation == text.artLocation
  {
    Track(text.title, text.artist, text.album, text.artLocation, None)
  }

  /**
   * What one tick pushes for a given control set: the state never claims
   * playback without a control to act on it, and the rating is never known.
   */
  function Snapshot(elms: ControlSet, text: PageText): (t: Tick)
    ensures t.state == Playing ==> t.caps.canPause
    ensures t.state == Paused ==> t.caps.canPlay && !t.caps.canPause
    ensures t.state == Unknown <==> !t.caps.canPlay && !t.caps.canPause
    ensures t.caps.canGoPrev <==> elms.prev.Some?
    ensures t.caps.canGoNext <==> elms.next.Some?
    ensures t.track.rating.None? && t.track.title == text.title && t.track.artist == text.artist
  {
    Tick(TrackOf(text), StateOf(elms), CapabilitiesOf(elms))
  }

  /**
   * On a resolved page the playback state and the flags agree: the state is
   * PLAYING exactly when pausing is possible, PAUSED exactly when playing is,
   * and UNKNOWN exactly when neither is.
   */
  lemma StateMatchesCapabilities(dom: Dom, text: PageText)
    requires Valid(dom)
    ensures Snapshot(Resolve(dom), text).state == Playing <==> Snapshot(Resolve(dom), text).caps.canPause
    ensures Snapshot(Resolve(dom), text).state == Paused <==> Snapshot(Resolve(dom), text).caps.canPlay
    ensures Snapshot(Resolve(dom), text).state == Unknown <==>
      !Snapshot(Resolve(dom), text).caps.canPlay && !Snapshot(Resolve(dom), text).caps.canPause
  {
    AtMostOneOfPlayPause(dom);
  }

  /** `update`, one tick: resolve the controls afresh and compute what is pushed. */
  method Update(dom: Dom, text: PageText) returns (t: Tick)
    requires Valid(dom)
    ensures t == Snapshot(Resolve(dom), text)
    ensures t.state == Playing <==> t.caps.canPause
    ensures t.state == Paused <==> t.caps.canPlay
    ensures t.state == Unknown <==> !t.caps.canPlay && !t.caps.canPause
    ensures t.caps.canGoPrev <==> Resolve(dom).prev.Some?
    ensures t.caps.canGoNext <==> Resolve(dom).next.Some?
    ensures t.track.rating.None?
  {
    var elms := GetElements(dom);
    StateMatchesCapabilities(dom, text);
    t := Snapshot(elms, text);
  }

  /** A page with a play-glyph button, a next button and a disabled previous button. */
  function ScenarioDom(): (dom: Dom)
    ensures Valid(dom)
  {
    Dom(map[
          1 := Element("button", None, false, None),
          2 := Element("svg", Some(1), false, Some(Child(Some(PLAY_SVG)))),
          3 := Element("button", None, false, None),
          4 := Element("svg", Some(3), false, None),
          5 := Element("button", None, true, None),
          6 := Element("svg", Some(5), false, None)],
        Some(2), Some(4), Some(6))
  }

  /**
   * That page, showing "Song A" by "Artist B", reads as paused; play and next
   * are possible, pause and previous are not.
   */
  lemma PausedPageSnapshot()
    ensures Snapshot(Resolve(ScenarioDom()), PageText(Some("Song A"), Some("Artist B"), None, None)) ==
      Tick(Track(Some("Song A"), Some("Artist B"), None, None, None), Paused, Capabilities(false, true, true, false))
  {
    PlayGlyphResolves(ScenarioDom());
  }
}

/** The action handler: which control a player action clicks. */
module Actions {
  import opened Wrappers
  import opened Page
  import opened Resolver
  import opened Extractor

  /** The player actions the handler knows, and any other action name. */
  datatype Action = TogglePlay | Play | Pause | Stop | PrevSong | NextSong | Other(name: string)

  /**
   * What the handler does: no click at all, or a click on a slot's value,
   * which is `null` when that slot is empty.
   */
  datatype Click = NoClick | ClickOn(target: Option<ElementId>)

  /**
   * The action-to-slot table. Toggling clicks `play` when present and `pause`
   * otherwise; an unknown action clicks nothing.
   */
  function Dispatch(action: Action, elms: ControlSet): (c: Click)
    ensures c.NoClick? <==> action.Other?
    ensures action == TogglePlay ==> c == ClickOn(if elms.play.Some? then elms.play else elms.pause)
    ensures action == Play ==> c == ClickOn(elms.play)
    ensures action == Pause || action == Stop ==> c == ClickOn(elms.pause)
    ensures action == PrevSong ==> c == ClickOn(elms.prev)
    ensures action == NextSong ==> c == ClickOn(elms.next)
  {
    match action
    case TogglePlay => if elms.play.Some? then ClickOn(elms.play) else ClickOn(elms.pause)
    case Play => ClickOn(elms.play)
    case Pause => ClickOn(elms.pause)
    case Stop => ClickOn(elms.pause)
    case PrevSong => ClickOn(elms.prev)
    case NextSong => ClickOn(elms.next)
    case Other(_) => NoClick
  }

  /**
   * On a resolved page, toggling pauses while playing, plays while paused,
   * and clicks `null` when the state is unknown.
   */
  lemma TogglePlayFollowsState(dom: Dom)
    requires Valid(dom)
    ensures StateOf(Resolve(dom)) == Playing ==> Dispatch(TogglePlay, Resolve(dom)) == Dispatch(Pause, Resolve(dom))
    ensures StateOf(Resolve(dom)) == Paused ==> Dispatch(TogglePlay, Resolve(dom)) == Dispatch(Play, Resolve(dom))
    ensures StateOf(Resolve(dom)) == Unknown ==> Dispatch(TogglePlay, Resolve(dom)) == ClickOn(None)
  {
    AtMostOneOfPlayPause(dom);
  }

  /** Whatever a resolved page's click targets exists and is enabled. */
  lemma DispatchTargetsEnabled(dom: Dom, action: Action)
    requires Valid(dom)
    ensures Dispatch(action, Resolve(dom)).ClickOn? && Dispatch(action, Resolve(dom)).target.Some? ==>
      var id := Dispatch(action, Resolve(dom)).target.value;
      id in dom.elements && !dom.elements[id].disabled
  {
    ResolvedControlsEnabled(dom);
  }

  /** `_onActionActivated`: resolve the controls afresh and click the action's slot. */
  method OnActionActivated(dom: Dom, action: Action) returns (c: Click)
    requires Valid(dom)
    ensures c == Dispatch(action, Resolve(dom))
    ensures c.ClickOn? && c.target.Some? ==> c.target.value in dom.elements && !dom.elements[c.target.value].disabled
  {
    var elms := GetElements(dom);
    DispatchTargetsEnabled(dom, action);
    c := Dispatch(action, elms);
  }

  /** On the scenario page, whose previous button is disabled, PREV_SONG reaches no element. */
  lemma PrevOnDisabledButton()
    ensures Dispatch(PrevSong, Resolve(ScenarioDom())) == ClickOn(None)
  {
  }
}

# Pretzel page adapter: control resolution, state derivation, action dispatch

A model in Dafny of the decision core of the Nuvola Player integration script for the Pretzel web player (`integrate.js`). The script watches the page's rendered player widget. It finds its transport controls. It turns what it sees into a playback state and four capability flags. It turns player actions back into clicks on the page's own buttons.

The page is abstracted as a finite map of element records (tag name, parent element, `disabled` flag, first element child with its `d` path attribute), plus the element that each of the three control selectors matches.

- `Page`: the abstract DOM, and the well-formedness the resolver relies on. A matched `svg` icon has a parent element, and the combined icon has a first child. The script dereferences both without a check.
- `Resolver`: the two reference glyph paths, the icon classifier, and `_getElements` as a method over a local four-slot array. The method visits the slots in the script's key order (play, pause, next, prev). It is proved equal to the specification function `Resolve`.
- `Extractor`: one tick of `update`. It covers the playback-state if-chain, the `!!` capability flags and the track record, whose rating is always absent.
- `Actions`: the `switch` of `_onActionActivated`. It maps an action to the click it makes.

## Model

| member | source | states |
|---|---|---|
| Page.Clickable | integrate.js:143-145 | an `svg` icon is replaced by its parent element, exactly one level up; any other element is kept |
| Resolver.IconPath | integrate.js:131 | the path read is the `d` attribute of the combined icon's first element child |
| Resolver.DistinctGlyphs | integrate.js:28-29 | the play and pause reference paths are different strings |
| Resolver.Classify | integrate.js:131-137 | the icon is PAUSE exactly when its path equals the pause path, PLAY exactly when it equals the play path, and unknown otherwise, including when the attribute is absent |
| Resolver.Classified | integrate.js:123-138 | after classification `next`/`prev` are the raw selector results; `play` holds the icon for a play glyph and is empty for a pause or unknown glyph; `pause` holds the icon exactly for a pause glyph; at most one of the two is set |
| Resolver.Settle | integrate.js:140-152 | an empty slot stays empty; a filled slot ends up holding the clickable element (an `svg` is replaced by its parent, one level) exactly when that element is not disabled, and is empty otherwise |
| Resolver.GetElements | integrate.js:121-155 | the in-place resolution loop returns exactly `Resolve(dom)`; at most one of play/pause is set; `next`/`prev` are each settled from their own selector result alone |
| Resolver.Resolve | integrate.js:121-155 | the reference definition of the resolver's result, which `GetElements` is proved equal to and the lemmas below are about: at most one of play/pause is set, each is the clickable element of the combined icon, and `next`/`prev` are settled from their own selector results |
| Resolver.PlayGlyphResolves | integrate.js:124-125 | with the play glyph, `pause` is empty and `play` holds the icon's button exactly when that button is enabled |
| Resolver.PauseGlyphResolves | integrate.js:132-134 | with the pause glyph, `play` is empty and `pause` holds the icon's button exactly when that button is enabled |
| Resolver.UnknownGlyphResolves | integrate.js:130-137 | with no combined icon, or with a path equal to neither reference, both `play` and `pause` are empty |
| Resolver.AtMostOneOfPlayPause | integrate.js:125-138 | after resolution at most one of `play` and `pause` is set |
| Resolver.ResolvedControlsEnabled | integrate.js:140-152 | every resolved control exists, is not disabled, and is the clickable element of the icon its selector matched; a selector that matched nothing yields an empty slot |
| Resolver.NextPrevIndependent | integrate.js:126-127 | `next` and `prev` do not depend on the combined icon or its classification |
| Resolver.GetElementsTwice | integrate.js:121-128 | two resolutions of an unchanged page give equal control sets |
| Extractor.StateOf | integrate.js:75-82 | PLAYING exactly when `pause` is set, PAUSED exactly when only `play` is set, UNKNOWN exactly when neither is: exclusive and exhaustive |
| Extractor.CapabilitiesOf | integrate.js:85-88 | each flag is true exactly when its control (prev, next, play, pause) is present |
| Extractor.TrackOf | integrate.js:65-71 | title, artist, album and art location are passed through from the page; the rating is always absent |
| Extractor.Snapshot | integrate.js:65-88 | the reference definition of one tick's pushed values, which `Update` is proved equal to: PLAYING implies pausing is possible, PAUSED implies playing is possible and pausing is not, UNKNOWN exactly when neither is; prev/next flags follow their controls; title and artist are passed through and the rating is absent |
| Extractor.StateMatchesCapabilities | integrate.js:75-88 | on a resolved page the state is PLAYING exactly when pausing is possible, PAUSED exactly when playing is, UNKNOWN exactly when neither is |
| Extractor.Update | integrate.js:63-88 | one tick resolves the page afresh and pushes a state and flags that agree with each other and with the resolved controls, and a track without a rating |
| Extractor.ScenarioDom | integrate.js:124-127 | the example page (play-glyph button, next button, disabled previous button) satisfies the resolver's assumptions |
| Extractor.PausedPageSnapshot | integrate.js:63-88 | that page showing "Song A" by "Artist B" yields that track, PAUSED, can play and go next, cannot pause or go back |
| Actions.Dispatch | integrate.js:97-118 | TOGGLE_PLAY clicks `play` if present and `pause` otherwise; PLAY clicks `play`; PAUSE and STOP click `pause`; PREV_SONG clicks `prev`; NEXT_SONG clicks `next`; any other name clicks nothing |
| Actions.TogglePlayFollowsState | integrate.js:98-104 | on a resolved page, toggling acts as PAUSE while playing and as PLAY while paused, and clicks `null` when the state is unknown |
| Actions.DispatchTargetsEnabled | integrate.js:95-118 | any element an action clicks on a resolved page exists and is enabled |
| Actions.OnActionActivated | integrate.js:95-119 | the handler resolves afresh and makes the table's click, whose target, if any, is an enabled element |
| Actions.PrevOnDisabledButton | integrate.js:112-114 | PREV_SONG on the example page, whose previous button is disabled, reaches no element |

## Left out

- Lifecycle bootstrap (`_onInitWebWorker`, the `readyState` / `DOMContentLoaded` handling, `_onPageReady`, the action-signal subscription and `WebApp.start()`): host event wiring with no decision logic.
- The `setTimeout` self-rescheduling poll: `Extractor.Update` models one tick; the endless timer loop is not modelled.
- CSS selector matching by `document.querySelector`: each selector's result is an input of the page model.
- `Nuvola.queryText` / `Nuvola.queryAttribute`: library calls whose behaviour is not shown; their results are inputs (`PageText`).
- The player component's `setTrack`, `setPlaybackState` and `setCan*` calls: the model returns the values passed to them, not what the component does with them.
- `Nuvola.clickOnElement`: the model returns the element passed to it, `null` included. What the library does with `null` is not modelled. The script calls it with `null` whenever the targeted slot is empty; it does not skip the call. So "no click" in the model means only that an unrecognised action makes no call at all.
- The concrete string values of Nuvola's `PlayerAction` constants: actions are a datatype, and any other name is `Other(name)`.
- The script throws when the combined icon has no first element child, or when a matched `svg` has no parent element. The model requires a page without these cases (`Page.Valid`) and does not model the exception.
- Aliasing of DOM nodes beyond identity: elements are ids in an immutable map, and the page does not change during one resolution.

# Monument scenes: pointer picking, screen-anchored hotspots and popups

This project models the interaction logic of three small three.js pages. Each
page shows one monument.

- **Stonehenge** (`js/stonehenge.js`):
  - sprite hotspots are kept in two registries;
  - the pointer is converted to normalized device coordinates (NDC);
  - the cursor changes while hovering a hotspot;
  - a click or touch opens a popup with the first hit's data;
  - opening the popup removes its `show` class at once and adds it again
    through a `setTimeout` callback;
  - closing it removes `show` at once and sets display "none" through a
    `setTimeout` callback;
  - a global loader closes once every model has loaded.
- **Big Ben** (`js/big-ben.js`): one sphere hotspot. A click that hits it
  fills and displays the popup. Nothing ever hides the popup.
- **Torre Eiffel** (`js/torre-eiffel.js`):
  - each hotspot is an HTML marker anchored to a 3D point;
  - every frame, the marker is hidden when the projected depth falls outside
    the clip range;
  - otherwise it is placed on the anchor's pixel, and optionally scaled by
    `clamp(1/(d·0.09), 0.45, 1.2)`;
  - clicking a marker opens the popup, and the close button hides it after a
    delay.

The modules:

- `Screen`: pixel ↔ NDC conversions, with two round-trip lemmas.
- `Raycast`: the result of a ray cast, taken as an input list of
  intersections sorted by distance, and "first intersection wins".
- `Popup`: the popup element and the browser's timer queue.
  - A `setTimeout` callback is a `Timer` (its due time and its action).
  - The queue is kept in due order. Callbacks due at the same instant run in
    the order they were scheduled.
  - `AdvanceTo` lets the clock reach a time and runs every callback due by
    then.
  - `PopupElement` is the stateful counterpart. Its `Advance` loop pops due
    callbacks one at a time and is proved equal to `AdvanceTo`.
- `Stonehenge`, `BigBen`, `TorreEiffel`: one module per page.
  - Each page's handlers are pure step functions on the popup state, with
    lemmas about them.
  - Each page also has a scene class whose fields are the page's mutable
    globals (registries, pointer, cursor, loader counters, marker styles).
    Its methods are proved to follow the step functions.

Browser-provided quantities are parameters:

- the viewport size;
- the hits of a ray cast;
- an anchor's projection and its distance from the camera;
- the time up to which the event loop runs.

The popup's timers are never cancelled, so:

- Opening a popup does not cancel a pending hide. A close followed by a reopen
  within the hide delay still ends with the popup hidden, showing the new
  content. `CloseThenReopenEndsHidden` proves this for Stonehenge and for
  Torre Eiffel. Nothing in `js/stonehenge.js` calls `closePopup`, and the file
  is an ES module, so the function is not reachable from the page either; the
  Stonehenge close is modelled from the function alone.
- Closing twice queues two hide callbacks.
- Stonehenge's `showPopup` removes `show` and re-adds it after 5 ms. The Torre
  Eiffel version does not remove it first.

## Model

| member | source | states |
|---|---|---|
| Screen.PointerX | js/stonehenge.js:99 | a pixel column inside the viewport maps into [-1, 1]; the left edge gives -1, the right edge 1, the centre 0 |
| Screen.PointerY | js/stonehenge.js:100 | a pixel row inside the viewport maps into [-1, 1], inverted: the top gives 1, the bottom -1, the centre 0 |
| Screen.NdcToScreenX | js/torre-eiffel.js:98 | an NDC x in [-1, 1] maps into [0, width]; -1 gives 0, 0 gives the centre, 1 gives width |
| Screen.NdcToScreenY | js/torre-eiffel.js:99 | an NDC y in [-1, 1] maps into [0, height], inverted: 1 gives the top, -1 the bottom |
| Screen.PointerXIncreasing | js/big-ben.js:76 | moving the pointer right strictly increases the NDC x |
| Screen.PointerYInverted | js/big-ben.js:77 | moving the pointer down strictly decreases the NDC y |
| Screen.ScreenThenPointer | js/torre-eiffel.js:98-99 | the pixel a projected point is drawn at converts back, as a pointer, to that point's NDC x and y |
| Screen.PointerThenScreen | js/stonehenge.js:110-111 | converting a pointer to NDC and projecting it back gives the same pixel |
| Raycast.FirstHit | js/stonehenge.js:116-117 | there is a first hit exactly when the ray hit something, and it is the target of the first intersection in the list |
| Raycast.FirstHitIsNearest | js/stonehenge.js:114-117 | in a distance-sorted hit list the chosen target is at the least distance |
| Popup.Insert | js/stonehenge.js:176 | scheduling adds the timer exactly once, keeps every other timer, and keeps a sorted queue sorted |
| Popup.InsertPlacement | js/stonehenge.js:176 | the new timer goes after every timer due no later than it and, in a sorted queue, before every timer due later, so equal due times run in scheduling order |
| Popup.Schedule | js/stonehenge.js:182 | `setTimeout` leaves the element as it is and adds one timer due `delay` ms from now; the queue stays well formed |
| Popup.PopupElement.constructor | js/stonehenge.js:164-166 | the popup starts with empty text and image source, no inline display on it or its image, no `show` class, the clock at 0 and no pending callbacks |
| Popup.Apply | js/stonehenge.js:176 | a due callback either adds `show` (js/stonehenge.js:176, js/torre-eiffel.js:128) or sets display "none" (js/stonehenge.js:182, js/torre-eiffel.js:133), and changes nothing else |
| Popup.Run | js/stonehenge.js:176 | running callbacks only changes `show` and `display`; display is "none" iff some callback sets it, and `show` is set iff it was set already or some callback adds it |
| Popup.AdvanceTo | js/torre-eiffel.js:128 | when the clock reaches t: display is "none" iff a hide callback was due by t, `show` is set iff it was set or an add was due by t, the queue stays well formed, and the clock becomes max(now, t) |
| Popup.PendingAfterAdvance | js/torre-eiffel.js:128 | once the clock reaches t, exactly the timers due after t are still pending |
| Popup.CloseAfter | js/stonehenge.js:179-183 | closing removes `show` now, changes nothing else and queues one hide callback `delay` ms ahead (300 ms for Stonehenge, 400 ms for the Torre Eiffel close button at js/torre-eiffel.js:131-134) |
| Popup.StillPending | js/torre-eiffel.js:133 | a timer not yet due survives an advance of the clock |
| Popup.HidePendingAfterClose | js/torre-eiffel.js:133 | the hide callback of a close is still pending less than `delay` ms later |
| Popup.PendingHideWins | js/torre-eiffel.js:133 | a pending hide due by t leaves the popup hidden at t, whatever else ran |
| Popup.ScheduledAddShowRuns | js/stonehenge.js:176 | a `show` callback scheduled `delay` ms ahead has run once the clock has advanced by `delay`; display is then "none" iff an earlier hide fell due |
| Popup.PopupElement.SetTimeout | js/stonehenge.js:182 | the element's new state is `Schedule` of its old state |
| Popup.PopupElement.Advance | js/torre-eiffel.js:128 | the event loop leaves exactly the state `AdvanceTo` describes |
| Popup.PopupElement.RunDue | js/stonehenge.js:176 | popping the queue head while it is due runs the whole due prefix in queue order and leaves the rest pending |
| Stonehenge.LoaderStep | js/stonehenge.js:136-143 | once closed, a call changes nothing; otherwise it counts one more load; the invariant (closed and hidden iff all loaded, count ≤ total) is kept |
| Stonehenge.LoaderAfterCalls | js/stonehenge.js:132-143 | after n calls the count is min(n, total) and the loader is closed and hidden iff n ≥ total |
| Stonehenge.ClosesExactlyOnce | js/stonehenge.js:139-141 | the loader closes at exactly one call: the one that brings the count to the total |
| Stonehenge.CursorFor | js/stonehenge.js:105 | the cursor is "pointer" iff the ray hits a hotspot, and "default" iff it hits none |
| Stonehenge.ShowPopupStep | js/stonehenge.js:164-177 | `showPopup` sets the title, description and image, removes `show`, displays the popup and queues one `show` callback 5 ms ahead |
| Stonehenge.InteractionStep | js/stonehenge.js:113-119 | no hit leaves the popup unchanged; otherwise the popup opens with the first hit's title, description and image |
| Stonehenge.InteractionOpensNearest | js/stonehenge.js:113-119 | with the hits nearest first, a click opens the content of a hotspot at the least distance along the ray |
| Stonehenge.ShowPopupSettles | js/stonehenge.js:164-177 | 5 ms after opening, the popup has `show` and the new content, and is displayed iff no earlier hide fell due |
| Stonehenge.CloseThenReopenEndsHidden | js/stonehenge.js:179-183 | reopening less than 300 ms after a close still ends hidden at 300 ms, showing the new content |
| Stonehenge.StonehengeScene.constructor | js/stonehenge.js:37-41 | empty registries, pointer at the origin, no cursor style, loader open, popup in its initial state |
| Stonehenge.StonehengeScene.CreateHotspot | js/stonehenge.js:44-64 | the same sprite, with its data, is appended to both registries |
| Stonehenge.StonehengeScene.RegisterSceneHotspots | js/stonehenge.js:67-86 | the registries gain the three monuments in order, with their positions and data |
| Stonehenge.StonehengeScene.MouseMove | js/stonehenge.js:98-106 | the pointer is the converted position, and the cursor follows `CursorFor` |
| Stonehenge.StonehengeScene.HandleInteraction | js/stonehenge.js:109-120 | the pointer is the converted position, and the popup follows `InteractionStep` |
| Stonehenge.StonehengeScene.CheckAllLoaded | js/stonehenge.js:136-143 | the loader fields follow `LoaderStep`, and the loader invariant is kept |
| Stonehenge.StonehengeScene.ShowPopup | js/stonehenge.js:164-177 | the popup follows `ShowPopupStep` |
| Stonehenge.StonehengeScene.ClosePopup | js/stonehenge.js:179-183 | the popup follows `CloseAfter` with the page's hide delay |
| TorreEiffel.Clamp | js/torre-eiffel.js:107 | the result lies in [lo, hi]: a value inside is unchanged, one below gives lo, one above gives hi |
| TorreEiffel.DistanceScale | js/torre-eiffel.js:106-107 | the scale lies in [0.45, 1.2]; in the unclamped range it is exactly 1/(d·0.09); a reciprocal above 1.2 gives 1.2 and one below 0.45 gives 0.45; distance 0 (JavaScript `1/0`, which is `Infinity`) gives 1.2 |
| TorreEiffel.ScaleNonIncreasing | js/torre-eiffel.js:107 | a nearer anchor is drawn no smaller than a farther one |
| TorreEiffel.Placement | js/torre-eiffel.js:88-112 | displayed iff the depth is in [-1, 1]; otherwise only display becomes "none"; when displayed: the left/top pixel converts back to the anchor's NDC, lies inside the viewport, the centre maps to the centre, and the transform is centred, scaled by `DistanceScale` of the anchor\'s distance, so within [0.45, 1.2], iff `scaleWithDistance` |
| TorreEiffel.NearerMarkerNoSmaller | js/torre-eiffel.js:105-108 | of two displayed markers that scale with distance, the one whose anchor is nearer is drawn no smaller |
| TorreEiffel.OrEmpty | js/torre-eiffel.js:115-116 | the logical-or fallback to "" gives `v` when it is a non-empty string and "" otherwise |
| TorreEiffel.ShowPopupAtScreenStep | js/torre-eiffel.js:114-129 | title and description fall back to "" when missing or empty; the image is displayed iff given, with its source, and hidden with the old source otherwise; the popup is displayed at once; `show` is untouched; one `show` callback is queued 10 ms ahead |
| TorreEiffel.ShowPopupAtScreenSettles | js/torre-eiffel.js:126-128 | 10 ms after opening, the popup has `show` and the new text, and is displayed iff no earlier hide fell due |
| TorreEiffel.CloseThenReopenEndsHidden | js/torre-eiffel.js:131-134 | reopening less than 400 ms after a close still ends hidden at 400 ms, showing the new text |
| TorreEiffel.EiffelScene.constructor | js/torre-eiffel.js:58-61 | the scene starts with no hotspot entries and the popup in its initial state |
| TorreEiffel.Marker.constructor | js/torre-eiffel.js:68-70 | a new marker has no inline display, position or transform |
| TorreEiffel.EiffelScene.CreateDOMHotspot | js/torre-eiffel.js:63-85 | returns the anchor at (x, y, z) and a fresh marker; appends exactly that entry, with its content and options, to `domHotspots` |
| TorreEiffel.EiffelScene.RegisterSceneHotspots | js/torre-eiffel.js:138-140 | three fresh markers, for points A, B and C with their anchors, content and options, follow the existing entries |
| TorreEiffel.EiffelScene.UpdateHotspotScreenPosition | js/torre-eiffel.js:88-112 | the marker's new style is `Placement` of its old style |
| TorreEiffel.EiffelScene.Animate | js/torre-eiffel.js:153 | every marker, in order, gets `Placement` from this frame's projection of its anchor |
| TorreEiffel.EiffelScene.ClickMarker | js/torre-eiffel.js:77-80 | clicking the i-th marker opens the popup with that hotspot's content |
| TorreEiffel.EiffelScene.ShowPopupAtScreen | js/torre-eiffel.js:114-129 | the popup follows `ShowPopupAtScreenStep` |
| TorreEiffel.EiffelScene.ClosePopup | js/torre-eiffel.js:131-134 | the popup follows `CloseAfter` with the page's hide delay |
| BigBen.ShowPopupStep | js/big-ben.js:88-94 | `showPopup` sets the title, description and image and displays the popup; it touches neither `show` nor the timers |
| BigBen.ClickStep | js/big-ben.js:75-85 | no hit changes nothing; any hit opens the popup with the Colosseum content |
| BigBen.ShowPopupIdempotent | js/big-ben.js:88-94 | showing the same content twice equals showing it once |
| BigBen.StaysDisplayed | js/big-ben.js:74-94 | through any clicks, a displayed popup stays displayed, and nothing changes `show` or queues a timer |
| BigBen.HitShowsContent | js/big-ben.js:82-84 | after a click that hits, the popup is displayed with the fixed content, whatever came before |
| BigBen.BigBenScene.constructor | js/big-ben.js:37-46 | the pointer starts at the origin, the hotspot is the sphere at (0, 1, 0) of radius 0.05, and the popup is in its initial state |
| BigBen.BigBenScene.Click | js/big-ben.js:75-85 | the pointer is the converted position, and the popup follows `ClickStep` |
| BigBen.BigBenScene.ShowPopup | js/big-ben.js:88-94 | the popup follows `ShowPopupStep` |

## Left out

- Scene, camera, lights, renderer, sky sphere and OrbitControls setup, and `controls.update`/`render` each frame: rendering with no logic to model.
- `raycaster.setFromCamera`/`intersectObjects`, `Vector3.project`, `getWorldPosition` and `distanceTo`: three.js geometry. Their results are parameters (a distance-sorted hit list, a `Projection`).
- GLTF and texture loading, progress logging and error logging: asynchronous I/O. `CheckAllLoaded` models the load callback. The Big Ben load callback does nothing that is modelled. The Torre Eiffel loader's `display = "none"` and percentage text are not part of this model.
- `resize` listeners and `requestAnimationFrame` scheduling: browser scheduling; `Animate` models one frame's hotspot loop.
- The `click` and `touchstart` wrappers only forward `clientX`/`clientY` (of the first touch) to `HandleInteraction`; `e.stopPropagation()` in the marker listener is not modelled.
- DOM strings: `innerHTML` of the marker, the `px` and `translate(-50%,-50%) scale(…)` strings (kept as values in `MarkerStyle`), and the `sizePx` width/height of the marker's dot (kept in `HotspotOptions`, not applied).
- `js/transitions.js` is not part of this model.
- Floating point: all arithmetic is over `real`, so rounding and NaN are not modelled.
- Screen.PointerX: requires a positive viewport size; a zero-size window (JavaScript `Infinity`/`NaN`) is not modelled. The same holds for `PointerY` and the methods that call them.
- Initial inline styles are taken as unset (`Unset`); the page's CSS is not modelled.
- The ordering of callbacks relative to other browser tasks: only the popup's own `setTimeout` callbacks are in the queue.

/**
 * The Stonehenge scene: sprite hotspots picked by ray casting, a hover
 * cursor, a popup opened on click or touch with deferred style changes, and
 * the counter that closes the global loading screen.
 */
module Stonehenge {
  import opened Wrappers
  import opened Screen
  import opened Raycast
  import opened Popup

  /** The `userData` stored on each hotspot sprite. */
  datatype HotspotData = HotspotData(title: string, description: string, img: string)

  /** A hotspot sprite: where it sits and what its popup shows. */
  datatype Sprite = Sprite(position: Vec3, userData: HotspotData)

  /** The hotspots the scene registers at start-up, in order. */
  const SceneHotspots: seq<Sprite> := [
    Sprite(Vec3(5.0, 3.0, 0.0), HotspotData("Stonehenge",
      "Monumento megalítico en Inglaterra, construido entre el 3000 y el 2000 a.C.", "img/stonehenge.jpeg")),
    Sprite(Vec3(-3.0, 2.0, 2.0), HotspotData("Pirámide de Giza",
      "La pirámide más antigua y grande de Egipto.", "img/piramide.jpeg")),
    Sprite(Vec3(0.0, 4.0, -5.0), HotspotData("Machu Picchu",
      "Antigua ciudad inca ubicada en los Andes peruanos.", "img/machu.jpeg"))
  ]

  /** The inline `cursor` style of the page body. */
  datatype Cursor = NoCursorStyle | PointerCursor | DefaultCursor

  /** Delay before the `show` class is added after opening. */
  const ShowDelay: nat := 5
  /** Delay before `display: none` after closing. */
  const HideDelay: nat := 300

  /** Number of models whose load closes the loading screen. */
  const TotalToLoad: int := 1

  /** `loaded`, `loaderClosed`, and whether the loader element has the
      `hidden` class. */
  datatype Loader = Loader(loaded: int, closed: bool, hidden: bool)

  /** The loader is closed, and hidden, exactly when every model has loaded;
      the count never passes the total. */
  ghost predicate LoaderInv(l: Loader) {
    0 <= l.loaded <= TotalToLoad && l.closed == (l.loaded == TotalToLoad) && l.hidden == l.closed
  }

  /** One call of `checkAllLoaded`. */
  function LoaderStep(l: Loader): (r: Loader)
    ensures l.closed ==> r == l
    ensures !l.closed ==> r.loaded == l.loaded + 1
    ensures LoaderInv(l) ==> LoaderInv(r)
  {
    if l.closed then l
    else
      var n := l.loaded + 1;
      if n >= TotalToLoad then Loader(n, true, true) else Loader(n, l.closed, l.hidden)
  }

  /** The loader after `n` calls of `checkAllLoaded` from the initial state. */
  function LoaderAfter(n: nat): Loader {
    if n == 0 then Loader(0, false, false) else LoaderStep(LoaderAfter(n - 1))
  }

  /** After `n` calls the count is the smaller of `n` and the total, and the
      loader is closed and hidden exactly when `n` has reached the total. */
  lemma {:induction false} LoaderAfterCalls(n: nat)
    ensures LoaderAfter(n) == if n >= TotalToLoad then Loader(TotalToLoad, true, true) else Loader(n, false, false)
  {
    if n > 0 {
      LoaderAfterCalls(n - 1);
    }
  }

  /** The loader closes at exactly one call: the one that brings the count to
      the total. */
  lemma ClosesExactlyOnce(n: nat)
    ensures !LoaderAfter(n).closed && LoaderAfter(n + 1).closed <==> n + 1 == TotalToLoad
  {
    LoaderAfterCalls(n);
    LoaderAfterCalls(n + 1);
  }

  /** The hover cursor: a pointer exactly when the ray hits a hotspot. */
  function CursorFor(hits: seq<Intersection<Sprite>>): (c: Cursor)
    ensures c == PointerCursor <==> |hits| > 0
    ensures c == DefaultCursor <==> |hits| == 0
  {
    if |hits| > 0 then PointerCursor else DefaultCursor
  }

  /** `showPopup`: set the text and image, drop `show`, display the popup
      and add `show` again after `ShowDelay` milliseconds. */
  function ShowPopupStep(s: PopupState, title: string, description: string, img: string): (r: PopupState)
    ensures WellFormed(s) ==> WellFormed(r)
    ensures r.title == title && r.desc == description && r.imgSrc == img
    ensures r.display == Block && !r.shown && r.now == s.now && r.imgDisplay == s.imgDisplay
    ensures multiset(r.pending) == multiset(s.pending) + multiset{Timer(s.now + ShowDelay, AddShow)}
  {
    var filled := s.(title := title, desc := description, shown := false, display := Block, imgSrc := img);
    Schedule(filled, ShowDelay, AddShow)
  }

  /** `handleInteraction` once the ray has been cast: the first hit's data
      opens the popup; no hit leaves the popup as it was. */
  function InteractionStep(s: PopupState, hits: seq<Intersection<Sprite>>): (r: PopupState)
    ensures |hits| == 0 ==> r == s
    ensures |hits| > 0 ==> var d := hits[0].target.userData;
                           r == ShowPopupStep(s, d.title, d.description, d.img)
  {
    match FirstHit(hits)
    case Some(sprite) => ShowPopupStep(s, sprite.userData.title, sprite.userData.description, sprite.userData.img)
    case None => s
  }

  /** With the hits nearest first, as the ray caster returns them, a click
      opens the content of a hotspot at the least distance along the ray. */
  lemma InteractionOpensNearest(s: PopupState, hits: seq<Intersection<Sprite>>)
    requires SortedByDistance(hits) && |hits| > 0
    ensures exists i :: 0 <= i < |hits| &&
                        (forall j :: 0 <= j < |hits| ==> hits[i].distance <= hits[j].distance) &&
                        var d := hits[i].target.userData;
                        InteractionStep(s, hits) == ShowPopupStep(s, d.title, d.description, d.img)
  {
    FirstHitIsNearest(hits);
  }

  /** Once the opening delay has passed the popup carries the new content and
      the `show` class; it is still displayed unless a hide from an earlier
      close fell due in the meantime. */
  lemma ShowPopupSettles(s: PopupState, title: string, description: string, img: string)
    requires WellFormed(s)
    ensures var r := AdvanceTo(ShowPopupStep(s, title, description, img), s.now + ShowDelay);
            r.shown && r.title == title && r.desc == description && r.imgSrc == img &&
            (r.display == Block <==> !FiresBy(s.pending, s.now + ShowDelay, SetDisplayNone))
  {
    var filled := s.(title := title, desc := description, shown := false, display := Block, imgSrc := img);
    ScheduledAddShowRuns(filled, ShowDelay);
  }

  /** The hide timer of a close is never cancelled: reopening the popup less
      than `HideDelay` milliseconds after closing it still ends with the popup
      hidden, although it shows the new content. */
  lemma CloseThenReopenEndsHidden(s: PopupState, d: nat, title: string, description: string, img: string)
    requires WellFormed(s) && d < HideDelay
    ensures var reopened := ShowPopupStep(AdvanceTo(CloseAfter(s, HideDelay), s.now + d), title, description, img);
            var r := AdvanceTo(reopened, s.now + HideDelay);
            r.display == Hidden && r.title == title && r.desc == description && r.imgSrc == img
  {
    var hideTimer := Timer(s.now + HideDelay, SetDisplayNone);
    var waited := AdvanceTo(CloseAfter(s, HideDelay), s.now + d);
    HidePendingAfterClose(s, HideDelay, d);
    var reopened := ShowPopupStep(waited, title, description, img);
    assert hideTimer in multiset(reopened.pending);
    PendingHideWins(reopened, s.now + HideDelay, hideTimer);
  }

  /** The scene's hotspot registries, pointer, cursor, loader and popup. */
  class StonehengeScene {
    var clickableObjects: seq<Sprite>
    var hotspots: seq<Sprite>
    var mouseX: real
    var mouseY: real
    var cursor: Cursor
    var loaded: int
    var loaderClosed: bool
    var loaderHidden: bool
    const popup: PopupElement

    function LoaderState(): Loader
      reads this
    {
      Loader(loaded, loaderClosed, loaderHidden)
    }

    ghost predicate Valid()
      reads this, popup
    {
      clickableObjects == hotspots && LoaderInv(LoaderState()) && popup.Valid()
    }

    constructor ()
      ensures Valid() && fresh(popup) && popup.State() == Initial()
      ensures clickableObjects == [] && hotspots == []
      ensures mouseX == 0.0 && mouseY == 0.0 && cursor == NoCursorStyle
      ensures LoaderState() == LoaderAfter(0)
    {
      clickableObjects, hotspots := [], [];
      mouseX, mouseY := 0.0, 0.0;
      cursor := NoCursorStyle;
      loaded, loaderClosed, loaderHidden := 0, false, false;
      popup := new PopupElement();
    }

    /** `createHotspot`: the same sprite goes at the end of both registries. */
    method CreateHotspot(position: Vec3, title: string, description: string, img: string)
      requires Valid()
      modifies this`clickableObjects, this`hotspots
      ensures Valid()
      ensures var sprite := Sprite(position, HotspotData(title, description, img));
              clickableObjects == old(clickableObjects) + [sprite] && hotspots == old(hotspots) + [sprite]
    {
      var sprite := Sprite(position, HotspotData(title, description, img));
      clickableObjects := clickableObjects + [sprite];
      hotspots := hotspots + [sprite];
    }

    /** The scene's three `createHotspot` calls. */
    method RegisterSceneHotspots()
      requires Valid()
      modifies this`clickableObjects, this`hotspots
      ensures Valid()
      ensures clickableObjects == old(clickableObjects) + SceneHotspots && hotspots == old(hotspots) + SceneHotspots
    {
      var h := SceneHotspots;
      CreateHotspot(h[0].position, h[0].userData.title, h[0].userData.description, h[0].userData.img);
      CreateHotspot(h[1].position, h[1].userData.title, h[1].userData.description, h[1].userData.img);
      CreateHotspot(h[2].position, h[2].userData.title, h[2].userData.description, h[2].userData.img);
    }

    /** The `mousemove` listener, given the viewport size and the hits of the
        ray through the new pointer position. */
    method MouseMove(clientX: real, clientY: real, width: real, height: real, hits: seq<Intersection<Sprite>>)
      requires Valid() && width > 0.0 && height > 0.0
      modifies this`mouseX, this`mouseY, this`cursor
      ensures Valid()
      ensures mouseX == PointerX(clientX, width) && mouseY == PointerY(clientY, height)
      ensures cursor == CursorFor(hits)
    {
      mouseX := (clientX / width) * 2.0 - 1.0;
      mouseY := -(clientY / height) * 2.0 + 1.0;
      cursor := if |hits| > 0 then PointerCursor else DefaultCursor;
    }

    /** `handleInteraction`, run by the `click` listener with the event's
        position and by `touchstart` with the first touch's. */
    method HandleInteraction(x: real, y: real, width: real, height: real, hits: seq<Intersection<Sprite>>)
      requires Valid() && width > 0.0 && height > 0.0
      modifies this`mouseX, this`mouseY, popup
      ensures Valid()
      ensures mouseX == PointerX(x, width) && mouseY == PointerY(y, height)
      ensures popup.State() == InteractionStep(old(popup.State()), hits)
    {
      mouseX := (x / width) * 2.0 - 1.0;
      mouseY := -(y / height) * 2.0 + 1.0;
      if |hits| > 0 {
        var data := hits[0].target.userData;
        ShowPopup(data.title, data.description, data.img);
      }
    }

    /** `checkAllLoaded`, called when a model has loaded. */
    method CheckAllLoaded()
      requires Valid()
      modifies this`loaded, this`loaderClosed, this`loaderHidden
      ensures Valid() && LoaderState() == LoaderStep(old(LoaderState()))
    {
      if loaderClosed {
        return;
      }
      loaded := loaded + 1;
      if loaded >= TotalToLoad {
        loaderHidden := true;
        loaderClosed := true;
      }
    }

    method ShowPopup(title: string, description: string, img: string)
      requires Valid()
      modifies popup
      ensures Valid() && popup.State() == ShowPopupStep(old(popup.State()), title, description, img)
    {
      popup.title := title;
      popup.desc := description;
      popup.shown := false;
      popup.display := Block;
      popup.imgSrc := img;
      popup.SetTimeout(ShowDelay, AddShow);
    }

    method ClosePopup()
      requires Valid()
      modifies popup
      ensures Valid() && popup.State() == CloseAfter(old(popup.State()), HideDelay)
    {
      popup.shown := false;
      popup.SetTimeout(HideDelay, SetDisplayNone);
    }
  }
}

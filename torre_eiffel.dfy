/**
 * The Eiffel Tower scene: hotspots are page elements kept over their 3D
 * anchors by projecting the anchor every frame; clicking one opens the popup.
 */
module TorreEiffel {
  import opened Wrappers
  import opened Screen
  import opened Popup

  /** A hotspot's popup content; `None` stands for an argument left out. */
  datatype Info = Info(title: Option<string>, desc: Option<string>, img: Option<string>)

  datatype HotspotOptions = HotspotOptions(sizePx: Option<real>, scaleWithDistance: bool)

  /** A marker's inline `transform`: none yet, the centring translate, or the
      centring translate followed by a scale. */
  datatype Transform = NoTransform | Centred | CentredScaled(scale: real)

  /** The inline style of a marker element that the projection writes. */
  datatype MarkerStyle = MarkerStyle(display: Display, left: Option<real>, top: Option<real>, transform: Transform)

  /** What `Vector3.project` and `distanceTo` give for an anchor this frame:
      its normalized device coordinates and its distance from the camera. */
  datatype Projection = Projection(ndc: Vec3, distance: real)

  /** Anchor, content and options of the hotspots the scene creates at
      start-up, in order. */
  const SceneHotspots: seq<(Vec3, Info, HotspotOptions)> := [
    (Vec3(5.0, 0.0, 0.0), Info(Some("Punto A"), Some("Info."), Some("img/.jpeg")), HotspotOptions(Some(150.0), true)),
    (Vec3(2.0, 0.0, 0.0), Info(Some("Punto B"), Some("Otra info"), Some("img/.jpeg")), HotspotOptions(Some(56.0), false)),
    (Vec3(-6.0, 0.0, 0.0), Info(Some("Punto C"), Some("Más info"), Some("img/.jpeg")), HotspotOptions(Some(80.0), false))
  ]

  /** Delay before the `show` class is added after opening. */
  const ShowDelay: nat := 10
  /** Delay before `display: none` after the close button is clicked. */
  const HideDelay: nat := 400

  const DistanceFactor: real := 0.09
  const MinScale: real := 0.45
  const MaxScale: real := 1.2

  /** `THREE.MathUtils.clamp`: `Math.max(lo, Math.min(hi, v))`. */
  function Clamp(v: real, lo: real, hi: real): (r: real)
    requires lo <= hi
    ensures lo <= r <= hi
    ensures lo <= v <= hi ==> r == v
    ensures v < lo ==> r == lo
    ensures v > hi ==> r == hi
  {
    var below := if hi < v then hi else v;
    if lo > below then lo else below
  }

  /** The marker scale for an anchor `d` away from the camera. A zero
      denominator stands for JavaScript's `1 / 0`, which is `Infinity` and
      clamps to the largest scale. */
  function DistanceScale(d: real): (r: real)
    ensures MinScale <= r <= MaxScale
    ensures d * DistanceFactor == 0.0 ==> r == MaxScale
    ensures d > 0.0 && MinScale <= 1.0 / (d * DistanceFactor) <= MaxScale ==> r * d * DistanceFactor == 1.0
    ensures d != 0.0 && 1.0 / (d * DistanceFactor) > MaxScale ==> r == MaxScale
    ensures d != 0.0 && 1.0 / (d * DistanceFactor) < MinScale ==> r == MinScale
  {
    var denominator := d * DistanceFactor;
    if denominator == 0.0 then MaxScale
    else
      ReciprocalTimes(denominator);
      Clamp(1.0 / denominator, MinScale, MaxScale)
  }

  /** Nearer anchors are drawn no smaller than farther ones. */
  lemma ScaleNonIncreasing(d1: real, d2: real)
    requires 0.0 <= d1 <= d2
    ensures DistanceScale(d2) <= DistanceScale(d1)
  {
    if d1 > 0.0 {
      var a, b := d1 * DistanceFactor, d2 * DistanceFactor;
      ReciprocalDecreasing(a, b);
      ClampMonotonic(1.0 / b, 1.0 / a, MinScale, MaxScale);
    }
  }

  lemma ClampMonotonic(a: real, b: real, lo: real, hi: real)
    requires lo <= hi && a <= b
    ensures Clamp(a, lo, hi) <= Clamp(b, lo, hi)
  {
  }

  lemma ReciprocalDecreasing(a: real, b: real)
    requires 0.0 < a <= b
    ensures 1.0 / b <= 1.0 / a
  {
    ReciprocalTimes(a);
    ReciprocalTimes(b);
    assert (1.0 / b) * a <= (1.0 / b) * b;
  }

  lemma ReciprocalTimes(a: real)
    requires a != 0.0
    ensures (1.0 / a) * a == 1.0
  {
  }

  /** `updateHotspotScreenPosition` on a marker's style: a projected depth
      outside [-1, 1] hides the marker and keeps its last position and
      transform; otherwise the marker is displayed on the anchor's pixel,
      scaled by distance when its options ask for it. */
  function Placement(prev: MarkerStyle, p: Projection, options: HotspotOptions, width: real, height: real): (r: MarkerStyle)
    ensures r.display == Block <==> -1.0 <= p.ndc.z <= 1.0
    ensures r.display != Block ==> r == prev.(display := Hidden)
    ensures r.display == Block ==> r.left.Some? && r.top.Some?
    ensures r.display == Block && width > 0.0 && height > 0.0 ==>
              PointerX(r.left.value, width) == p.ndc.x && PointerY(r.top.value, height) == p.ndc.y
    ensures r.display == Block && 0.0 <= width && 0.0 <= height &&
            -1.0 <= p.ndc.x <= 1.0 && -1.0 <= p.ndc.y <= 1.0 ==>
              0.0 <= r.left.value <= width && 0.0 <= r.top.value <= height
    ensures r.display == Block && p.ndc.x == 0.0 && p.ndc.y == 0.0 ==>
              r.left == Some(width / 2.0) && r.top == Some(height / 2.0)
    ensures r.display == Block && !options.scaleWithDistance ==> r.transform == Centred
    ensures r.display == Block && options.scaleWithDistance ==>
              r.transform == CentredScaled(DistanceScale(p.distance)) && MinScale <= r.transform.scale <= MaxScale
  {
    if p.ndc.z > 1.0 || p.ndc.z < -1.0 then prev.(display := Hidden)
    else
      var transform := if options.scaleWithDistance then CentredScaled(DistanceScale(p.distance)) else Centred;
      MarkerRoundTrip(p.ndc, width, height);
      MarkerStyle(Block, Some(NdcToScreenX(p.ndc.x, width)), Some(NdcToScreenY(p.ndc.y, height)), transform)
  }

  /** Of two markers that scale with distance, the one whose anchor is nearer
      the camera is drawn no smaller. */
  lemma NearerMarkerNoSmaller(prev1: MarkerStyle, p1: Projection, prev2: MarkerStyle, p2: Projection,
                              options: HotspotOptions, width: real, height: real)
    requires options.scaleWithDistance && -1.0 <= p1.ndc.z <= 1.0 && -1.0 <= p2.ndc.z <= 1.0
    requires 0.0 <= p1.distance <= p2.distance
    ensures var near, far := Placement(prev1, p1, options, width, height), Placement(prev2, p2, options, width, height);
            near.transform.CentredScaled? && far.transform.CentredScaled? &&
            far.transform.scale <= near.transform.scale
  {
    ScaleNonIncreasing(p1.distance, p2.distance);
  }

  lemma MarkerRoundTrip(ndc: Vec3, width: real, height: real)
    ensures width > 0.0 && height > 0.0 ==>
              PointerX(NdcToScreenX(ndc.x, width), width) == ndc.x &&
              PointerY(NdcToScreenY(ndc.y, height), height) == ndc.y
  {
    if width > 0.0 && height > 0.0 {
      ScreenThenPointer(ndc.x, ndc.y, width, height);
    }
  }

  /** JavaScript truthiness of an optional string. */
  predicate Truthy(v: Option<string>) {
    v.Some? && v.value != ""
  }

  /** `v || ""`. */
  function OrEmpty(v: Option<string>): (r: string)
    ensures Truthy(v) ==> r == v.value
    ensures !Truthy(v) ==> r == ""
  {
    if Truthy(v) then v.value else ""
  }

  /** `showPopupAtScreen`: missing text becomes empty, the image is shown
      with its source only when one is given, the popup is displayed at once
      and the `show` class follows after `ShowDelay` milliseconds. */
  function ShowPopupAtScreenStep(s: PopupState, title: Option<string>, desc: Option<string>, img: Option<string>): (r: PopupState)
    ensures WellFormed(s) ==> WellFormed(r)
    ensures r.title == OrEmpty(title) && r.desc == OrEmpty(desc)
    ensures r.imgDisplay == Block <==> Truthy(img)
    ensures r.imgDisplay != Block ==> r.imgDisplay == Hidden && r.imgSrc == s.imgSrc
    ensures Truthy(img) ==> r.imgSrc == img.value
    ensures r.display == Block && r.shown == s.shown && r.now == s.now
    ensures multiset(r.pending) == multiset(s.pending) + multiset{Timer(s.now + ShowDelay, AddShow)}
  {
    Schedule(Pictured(s, title, desc, img), ShowDelay, AddShow)
  }

  /** The synchronous part of `showPopupAtScreen`. */
  function Pictured(s: PopupState, title: Option<string>, desc: Option<string>, img: Option<string>): PopupState {
    PopupState(OrEmpty(title), OrEmpty(desc),
               if Truthy(img) then img.value else s.imgSrc,
               if Truthy(img) then Block else Hidden,
               Block, s.shown, s.now, s.pending)
  }

  /** Once the opening delay has passed the popup has the `show` class and is
      displayed, unless a hide from an earlier close fell due meanwhile. */
  lemma ShowPopupAtScreenSettles(s: PopupState, title: Option<string>, desc: Option<string>, img: Option<string>)
    requires WellFormed(s)
    ensures var r := AdvanceTo(ShowPopupAtScreenStep(s, title, desc, img), s.now + ShowDelay);
            r.shown && r.title == OrEmpty(title) && r.desc == OrEmpty(desc) &&
            (r.display == Block <==> !FiresBy(s.pending, s.now + ShowDelay, SetDisplayNone))
  {
    ScheduledAddShowRuns(Pictured(s, title, desc, img), ShowDelay);
  }

  /** Reopening less than `HideDelay` milliseconds after a close still ends
      hidden: the close's timer is never cancelled. */
  lemma CloseThenReopenEndsHidden(s: PopupState, d: nat, title: Option<string>, desc: Option<string>, img: Option<string>)
    requires WellFormed(s) && d < HideDelay
    ensures var reopened := ShowPopupAtScreenStep(AdvanceTo(CloseAfter(s, HideDelay), s.now + d), title, desc, img);
            var r := AdvanceTo(reopened, s.now + HideDelay);
            r.display == Hidden && r.title == OrEmpty(title) && r.desc == OrEmpty(desc)
  {
    var hideTimer := Timer(s.now + HideDelay, SetDisplayNone);
    var waited := AdvanceTo(CloseAfter(s, HideDelay), s.now + d);
    HidePendingAfterClose(s, HideDelay, d);
    var reopened := ShowPopupAtScreenStep(waited, title, desc, img);
    assert hideTimer in multiset(reopened.pending);
    PendingHideWins(reopened, s.now + HideDelay, hideTimer);
  }

  /** A hotspot's page element (`div.dom-hotspot`). */
  class Marker {
    var display: Display
    var left: Option<real>
    var top: Option<real>
    var transform: Transform

    function Style(): MarkerStyle
      reads this
    {
      MarkerStyle(display, left, top, transform)
    }

    constructor ()
      ensures Style() == MarkerStyle(Unset, None, None, NoTransform)
    {
      display, left, top, transform := Unset, None, None, NoTransform;
    }
  }

  /** An entry of `domHotspots`. */
  datatype DomHotspot = DomHotspot(anchor: Vec3, el: Marker, info: Info, options: HotspotOptions)

  ghost predicate DistinctMarkers(hs: seq<DomHotspot>) {
    forall i, j :: 0 <= i < j < |hs| ==> hs[i].el != hs[j].el
  }

  /** The registry of screen-anchored hotspots and the popup. */
  class EiffelScene {
    var domHotspots: seq<DomHotspot>
    const popup: PopupElement

    ghost function Markers(): set<Marker>
      reads this
    {
      set i | 0 <= i < |domHotspots| :: domHotspots[i].el
    }

    ghost predicate Valid()
      reads this, popup
    {
      popup.Valid() && DistinctMarkers(domHotspots)
    }

    constructor ()
      ensures Valid() && fresh(popup) && popup.State() == Initial() && domHotspots == []
    {
      domHotspots := [];
      popup := new PopupElement();
    }

    /** `createDOMHotspot`: a new marker element and one entry at the end of
        `domHotspots`. */
    method CreateDOMHotspot(x: real, y: real, z: real, title: Option<string>, desc: Option<string>,
                            img: Option<string>, options: HotspotOptions)
      returns (anchor: Vec3, el: Marker)
      requires Valid()
      modifies this`domHotspots
      ensures Valid() && fresh(el) && anchor == Vec3(x, y, z)
      ensures el.Style() == MarkerStyle(Unset, None, None, NoTransform)
      ensures domHotspots == old(domHotspots) + [DomHotspot(anchor, el, Info(title, desc, img), options)]
    {
      anchor := Vec3(x, y, z);
      el := new Marker();
      domHotspots := domHotspots + [DomHotspot(anchor, el, Info(title, desc, img), options)];
    }

    /** The scene's three `createDOMHotspot` calls: three new markers after
        the existing entries. */
    method RegisterSceneHotspots()
      requires Valid()
      modifies this`domHotspots
      ensures Valid()
      ensures |domHotspots| == |old(domHotspots)| + 3 && domHotspots[..|old(domHotspots)|] == old(domHotspots)
      ensures forall k :: 0 <= k < 3 ==>
                var h := domHotspots[|old(domHotspots)| + k];
                (h.anchor, h.info, h.options) == SceneHotspots[k] && fresh(h.el)
    {
      var h := SceneHotspots;
      var _, _ := CreateDOMHotspot(h[0].0.x, h[0].0.y, h[0].0.z, h[0].1.title, h[0].1.desc, h[0].1.img, h[0].2);
      var _, _ := CreateDOMHotspot(h[1].0.x, h[1].0.y, h[1].0.z, h[1].1.title, h[1].1.desc, h[1].1.img, h[1].2);
      var _, _ := CreateDOMHotspot(h[2].0.x, h[2].0.y, h[2].0.z, h[2].1.title, h[2].1.desc, h[2].1.img, h[2].2);
    }

    /** `updateHotspotScreenPosition` for one hotspot, given its projection
        and the viewport size. */
    method UpdateHotspotScreenPosition(h: DomHotspot, p: Projection, width: real, height: real)
      modifies h.el
      ensures h.el.Style() == Placement(old(h.el.Style()), p, h.options, width, height)
    {
      ghost var expected := Placement(h.el.Style(), p, h.options, width, height);
      if p.ndc.z > 1.0 || p.ndc.z < -1.0 {
        h.el.display := Hidden;
        return;
      }
      var x := (p.ndc.x * 0.5 + 0.5) * width;
      var y := (-p.ndc.y * 0.5 + 0.5) * height;
      h.el.display := Block;
      h.el.left := Some(x);
      h.el.top := Some(y);
      if h.options.scaleWithDistance {
        h.el.transform := CentredScaled(DistanceScale(p.distance));
      } else {
        h.el.transform := Centred;
      }
      assert h.el.Style() == expected;
    }

    /** The hotspot part of one animation frame: every entry, in order, with
        this frame's projection of its anchor. */
    method Animate(frame: seq<Projection>, width: real, height: real)
      requires Valid() && |frame| == |domHotspots|
      modifies Markers()
      ensures Valid()
      ensures forall i :: 0 <= i < |domHotspots| ==>
                domHotspots[i].el.Style() ==
                Placement(old(domHotspots[i].el.Style()), frame[i], domHotspots[i].options, width, height)
    {
      for i := 0 to |domHotspots|
        invariant forall j :: 0 <= j < i ==>
                    domHotspots[j].el.Style() ==
                    Placement(old(domHotspots[j].el.Style()), frame[j], domHotspots[j].options, width, height)
        invariant forall j :: i <= j < |domHotspots| ==> domHotspots[j].el.Style() == old(domHotspots[j].el.Style())
      {
        UpdateHotspotScreenPosition(domHotspots[i], frame[i], width, height);
      }
    }

    method ShowPopupAtScreen(title: Option<string>, desc: Option<string>, img: Option<string>)
      requires Valid()
      modifies popup
      ensures Valid() && popup.State() == ShowPopupAtScreenStep(old(popup.State()), title, desc, img)
    {
      popup.title := if Truthy(title) then title.value else "";
      popup.desc := if Truthy(desc) then desc.value else "";
      if Truthy(img) {
        popup.imgSrc := img.value;
        popup.imgDisplay := Block;
      } else {
        popup.imgDisplay := Hidden;
      }
      popup.display := Block;
      assert popup.State() == Pictured(old(popup.State()), title, desc, img);
      popup.SetTimeout(ShowDelay, AddShow);
    }

    /** The click listener of the `i`-th marker. */
    method ClickMarker(i: nat)
      requires Valid() && i < |domHotspots|
      modifies popup
      ensures Valid()
      ensures var info := domHotspots[i].info;
              popup.State() == ShowPopupAtScreenStep(old(popup.State()), info.title, info.desc, info.img)
    {
      var info := domHotspots[i].info;
      ShowPopupAtScreen(info.title, info.desc, info.img);
    }

    /** The `popup-close` click listener. */
    method ClosePopup()
      requires Valid()
      modifies popup
      ensures Valid() && popup.State() == CloseAfter(old(popup.State()), HideDelay)
    {
      popup.shown := false;
      popup.SetTimeout(HideDelay, SetDisplayNone);
    }
  }
}

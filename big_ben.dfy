/**
 * The Big Ben scene: one sphere hotspot picked by ray casting on click, and
 * a popup that is only ever shown, without classes or timers.
 */
module BigBen {
  import opened Screen
  import opened Raycast
  import opened Popup

  /** A sphere mesh: its centre and radius. */
  datatype Mesh = Mesh(position: Vec3, radius: real)

  /** The scene's only hotspot, a small white sphere. */
  const Hotspot: Mesh := Mesh(Vec3(0.0, 1.0, 0.0), 0.05)

  /** The content the click handler passes to `showPopup`. */
  const PopupTitle: string := "Coliseo Romano"
  const PopupDescription: string := "Construido en el siglo I en Roma, fue uno de los mayores anfiteatros del Imperio Romano."
  const PopupImg: string := "img/coliseo-thumb.jpg"

  /** `showPopup`: overwrite the title, description and image source and
      display the popup; no class changes and nothing is scheduled. */
  function ShowPopupStep(s: PopupState, title: string, description: string, img: string): (r: PopupState)
    ensures r.title == title && r.desc == description && r.imgSrc == img && r.display == Block
    ensures r.shown == s.shown && r.imgDisplay == s.imgDisplay && r.now == s.now && r.pending == s.pending
  {
    s.(title := title, desc := description, imgSrc := img, display := Block)
  }

  /** The click listener once the ray has been cast against the hotspot: any
      hit opens the popup with the fixed content, no hit changes nothing. */
  function ClickStep(s: PopupState, hits: seq<Intersection<Mesh>>): (r: PopupState)
    ensures |hits| == 0 ==> r == s
    ensures |hits| > 0 ==> r == ShowPopupStep(s, PopupTitle, PopupDescription, PopupImg)
  {
    if |hits| > 0 then ShowPopupStep(s, PopupTitle, PopupDescription, PopupImg) else s
  }

  /** A sequence of clicks, each with the hits of its ray. */
  function AfterClicks(s: PopupState, clicks: seq<seq<Intersection<Mesh>>>): PopupState
    decreases |clicks|
  {
    if clicks == [] then s else AfterClicks(ClickStep(s, clicks[0]), clicks[1..])
  }

  /** Showing the same content twice is the same as showing it once. */
  lemma ShowPopupIdempotent(s: PopupState, title: string, description: string, img: string)
    ensures ShowPopupStep(ShowPopupStep(s, title, description, img), title, description, img) ==
            ShowPopupStep(s, title, description, img)
  {
  }

  /** Nothing in the scene hides the popup or schedules a timer: once
      displayed it stays displayed through any clicks, and the `show` class
      and the timer queue are never touched. */
  lemma {:induction false} StaysDisplayed(s: PopupState, clicks: seq<seq<Intersection<Mesh>>>)
    ensures var r := AfterClicks(s, clicks);
            (s.display == Block ==> r.display == Block) && r.shown == s.shown && r.pending == s.pending
    decreases |clicks|
  {
    if clicks != [] {
      StaysDisplayed(ClickStep(s, clicks[0]), clicks[1..]);
    }
  }

  /** After any click that hits, the popup is displayed with the fixed
      content, whatever the clicks before it did. */
  lemma {:induction false} HitShowsContent(s: PopupState, clicks: seq<seq<Intersection<Mesh>>>)
    requires |clicks| > 0 && |clicks[|clicks| - 1]| > 0
    ensures var r := AfterClicks(s, clicks);
            r.display == Block && r.title == PopupTitle && r.desc == PopupDescription && r.imgSrc == PopupImg
    decreases |clicks|
  {
    if |clicks| > 1 {
      HitShowsContent(ClickStep(s, clicks[0]), clicks[1..]);
    }
  }

  class BigBenScene {
    var mouseX: real
    var mouseY: real
    const hotspot: Mesh
    const popup: PopupElement

    ghost predicate Valid()
      reads this, popup
    {
      popup.Valid()
    }

    constructor ()
      ensures Valid() && fresh(popup) && popup.State() == Initial()
      ensures hotspot == Hotspot && mouseX == 0.0 && mouseY == 0.0
    {
      mouseX, mouseY := 0.0, 0.0;
      hotspot := Hotspot;
      popup := new PopupElement();
    }

    /** The `click` listener, given the viewport size and the hits of the ray
        cast against the hotspot alone. */
    method Click(clientX: real, clientY: real, width: real, height: real, hits: seq<Intersection<Mesh>>)
      requires Valid() && width > 0.0 && height > 0.0
      modifies this`mouseX, this`mouseY, popup
      ensures Valid()
      ensures mouseX == PointerX(clientX, width) && mouseY == PointerY(clientY, height)
      ensures popup.State() == ClickStep(old(popup.State()), hits)
    {
      mouseX := (clientX / width) * 2.0 - 1.0;
      mouseY := -(clientY / height) * 2.0 + 1.0;
      if |hits| > 0 {
        ShowPopup(PopupTitle, PopupDescription, PopupImg);
      }
    }

    method ShowPopup(title: string, description: string, img: string)
      requires Valid()
      modifies popup
      ensures Valid() && popup.State() == ShowPopupStep(old(popup.State()), title, description, img)
    {
      popup.title := title;
      popup.desc := description;
      popup.imgSrc := img;
      popup.display := Block;
    }
  }
}

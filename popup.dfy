/**
 * The single popup element of a scene together with the browser's queue of
 * `setTimeout` callbacks that act on it.
 *
 * A callback is a `Timer`: the clock reading at which it becomes due and the
 * one style change it makes. Timers are never cancelled. The queue is kept in
 * due order; timers due at the same instant run in the order they were
 * scheduled, as browsers run them.
 */
module Popup {

  /** The inline CSS `display` of an element: not set, "block" or "none". */
  datatype Display = Unset | Block | Hidden

  /** What a deferred popup callback does. */
  datatype Action =
    | AddShow         // popup.classList.add("show")
    | SetDisplayNone  // popup.style.display = "none"

  datatype Timer = Timer(due: int, action: Action)

  /** The popup's text, image source and visibility, the `show` class, the
      clock (in milliseconds) and the callbacks not yet run. */
  datatype PopupState = PopupState(
    title: string,
    desc: string,
    imgSrc: string,
    imgDisplay: Display,
    display: Display,
    shown: bool,
    now: int,
    pending: seq<Timer>)

  function Initial(): PopupState {
    PopupState("", "", "", Unset, Unset, false, 0, [])
  }

  ghost predicate Sorted(q: seq<Timer>) {
    forall i, j :: 0 <= i < j < |q| ==> q[i].due <= q[j].due
  }

  /** The queue is in due order and nothing in it is overdue. */
  ghost predicate WellFormed(s: PopupState) {
    Sorted(s.pending) && forall i :: 0 <= i < |s.pending| ==> s.now <= s.pending[i].due
  }

  /** Some timer in `q` due by `t` performs `a`. */
  ghost predicate FiresBy(q: seq<Timer>, t: int, a: Action) {
    exists x :: x in q && x.due <= t && x.action == a
  }

  /** Some timer in `q` performs `a`. */
  ghost predicate Performs(q: seq<Timer>, a: Action) {
    exists x :: x in q && x.action == a
  }

  /** The length of the longest prefix of `q` due by `t`. */
  function CountDue(q: seq<Timer>, t: int): (k: nat)
    ensures k <= |q|
    ensures forall i :: 0 <= i < k ==> q[i].due <= t
    ensures k < |q| ==> q[k].due > t
  {
    if q == [] || q[0].due > t then 0 else 1 + CountDue(q[1..], t)
  }

  /** Place `x` after every timer due no later than it and before the first
      one due later. */
  function Insert(q: seq<Timer>, x: Timer): (r: seq<Timer>)
    ensures |r| == |q| + 1
    ensures multiset(r) == multiset(q) + multiset{x}
    ensures Sorted(q) ==> Sorted(r)
  {
    var k := CountDue(q, x.due);
    InsertAt(q, x, k);
    q[..k] + [x] + q[k..]
  }

  /** The new timer runs after every timer due no later than it, and in a
      sorted queue before every timer due later. */
  lemma InsertPlacement(q: seq<Timer>, x: Timer)
    ensures exists k :: 0 <= k <= |q| && Insert(q, x) == q[..k] + [x] + q[k..] &&
                        (forall i :: 0 <= i < k ==> q[i].due <= x.due) &&
                        (Sorted(q) ==> forall i :: k <= i < |q| ==> q[i].due > x.due)
  {
    var k := CountDue(q, x.due);
    InsertAt(q, x, k);
    assert Insert(q, x) == q[..k] + [x] + q[k..];
  }

  lemma InsertAt(q: seq<Timer>, x: Timer, k: nat)
    requires k == CountDue(q, x.due)
    ensures multiset(q[..k] + [x] + q[k..]) == multiset(q) + multiset{x}
    ensures Sorted(q) ==> forall i :: k <= i < |q| ==> q[i].due > x.due
    ensures Sorted(q) ==> Sorted(q[..k] + [x] + q[k..])
  {
    InsertCounts(q, x, k);
    if Sorted(q) {
      forall i | k <= i < |q| ensures q[i].due > x.due {
        assert q[k].due <= q[i].due;
      }
      InsertKeepsOrder(q, x, k);
    }
  }

  lemma InsertCounts(q: seq<Timer>, x: Timer, k: nat)
    requires k <= |q|
    ensures multiset(q[..k] + [x] + q[k..]) == multiset(q) + multiset{x}
  {
    assert q[..k] + q[k..] == q;
  }

  lemma InsertKeepsOrder(q: seq<Timer>, x: Timer, k: nat)
    requires k <= |q| && Sorted(q)
    requires forall i :: 0 <= i < k ==> q[i].due <= x.due
    requires forall i :: k <= i < |q| ==> q[i].due > x.due
    ensures Sorted(q[..k] + [x] + q[k..])
  {
    var r := q[..k] + [x] + q[k..];
    forall i, j | 0 <= i < j < |r| ensures r[i].due <= r[j].due {
      InsertedAt(q, x, k, i);
      InsertedAt(q, x, k, j);
    }
  }

  lemma InsertedAt(q: seq<Timer>, x: Timer, k: nat, i: nat)
    requires k <= |q| && i <= |q|
    ensures (q[..k] + [x] + q[k..])[i] == if i < k then q[i] else if i == k then x else q[i - 1]
  {
  }

  /** `setTimeout(callback, delay)` for a callback performing `a`. */
  function Schedule(s: PopupState, delay: nat, a: Action): (r: PopupState)
    ensures WellFormed(s) ==> WellFormed(r)
    ensures r == s.(pending := r.pending)
    ensures multiset(r.pending) == multiset(s.pending) + multiset{Timer(s.now + delay, a)}
  {
    s.(pending := Insert(s.pending, Timer(s.now + delay, a)))
  }

  /** Run one callback: it touches only the `show` class or the display. */
  function Apply(s: PopupState, a: Action): (r: PopupState)
    ensures r == s.(display := r.display, shown := r.shown)
    ensures r.display == if a == SetDisplayNone then Hidden else s.display
    ensures r.shown == (s.shown || a == AddShow)
  {
    match a
    case AddShow => s.(shown := true)
    case SetDisplayNone => s.(display := Hidden)
  }

  /** Run the callbacks of `q`, first to last. */
  function Run(s: PopupState, q: seq<Timer>): (r: PopupState)
    ensures r == s.(display := r.display, shown := r.shown)
    ensures r.display == if Performs(q, SetDisplayNone) then Hidden else s.display
    ensures r.shown == (s.shown || Performs(q, AddShow))
    decreases |q|
  {
    if q == [] then s
    else
      var init := q[..|q| - 1];
      assert q == init + [q[|q| - 1]];
      Apply(Run(s, init), q[|q| - 1].action)
  }

  /** Closing the popup: drop `show` now and set display "none" after `delay`
      milliseconds; the display is untouched until then. */
  function CloseAfter(s: PopupState, delay: nat): (r: PopupState)
    ensures WellFormed(s) ==> WellFormed(r)
    ensures r == s.(shown := false, pending := r.pending)
    ensures multiset(r.pending) == multiset(s.pending) + multiset{Timer(s.now + delay, SetDisplayNone)}
  {
    Schedule(s.(shown := false), delay, SetDisplayNone)
  }

  /** Let the clock reach `t`: every callback due by then runs, in order. */
  function AdvanceTo(s: PopupState, t: int): (r: PopupState)
    requires WellFormed(s)
    ensures WellFormed(r) && r.now == if t > s.now then t else s.now
    ensures r == s.(display := r.display, shown := r.shown, now := r.now, pending := r.pending)
    ensures r.display == if FiresBy(s.pending, t, SetDisplayNone) then Hidden else s.display
    ensures r.shown == (s.shown || FiresBy(s.pending, t, AddShow))
  {
    var k := CountDue(s.pending, t);
    DueSuffix(s.pending, t);
    DuePrefix(s.pending, t, SetDisplayNone);
    DuePrefix(s.pending, t, AddShow);
    Run(s, s.pending[..k]).(now := if t > s.now then t else s.now, pending := s.pending[k..])
  }

  /** In a sorted queue the callbacks of the due prefix are exactly those due
      by `t`. */
  lemma DuePrefix(q: seq<Timer>, t: int, a: Action)
    requires Sorted(q)
    ensures Performs(q[..CountDue(q, t)], a) <==> FiresBy(q, t, a)
  {
    var k := CountDue(q, t);
    if FiresBy(q, t, a) {
      var x :| x in q && x.due <= t && x.action == a;
      var j :| 0 <= j < |q| && q[j] == x;
      assert q[..k][j] == x;
    }
  }

  /** In a sorted queue everything after the due prefix is due after `t`, and
      the rest of the queue is sorted. */
  lemma DueSuffix(q: seq<Timer>, t: int)
    requires Sorted(q)
    ensures forall i :: CountDue(q, t) <= i < |q| ==> q[i].due > t
    ensures Sorted(q[CountDue(q, t)..])
  {
    var k := CountDue(q, t);
    forall i | k <= i < |q| ensures q[i].due > t {
      assert q[k].due <= q[i].due;
    }
  }

  /** Scheduling a timer adds it to those that may run and changes no other. */
  lemma FiresByAfterSchedule(s: PopupState, delay: nat, a: Action, t: int, b: Action)
    ensures FiresBy(Schedule(s, delay, a).pending, t, b) <==>
            FiresBy(s.pending, t, b) || (s.now + delay <= t && a == b)
  {
    var r := Schedule(s, delay, a).pending;
    assert forall y :: y in r <==> y in multiset(r);
  }

  /** Exactly the callbacks due after `t` are still pending once the clock
      reaches `t`. */
  lemma PendingAfterAdvance(s: PopupState, t: int)
    requires WellFormed(s)
    ensures forall x :: x in AdvanceTo(s, t).pending <==> x in s.pending && x.due > t
  {
    var q, k := s.pending, CountDue(s.pending, t);
    DueSuffix(q, t);
    assert q == q[..k] + q[k..];
  }

  /** A scheduled timer that is not yet due survives an advance of the clock. */
  lemma StillPending(s: PopupState, t: int, x: Timer)
    requires WellFormed(s) && x in s.pending && x.due > t
    ensures x in AdvanceTo(s, t).pending
  {
    PendingAfterAdvance(s, t);
  }

  /** The hide callback of a close is still pending `d < delay`
      milliseconds later. */
  lemma HidePendingAfterClose(s: PopupState, delay: nat, d: nat)
    requires WellFormed(s) && d < delay
    ensures var waited := AdvanceTo(CloseAfter(s, delay), s.now + d);
            WellFormed(waited) && Timer(s.now + delay, SetDisplayNone) in waited.pending
  {
    var hideTimer := Timer(s.now + delay, SetDisplayNone);
    var closed := CloseAfter(s, delay);
    assert hideTimer in multiset(closed.pending);
    StillPending(closed, s.now + d, hideTimer);
  }

  /** A pending "display none" callback due by `t` leaves the popup hidden
      once the clock reaches `t`, whatever ran around it. */
  lemma PendingHideWins(s: PopupState, t: int, x: Timer)
    requires WellFormed(s) && x in s.pending && x.action == SetDisplayNone && x.due <= t
    ensures AdvanceTo(s, t).display == Hidden
  {
  }

  /** A callback scheduled `delay` milliseconds from now has run once the clock
      has moved on by `delay`; "display none" has run just when one of the
      earlier callbacks due by then sets it. */
  lemma ScheduledAddShowRuns(s: PopupState, delay: nat)
    requires WellFormed(s)
    ensures var r := AdvanceTo(Schedule(s, delay, AddShow), s.now + delay);
            r.shown &&
            r.display == (if FiresBy(s.pending, s.now + delay, SetDisplayNone) then Hidden else s.display)
  {
    FiresByAfterSchedule(s, delay, AddShow, s.now + delay, AddShow);
    FiresByAfterSchedule(s, delay, AddShow, s.now + delay, SetDisplayNone);
  }

  lemma RunOneMore(s: PopupState, q: seq<Timer>, i: nat)
    requires i < |q|
    ensures Run(s, q[..i + 1]) == Apply(Run(s, q[..i]), q[i].action)
  {
    assert q[..i + 1][..i] == q[..i];
  }

  /** The popup element with the browser's timer queue. */
  class PopupElement {
    var title: string
    var desc: string
    var imgSrc: string
    var imgDisplay: Display
    var display: Display
    var shown: bool
    var now: int
    var pending: seq<Timer>

    function State(): PopupState
      reads this
    {
      PopupState(title, desc, imgSrc, imgDisplay, display, shown, now, pending)
    }

    ghost predicate Valid()
      reads this
    {
      WellFormed(State())
    }

    constructor ()
      ensures Valid() && State() == Initial()
    {
      title, desc, imgSrc := "", "", "";
      imgDisplay, display, shown := Unset, Unset, false;
      now, pending := 0, [];
    }

    method SetTimeout(delay: nat, a: Action)
      requires Valid()
      modifies this
      ensures Valid() && State() == Schedule(old(State()), delay, a)
    {
      pending := Insert(pending, Timer(now + delay, a));
    }

    /** The event loop: run every callback due by `t`, earliest first. */
    method Advance(t: int)
      requires Valid()
      modifies this
      ensures Valid() && State() == AdvanceTo(old(State()), t)
    {
      ghost var s0 := State();
      ghost var k := CountDue(s0.pending, t);
      RunDue(t);
      assert State() == Run(s0, s0.pending[..k]).(pending := s0.pending[k..]);
      if t > now {
        now := t;
      }
      assert State() == AdvanceTo(s0, t);
    }

    /** Pop and run the callbacks at the head of the queue while they are due
        by `t`. */
    method RunDue(t: int)
      modifies this
      ensures var k := CountDue(old(pending), t);
              State() == Run(old(State()), old(pending)[..k]).(pending := old(pending)[k..])
    {
      ghost var s0 := State();
      ghost var i := 0;
      while pending != [] && pending[0].due <= t
        invariant 0 <= i <= |s0.pending| && pending == s0.pending[i..]
        invariant State() == Run(s0, s0.pending[..i]).(pending := pending)
        invariant CountDue(s0.pending, t) == i + CountDue(pending, t)
        decreases |pending|
      {
        ghost var before := State();
        RunOneMore(s0, s0.pending, i);
        if pending[0].action == AddShow {
          shown := true;
        } else {
          display := Hidden;
        }
        assert State() == Apply(before, s0.pending[i].action);
        pending := pending[1..];
        i := i + 1;
      }
      assert i == CountDue(s0.pending, t);
    }
  }
}

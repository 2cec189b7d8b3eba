/** The fullscreen chrome of `StreamVideoNode`: `isFullscreen`, `displayUI` and the optional
    auto-dismiss timer interact through their property observers. Leaving fullscreen hides the
    chrome, a tap toggles it while fullscreen, showing it starts a 3 s timer that hides it again,
    and hiding it drops the timer. */
module FullscreenOverlay {

  /** The three fields, and how many dismiss timers have been started so far. */
  datatype Overlay = Overlay(isFullscreen: bool, displayUI: bool, dismissTimerPending: bool, dismissTimersStarted: nat)

  const Initial := Overlay(false, false, false, 0)

  /** `scheduleDismissUI`: starts a timer unless one is pending. */
  function ScheduleDismissUI(o: Overlay): Overlay
  {
    if o.dismissTimerPending then o
    else o.(dismissTimerPending := true, dismissTimersStarted := o.dismissTimersStarted + 1)
  }

  /** Assigning `displayUI`, with its `didSet`. */
  function SetDisplayUI(o: Overlay, display: bool): Overlay
  {
    var updated := o.(displayUI := display);
    if o.displayUI == display then updated
    else if display then ScheduleDismissUI(updated)
    else updated.(dismissTimerPending := false)
  }

  /** Assigning `isFullscreen`, with its `didSet` (which runs on every assignment). */
  function SetFullscreen(o: Overlay, fullscreen: bool): Overlay
  {
    var updated := o.(isFullscreen := fullscreen);
    if !fullscreen then SetDisplayUI(updated, false) else updated
  }

  /** The video node's tap handler. */
  function Tap(o: Overlay): Overlay
  {
    if o.isFullscreen then SetDisplayUI(o, !o.displayUI) else o
  }

  /** The dismiss timer's completion: it drops itself, then hides the chrome. */
  function DismissTimerFired(o: Overlay): Overlay
  {
    SetDisplayUI(o.(dismissTimerPending := false), false)
  }

  /** The events that reach these fields from outside. */
  datatype Event = Fullscreen(on: bool) | TapVideo | DismissTimeout

  function Apply(o: Overlay, e: Event): Overlay
  {
    match e
    case Fullscreen(on) => SetFullscreen(o, on)
    case TapVideo => Tap(o)
    case DismissTimeout => DismissTimerFired(o)
  }

  function Run(o: Overlay, events: seq<Event>): Overlay
  {
    if events == [] then o else Apply(Run(o, events[..|events| - 1]), events[|events| - 1])
  }

  /** The chrome is shown exactly while a dismiss timer is pending, and only in fullscreen. */
  predicate Valid(o: Overlay)
  {
    && o.dismissTimerPending == o.displayUI
    && (o.displayUI ==> o.isFullscreen)
  }

  /** Assigning `displayUI` its current value changes nothing; a false-to-true change starts
      one timer and never a second while one is pending; a true-to-false change drops it. */
  lemma SetDisplayUIEffect(o: Overlay, display: bool)
    requires o.dismissTimerPending == o.displayUI
    ensures o.displayUI == display ==> SetDisplayUI(o, display) == o
    ensures SetDisplayUI(o, display).displayUI == display
    ensures SetDisplayUI(o, display).dismissTimerPending == display
    ensures SetDisplayUI(o, display).dismissTimersStarted ==
      o.dismissTimersStarted + if !o.displayUI && display then 1 else 0
    ensures SetDisplayUI(o, display).isFullscreen == o.isFullscreen
  {
  }

  /** Leaving fullscreen always hides the chrome and drops its timer; entering it changes
      nothing else. */
  lemma LeavingFullscreenHides(o: Overlay)
    requires o.dismissTimerPending == o.displayUI
    ensures !SetFullscreen(o, false).displayUI && !SetFullscreen(o, false).dismissTimerPending
    ensures SetFullscreen(o, true) == o.(isFullscreen := true)
  {
  }

  /** A tap toggles the chrome while fullscreen and does nothing otherwise. */
  lemma TapToggles(o: Overlay)
    ensures o.isFullscreen ==> Tap(o).displayUI == !o.displayUI
    ensures !o.isFullscreen ==> Tap(o) == o
  {
  }

  /** The timer's completion hides the chrome and leaves no timer behind; in a valid state a
      completion arriving with nothing shown changes nothing. */
  lemma DismissEffect(o: Overlay)
    ensures !DismissTimerFired(o).displayUI && !DismissTimerFired(o).dismissTimerPending
    ensures Valid(o) && !o.displayUI ==> DismissTimerFired(o) == o
  {
  }

  /** Every event keeps the state valid. */
  lemma ApplyKeepsValid(o: Overlay, e: Event)
    requires Valid(o)
    ensures Valid(Apply(o, e))
    ensures Apply(o, e).dismissTimersStarted ==
      o.dismissTimersStarted + if !o.displayUI && Apply(o, e).displayUI then 1 else 0
  {
  }

  /** The number of events that turned the chrome on. */
  function ShowCount(o: Overlay, events: seq<Event>): nat
  {
    if events == [] then 0
    else
      var before := Run(o, events[..|events| - 1]);
      ShowCount(o, events[..|events| - 1]) + if !before.displayUI && Apply(before, events[|events| - 1]).displayUI then 1 else 0
  }

  /** From the initial state, whatever happens, the chrome shows only in fullscreen, a timer is
      pending exactly while it shows, and exactly one timer is started per showing. */
  lemma {:induction false} OneTimerPerShowing(events: seq<Event>)
    ensures Valid(Run(Initial, events))
    ensures Run(Initial, events).dismissTimersStarted == ShowCount(Initial, events)
  {
    if events != [] {
      OneTimerPerShowing(events[..|events| - 1]);
      ApplyKeepsValid(Run(Initial, events[..|events| - 1]), events[|events| - 1]);
    }
  }
}

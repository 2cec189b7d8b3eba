/** The no-signal watchdog of `StreamVideoNode`: a repeating timer polls every 0.5 s whether
    the last frame is at most 0.5 s old, latches the answer into the readiness state and counts
    how long the signal has been missing; after 20 s of silence a "no signal" message shows.
    Time is counted in polling intervals, so the 20 s threshold is 40 intervals. */
module NoSignalWatchdog {

  /** `Constants.noSignalTimeout`, the polling interval, in milliseconds. */
  const PollIntervalMillis: nat := 500
  /** `Constants.noSignalMessageTimeout`, in milliseconds. */
  const MessageTimeoutMillis: nat := 20000
  /** The message timeout in polling intervals: 40. Each missed poll adds exactly one
      interval, so `noSignalDuration >= noSignalMessageTimeout` is `intervals >= 40`. */
  const MessageThreshold: nat := MessageTimeoutMillis / PollIntervalMillis

  /** What one firing of the timer observes: the rendering view is gone (the timer then
      invalidates itself), or the view is there and its last frame is or is not within the
      0.5 s timeout of now. The clock and the frame timestamp stay outside the model. */
  datatype Poll = ViewGone | LastFrameAge(withinTimeout: bool)

  /** The watchdog's part of the node's state. `readyChanges` lists, in order, the values
      delivered to `onVideoReadyChanged`; `livestreamActive` is the overlay's
      `isLivestreamActive`; `messageVisible` is the visibility last requested for the
      "no signal" text. */
  datatype Watchdog = Watchdog(
    timerActive: bool,
    videoReady: bool,
    noSignalIntervals: nat,
    messageVisible: bool,
    livestreamActive: bool,
    readyChanges: seq<bool>)

  /** The state before any frame or poll: nothing ready, no silence counted, no timer yet. */
  const Initial := Watchdog(false, false, 0, false, false, [])

  /** `updateVideoReady`: a latch that only acts on a change. */
  function UpdateVideoReady(w: Watchdog, ready: bool): Watchdog
  {
    if w.videoReady == ready then w
    else w.(videoReady := ready, readyChanges := w.readyChanges + [ready], livestreamActive := ready)
  }

  /** Every assignment to `noSignalDuration` re-evaluates the message's visibility. */
  function SetNoSignalIntervals(w: Watchdog, intervals: nat): (r: Watchdog)
    ensures r.noSignalIntervals == intervals
    ensures r.messageVisible <==> intervals * PollIntervalMillis >= MessageTimeoutMillis
    ensures r.(noSignalIntervals := w.noSignalIntervals, messageVisible := w.messageVisible) == w
  {
    w.(noSignalIntervals := intervals, messageVisible := intervals >= MessageThreshold)
  }

  /** One firing of the timer. */
  function Tick(w: Watchdog, poll: Poll): Watchdog
  {
    match poll
    case ViewGone => w.(timerActive := false)
    case LastFrameAge(withinTimeout) =>
      var latched := UpdateVideoReady(w, withinTimeout);
      if withinTimeout then SetNoSignalIntervals(latched, 0)
      else SetNoSignalIntervals(latched, latched.noSignalIntervals + 1)
  }

  /** The state after the timer has been offered `polls`; an invalidated timer fires no more. */
  function Run(w: Watchdog, polls: seq<Poll>): Watchdog
  {
    if polls == [] then w
    else
      var before := Run(w, polls[..|polls| - 1]);
      if before.timerActive then Tick(before, polls[|polls| - 1]) else before
  }

  /** The number of polls at the end of `polls` that found the last frame too old. */
  function TrailingMisses(polls: seq<Poll>): nat
  {
    if polls == [] || polls[|polls| - 1] != LastFrameAge(false) then 0
    else TrailingMisses(polls[..|polls| - 1]) + 1
  }

  /** The view was there on every poll. */
  predicate ViewPresent(polls: seq<Poll>)
  {
    forall i :: 0 <= i < |polls| ==> polls[i].LastFrameAge?
  }

  /** A tick marks video ready exactly when the last frame is within the timeout; a ready tick
      resets the silence, a missed one adds exactly one interval; the message is shown exactly
      when the silence has reached 20 s. A vanished view only stops the timer. */
  lemma TickEffect(w: Watchdog, poll: Poll)
    ensures poll.ViewGone? ==> Tick(w, poll) == w.(timerActive := false)
    ensures poll.LastFrameAge? ==>
      && Tick(w, poll).videoReady == poll.withinTimeout
      && Tick(w, poll).noSignalIntervals == (if poll.withinTimeout then 0 else w.noSignalIntervals + 1)
      && (Tick(w, poll).messageVisible <==> Tick(w, poll).noSignalIntervals >= MessageThreshold)
      && Tick(w, poll).timerActive == w.timerActive
  {
  }

  /** Assigning the current readiness does nothing; assigning a new one stores it, notifies
      the listener once with it and mirrors it into the overlay. */
  lemma UpdateVideoReadyEffect(w: Watchdog, ready: bool)
    ensures w.videoReady == ready ==> UpdateVideoReady(w, ready) == w
    ensures w.videoReady != ready ==>
      UpdateVideoReady(w, ready) == w.(videoReady := ready, readyChanges := w.readyChanges + [ready], livestreamActive := ready)
    ensures UpdateVideoReady(UpdateVideoReady(w, ready), ready) == UpdateVideoReady(w, ready)
  {
  }

  /** Once the view is gone and the timer stopped, nothing changes any more. */
  lemma {:induction false} StoppedTimerChangesNothing(w: Watchdog, polls: seq<Poll>)
    requires !w.timerActive
    ensures Run(w, polls) == w
  {
    if polls != [] {
      StoppedTimerChangesNothing(w, polls[..|polls| - 1]);
    }
  }

  /** While the view is there, the silence counter is the number of consecutive missed polls
      at the end, added to the starting count if no poll found a fresh frame. */
  lemma {:induction false} SilenceIsTrailingMisses(w: Watchdog, polls: seq<Poll>)
    requires w.timerActive && ViewPresent(polls)
    ensures Run(w, polls).timerActive
    ensures Run(w, polls).noSignalIntervals ==
      TrailingMisses(polls) + (if TrailingMisses(polls) == |polls| then w.noSignalIntervals else 0)
  {
    if polls != [] {
      var init := polls[..|polls| - 1];
      assert ViewPresent(init) by {
        forall i | 0 <= i < |init| ensures init[i].LastFrameAge? { assert init[i] == polls[i]; }
      }
      SilenceIsTrailingMisses(w, init);
      assert polls[|polls| - 1].LastFrameAge?;
    }
  }

  /** From the initial state, with the view present, the "no signal" message is visible
      exactly when the last 40 or more polls all missed; a poll that finds a fresh frame hides
      it at once. */
  lemma {:induction false} MessageAfterTwentySeconds(polls: seq<Poll>)
    requires polls != [] && ViewPresent(polls)
    ensures Run(Initial.(timerActive := true), polls).messageVisible <==> TrailingMisses(polls) >= MessageThreshold
    ensures polls[|polls| - 1] == LastFrameAge(true) ==> !Run(Initial.(timerActive := true), polls).messageVisible
  {
    var start := Initial.(timerActive := true);
    SilenceIsTrailingMisses(start, polls);
    var init := polls[..|polls| - 1];
    assert ViewPresent(init) by {
      forall i | 0 <= i < |init| ensures init[i].LastFrameAge? { assert init[i] == polls[i]; }
    }
    SilenceIsTrailingMisses(start, init);
    TickEffect(Run(start, init), polls[|polls| - 1]);
  }

  /** `readyChanges` alternates: each delivered value differs from the one before it, the
      first from the initial `false`, and the last is the current readiness. */
  predicate NotificationsAlternate(w: Watchdog)
  {
    && (w.readyChanges != [] ==> w.readyChanges[0])
    && (forall i :: 0 <= i < |w.readyChanges| - 1 ==> w.readyChanges[i] != w.readyChanges[i + 1])
    && w.videoReady == (if w.readyChanges == [] then false else w.readyChanges[|w.readyChanges| - 1])
    && w.livestreamActive == w.videoReady
  }

  /** The listener is told of every change of readiness and of nothing else, however the polls
      fall: from any state whose notifications alternate (the state when the timer is
      scheduled, `Initial` with the timer running, is one), they still alternate after any
      sequence of polls. */
  lemma {:induction false} ListenerSeesOnlyChanges(w: Watchdog, polls: seq<Poll>)
    requires NotificationsAlternate(w)
    ensures NotificationsAlternate(Run(w, polls))
  {
    if polls != [] {
      var init := polls[..|polls| - 1];
      ListenerSeesOnlyChanges(w, init);
      var before := Run(w, init);
      if before.timerActive && polls[|polls| - 1].LastFrameAge? {
        ReadyLatchAlternates(before, polls[|polls| - 1].withinTimeout);
        var latched := UpdateVideoReady(before, polls[|polls| - 1].withinTimeout);
        SilenceKeepsNotifications(latched, 0);
        SilenceKeepsNotifications(latched, latched.noSignalIntervals + 1);
      }
    }
  }

  /** One call of the latch keeps the notifications alternating. */
  lemma ReadyLatchAlternates(w: Watchdog, ready: bool)
    requires NotificationsAlternate(w)
    ensures NotificationsAlternate(UpdateVideoReady(w, ready))
  {
    if w.videoReady != ready {
      var changes := w.readyChanges + [ready];
      forall i | 0 <= i < |changes| - 1 ensures changes[i] != changes[i + 1] {
        assert changes[i] == w.readyChanges[i];
      }
    }
  }

  lemma SilenceKeepsNotifications(w: Watchdog, intervals: nat)
    requires NotificationsAlternate(w)
    ensures NotificationsAlternate(SetNoSignalIntervals(w, intervals))
  {
    var v := SetNoSignalIntervals(w, intervals);
    assert v.readyChanges == w.readyChanges && v.videoReady == w.videoReady && v.livestreamActive == w.livestreamActive;
  }
}

/** `VoiceChatTimerNode`: before a scheduled voice chat starts it shows "starts in" and a
    countdown (or, a day or more ahead, a day-scale interval), switching once and for good to
    the "late" palette when the start time has passed; once the chat runs it shows the
    participant count, one animated segment per character.
    Localised strings and formatters are not modelled as text: the model records which
    formatter the node hands which value to. Layout sizes are carried through unexamined. */
module VoiceChatTimer {
  import opened SwiftTypes
  import opened CountLabel

  const SecondsPerDay: int := 86400

  datatype Size = Size(width: real, height: real)

  /** The gradient behind the text: pink and purple, or their late variants. */
  datatype Palette = Regular | Late
  /** `VoiceChat_StartsIn` or `VoiceChat_LateBy`. */
  datatype Title = StartsIn | LateBy
  /** `scheduledTimeIntervalString(value:)` or `textForTimeout(value:)` of the given value. */
  datatype TimerText = IntervalString(value: int32) | Countdown(seconds: nat)
  /** The literal "watching", or `humanReadableStringForTimestamp` of the schedule time. */
  datatype Subtitle = Watching | ScheduledAt(timestamp: int32)
  /** The repeating refresh timer; its closure captured the schedule time it replays. */
  datatype RefreshTimer = RefreshTimer(scheduleTime: int32)

  /** The node's state: its fields and the texts of its text nodes (`None` for a cleared text). */
  datatype TimerNode = TimerNode(
    validLayout: Option<Size>,
    updateTimer: Option<RefreshTimer>,
    isLate: bool,
    palette: Palette,
    title: Option<Title>,
    timerText: Option<TimerText>,
    subtitle: Option<Subtitle>,
    participants: seq<Segment>)

  const Initial := TimerNode(None, None, false, Regular, None, None, None, [])

  /** `scheduleTime - currentTime` and its `abs` do not trap in `Int32` arithmetic. */
  predicate Representable(scheduleTime: int32, now: int32)
  {
    -0x8000_0000 < scheduleTime as int - now as int < 0x8000_0000
  }

  /** The timer text for `elapsed` seconds until the start. */
  function TimerTextFor(elapsed: int32): TimerText
  {
    if elapsed as int >= SecondsPerDay then IntervalString(elapsed) else Countdown(Abs(elapsed as int))
  }

  function TitleFor(elapsed: int32): Title
  {
    if elapsed < 0 then LateBy else StartsIn
  }

  /** `update(size:scheduleTime:transition:)` at wall-clock second `now`. */
  function OnSchedule(n: TimerNode, size: Size, scheduleTime: Option<int32>, now: int32): TimerNode
    requires scheduleTime.Some? ==> Representable(scheduleTime.value, now)
  {
    var laidOut := n.(validLayout := Some(size));
    match scheduleTime
    case None => laidOut
    case Some(time) =>
      var elapsed := (time as int - now as int) as int32;
      var turnsLate := elapsed as int < SecondsPerDay && elapsed < 0 && !n.isLate;
      laidOut.(
        isLate := n.isLate || turnsLate,
        palette := if turnsLate then Late else n.palette,
        updateTimer := if n.updateTimer == None then Some(RefreshTimer(time)) else n.updateTimer,
        title := Some(TitleFor(elapsed)),
        timerText := Some(TimerTextFor(elapsed)),
        subtitle := Some(ScheduledAt(time)))
  }

  /** `update(size:participants:groupingSeparator:transition:)` once the segments are made. */
  function OnParticipants(n: TimerNode, size: Size, segments: seq<Segment>): (r: TimerNode)
    ensures r.validLayout == Some(size) && r.participants == segments
    ensures r.title.None? && r.timerText.None? && r.subtitle == Some(Watching)
    ensures r.updateTimer == n.updateTimer && r.isLate == n.isLate && r.palette == n.palette
  {
    n.(validLayout := Some(size), title := None, timerText := None, subtitle := Some(Watching), participants := segments)
  }

  /** A firing of the refresh timer: the update replays the captured schedule time with the
      last stored size. */
  function OnRefresh(n: TimerNode, now: int32): (r: TimerNode)
    requires n.updateTimer.Some? ==> Representable(n.updateTimer.value.scheduleTime, now)
    ensures n.updateTimer.None? || n.validLayout.None? ==> r == n
    ensures r.updateTimer == n.updateTimer && r.validLayout == n.validLayout
    ensures n.updateTimer.Some? && n.validLayout.Some? ==>
      r.subtitle == Some(ScheduledAt(n.updateTimer.value.scheduleTime)) &&
      (r.title == Some(LateBy) <==> n.updateTimer.value.scheduleTime < now)
  {
    match (n.updateTimer, n.validLayout)
    case (Some(timer), Some(size)) => OnSchedule(n, size, Some(timer.scheduleTime), now)
    case _ => n
  }

  /** The events that drive the node. */
  datatype Event =
    | Scheduled(size: Size, scheduleTime: Option<int32>, now: int32)
    | Participants(size: Size, segments: seq<Segment>)
    | RefreshFired(now: int32)

  /** Every timestamp is a second of Unix time, so no difference of two overflows. */
  predicate UnixTimes(e: Event)
  {
    match e
    case Scheduled(_, time, now) => now >= 0 && (time.Some? ==> time.value >= 0)
    case Participants(_, _) => true
    case RefreshFired(now) => now >= 0
  }

  /** The node's timer, if any, replays a Unix timestamp. */
  predicate TimerOnUnixTime(n: TimerNode)
  {
    n.updateTimer.Some? ==> n.updateTimer.value.scheduleTime >= 0
  }

  function Apply(n: TimerNode, e: Event): TimerNode
    requires UnixTimes(e) && TimerOnUnixTime(n)
  {
    match e
    case Scheduled(size, time, now) => OnSchedule(n, size, time, now)
    case Participants(size, segments) => OnParticipants(n, size, segments)
    case RefreshFired(now) => OnRefresh(n, now)
  }

  predicate AllUnixTimes(events: seq<Event>)
  {
    forall i :: 0 <= i < |events| ==> UnixTimes(events[i])
  }

  /** The state after `events`, from the initial state. */
  function Run(events: seq<Event>): (n: TimerNode)
    requires AllUnixTimes(events)
    ensures TimerOnUnixTime(n)
  {
    if events == [] then Initial
    else
      var before := Run(events[..|events| - 1]);
      var after := Apply(before, events[|events| - 1]);
      assert UnixTimes(events[|events| - 1]);
      assert after.updateTimer == before.updateTimer || events[|events| - 1].Scheduled?;
      after
  }

  /** The refresh timer the first scheduled update created, if any. */
  function FirstTimer(events: seq<Event>): Option<RefreshTimer>
  {
    if events == [] then None
    else match FirstTimer(events[..|events| - 1])
      case Some(timer) => Some(timer)
      case None =>
        var e := events[|events| - 1];
        if e.Scheduled? && e.scheduleTime.Some? then Some(RefreshTimer(e.scheduleTime.value)) else None
  }

  /** With no schedule time the update only records the size: no timer, no text. */
  lemma NoScheduleOnlyRecordsLayout(n: TimerNode, size: Size, now: int32)
    ensures OnSchedule(n, size, None, now) == n.(validLayout := Some(size))
  {
  }

  /** A day or more ahead the day-scale interval string is used, otherwise the countdown of
      the distance to the start; the title says "late by" exactly when the start has passed,
      so at the start second it still says "starts in". */
  lemma ScheduledTexts(n: TimerNode, size: Size, time: int32, now: int32)
    requires Representable(time, now)
    ensures var r := OnSchedule(n, size, Some(time), now);
      && (r.timerText.value.IntervalString? <==> time as int - now as int >= SecondsPerDay)
      && (r.timerText.value.IntervalString? ==> r.timerText.value.value as int == time as int - now as int)
      && (r.timerText.value.Countdown? ==> r.timerText.value.seconds == Abs(time as int - now as int))
      && (r.title == Some(LateBy) <==> time < now)
      && r.subtitle == Some(ScheduledAt(time))
  {
  }

  /** `isLate` turns on the first time the start has passed and never turns off, and the
      palette switches only on that transition. */
  lemma LateLatch(n: TimerNode, size: Size, time: int32, now: int32)
    requires Representable(time, now)
    ensures var r := OnSchedule(n, size, Some(time), now);
      && r.isLate == (n.isLate || time < now)
      && (r.palette != n.palette ==> !n.isLate && r.isLate)
  {
  }

  /** The gradient is the late one exactly when the node is late, whatever happens. */
  lemma {:induction false} PaletteFollowsLatch(events: seq<Event>)
    requires AllUnixTimes(events)
    ensures Run(events).palette == Late <==> Run(events).isLate
  {
    if events != [] {
      PaletteFollowsLatch(events[..|events| - 1]);
    }
  }

  /** Once late, late for good. */
  lemma {:induction false} LateIsPermanent(events: seq<Event>, k: nat)
    requires AllUnixTimes(events) && k <= |events|
    requires AllUnixTimes(events[..k]) && Run(events[..k]).isLate
    ensures Run(events).isLate
    decreases |events| - k
  {
    if k < |events| {
      var next := events[..k + 1];
      assert next[..k] == events[..k];
      assert AllUnixTimes(next) by {
        forall i | 0 <= i < |next| ensures UnixTimes(next[i]) { assert next[i] == events[i]; }
      }
      LateIsPermanent(events, k + 1);
    } else {
      assert events[..k] == events;
    }
  }

  /** The refresh timer is created once, by the first update that has a schedule time, and
      never replaced. */
  lemma {:induction false} TimerCreatedOnce(events: seq<Event>)
    requires AllUnixTimes(events)
    ensures Run(events).updateTimer == FirstTimer(events)
    ensures FirstTimer(events).Some? ==> Run(events).validLayout.Some?
  {
    if events != [] {
      var init := events[..|events| - 1];
      assert AllUnixTimes(init) by {
        forall i | 0 <= i < |init| ensures UnixTimes(init[i]) { assert init[i] == events[i]; }
      }
      TimerCreatedOnce(init);
      assert UnixTimes(events[|events| - 1]);
    }
  }

  /** Every firing re-renders the schedule time of the first scheduled update, with the
      size last stored, whatever schedule time later updates passed. */
  lemma RefreshReplaysFirstSchedule(events: seq<Event>, now: int32)
    requires AllUnixTimes(events) && now >= 0
    requires FirstTimer(events).Some?
    ensures Run(events).updateTimer == FirstTimer(events) && Run(events).validLayout.Some?
    ensures var n := Run(events);
            var time := FirstTimer(events).value.scheduleTime;
            && OnRefresh(n, now) == OnSchedule(n, n.validLayout.value, Some(time), now)
            && OnRefresh(n, now).subtitle == Some(ScheduledAt(time))
  {
    TimerCreatedOnce(events);
  }

  /** One segment for a character of the participant count: its whole-number value if it
      has one, otherwise a text segment tagged with the character's position. */
  predicate CharacterSegment(segment: Segment, c: char, position: nat, wholeNumberValue: WholeNumberValue)
  {
    && segment.text == [c]
    && (wholeNumberValue(c).Some? ==> segment == Number(wholeNumberValue(c).value, [c]))
    && (wholeNumberValue(c).None? ==> segment == Text(position, [c]))
  }

  /** The loop of `update(size:participants:...)`: one segment per character, in order. */
  method ParticipantSegments(text: string, wholeNumberValue: WholeNumberValue) returns (segments: seq<Segment>)
    ensures |segments| == |text|
    ensures forall i :: 0 <= i < |text| ==> CharacterSegment(segments[i], text[i], i, wholeNumberValue)
    ensures Concat(segments) == text
  {
    segments := [];
    for i := 0 to |text|
      invariant |segments| == i
      invariant forall j :: 0 <= j < i ==> CharacterSegment(segments[j], text[j], j, wholeNumberValue)
      invariant Concat(segments) == text[..i]
    {
      var c := text[i];
      var segment := match wholeNumberValue(c)
        case Some(value) => Number(value, [c])
        case None => Text(i, [c]);
      ConcatAppend(segments, segment);
      TakeOneMore(text, i);
      segments := segments + [segment];
    }
    assert text[..|text|] == text;
  }

  class VoiceChatTimerNode {
    var validLayout: Option<Size>
    var updateTimer: Option<RefreshTimer>
    var isLate: bool
    var palette: Palette
    var title: Option<Title>
    var timerText: Option<TimerText>
    var subtitle: Option<Subtitle>
    var participants: seq<Segment>
    /** How many refresh timers have been started. */
    ghost var timersStarted: nat

    ghost function State(): TimerNode
      reads this
    {
      TimerNode(validLayout, updateTimer, isLate, palette, title, timerText, subtitle, participants)
    }

    /** At most one refresh timer is ever started, and the palette follows the latch. */
    ghost predicate Valid()
      reads this
    {
      && timersStarted == (if updateTimer.Some? then 1 else 0)
      && (palette == Late <==> isLate)
    }

    constructor ()
      ensures Valid() && State() == Initial
    {
      validLayout, updateTimer := None, None;
      isLate, palette := false, Regular;
      title, timerText, subtitle := None, None, None;
      participants := [];
      timersStarted := 0;
    }

    /** `update(size:participants:groupingSeparator:transition:)`; the grouping of digits is
        `formattedNumber`, outside the model. */
    method UpdateParticipants(size: Size, count: int32, groupingSeparator: string,
                              formattedNumber: (int32, string) -> string, wholeNumberValue: WholeNumberValue)
      requires Valid()
      modifies this
      ensures Valid()
      ensures State() == OnParticipants(old(State()), size, participants)
      ensures Concat(participants) == formattedNumber(count, groupingSeparator)
      ensures |participants| == |formattedNumber(count, groupingSeparator)|
      ensures forall i :: 0 <= i < |participants| ==>
        CharacterSegment(participants[i], formattedNumber(count, groupingSeparator)[i], i, wholeNumberValue)
      ensures timersStarted == old(timersStarted)
    {
      validLayout := Some(size);
      title := None;
      timerText := None;
      var participantsText := formattedNumber(count, groupingSeparator);
      participants := ParticipantSegments(participantsText, wholeNumberValue);
      subtitle := Some(Watching);
    }

    /** `update(size:scheduleTime:transition:)` at wall-clock second `now`. */
    method UpdateSchedule(size: Size, scheduleTime: Option<int32>, now: int32)
      requires Valid()
      requires scheduleTime.Some? ==> Representable(scheduleTime.value, now)
      modifies this
      ensures Valid()
      ensures State() == OnSchedule(old(State()), size, scheduleTime, now)
      ensures timersStarted == old(timersStarted) + if old(updateTimer) == None && scheduleTime.Some? then 1 else 0
    {
      validLayout := Some(size);
      if scheduleTime == None {
        return;
      }
      var time := scheduleTime.value;
      var elapsedTime := time - now;
      if elapsedTime as int >= SecondsPerDay {
        timerText := Some(IntervalString(elapsedTime));
      } else {
        timerText := Some(Countdown(Abs(elapsedTime as int)));
        if elapsedTime < 0 && !isLate {
          isLate := true;
          palette := Late;
        }
      }
      if updateTimer == None {
        updateTimer := Some(RefreshTimer(time));
        timersStarted := timersStarted + 1;
      }
      title := Some(if elapsedTime < 0 then LateBy else StartsIn);
      subtitle := Some(ScheduledAt(time));
    }

    /** A firing of the refresh timer. */
    method RefreshFired(now: int32)
      requires Valid()
      requires updateTimer.Some? ==> Representable(updateTimer.value.scheduleTime, now)
      modifies this
      ensures Valid()
      ensures State() == OnRefresh(old(State()), now)
      ensures timersStarted == old(timersStarted)
    {
      if updateTimer.Some? && validLayout.Some? {
        UpdateSchedule(validLayout.value, Some(updateTimer.value.scheduleTime), now);
      }
    }
  }
}

/** `StreamVideoNode` and its fullscreen `StreamVideoOverlayNode`, reduced to the state their
    property observers and timer closures update. Each method is proved against the value
    models of the watchdog, the fullscreen chrome and the viewer-count label. */
module StreamVideo {
  import opened SwiftTypes
  import opened CountLabel
  import NoSignalWatchdog
  import FullscreenOverlay
  import ParticipantsLabel

  class StreamVideoOverlayNode {
    /** Forwarded to the title's live indicator. */
    var isLivestreamActive: bool
    /** The segments of the toolbar's viewer-count label. */
    var participantSegments: seq<Segment>

    constructor ()
      ensures !isLivestreamActive && participantSegments == []
    {
      isLivestreamActive := false;
      participantSegments := [];
    }

    /** `update(participantCount:)`: "no viewers" for zero, otherwise the localised count,
        split into number and text segments. */
    method UpdateParticipantCount(count: int32, noViewers: string, viewerCount: int32 -> string,
                                  wholeNumberValue: WholeNumberValue)
      modifies this
      ensures ParticipantsLabel.Tokenizes(ParticipantsLabel.Label(count, noViewers, viewerCount),
                                          participantSegments, wholeNumberValue, 0)
      ensures isLivestreamActive == old(isLivestreamActive)
    {
      var participants := ParticipantsLabel.Label(count, noViewers, viewerCount);
      participantSegments := ParticipantsLabel.Tokenize(participants, wholeNumberValue);
    }
  }

  class StreamVideoNode {
    const overlay: StreamVideoOverlayNode

    /** `groupVideoNode != nil`: the video views have been made. */
    var videoAttached: bool
    /** The no-signal timer exists and has not invalidated itself. */
    var noSignalTimerActive: bool
    var videoReady: bool
    /** `noSignalDuration`, in 0.5 s polling intervals. */
    var noSignalIntervals: nat
    /** The visibility last requested for the "no signal" text. */
    var noSignalMessageVisible: bool
    /** The values passed to `onVideoReadyChanged`, in order. */
    ghost var readyChanges: seq<bool>

    var isFullscreen: bool
    var displayUI: bool
    /** `scheduledDismissUITimer != nil`. */
    var dismissTimerPending: bool
    ghost var dismissTimersStarted: nat

    ghost function Watchdog(): NoSignalWatchdog.Watchdog
      reads this, overlay
    {
      NoSignalWatchdog.Watchdog(noSignalTimerActive, videoReady, noSignalIntervals, noSignalMessageVisible,
                                overlay.isLivestreamActive, readyChanges)
    }

    ghost function Chrome(): FullscreenOverlay.Overlay
      reads this
    {
      FullscreenOverlay.Overlay(isFullscreen, displayUI, dismissTimerPending, dismissTimersStarted)
    }

    ghost predicate Valid()
      reads this, overlay
    {
      FullscreenOverlay.Valid(Chrome()) && NoSignalWatchdog.NotificationsAlternate(Watchdog())
    }

    constructor ()
      ensures Valid() && fresh(overlay)
      ensures Watchdog() == NoSignalWatchdog.Initial && Chrome() == FullscreenOverlay.Initial
      ensures !videoAttached && overlay.participantSegments == []
    {
      overlay := new StreamVideoOverlayNode();
      videoAttached, noSignalTimerActive := false, false;
      videoReady, noSignalIntervals, noSignalMessageVisible := false, 0, false;
      readyChanges := [];
      isFullscreen, displayUI, dismissTimerPending := false, false, false;
      dismissTimersStarted := 0;
    }

    /** The watchdog part of `updateVideo`: the first time video views can be made for the
        stream, the repeating no-signal timer is scheduled; later calls do nothing. Whether
        the call is a stream with a video input is decided outside the model. */
    method UpdateVideo(videoAvailable: bool)
      requires Valid()
      modifies this
      ensures Valid()
      ensures videoAttached == (old(videoAttached) || videoAvailable)
      ensures Watchdog() == if !old(videoAttached) && videoAvailable
                            then old(Watchdog()).(timerActive := true) else old(Watchdog())
      ensures Chrome() == old(Chrome())
    {
      if !videoAttached && videoAvailable {
        videoAttached := true;
        noSignalTimerActive := true;
      }
    }

    /** `updateVideoReady`: acts only on a change, then notifies the listener and the overlay. */
    method UpdateVideoReady(ready: bool)
      requires Valid()
      modifies this, overlay
      ensures Valid()
      ensures Watchdog() == NoSignalWatchdog.UpdateVideoReady(old(Watchdog()), ready)
      ensures Chrome() == old(Chrome()) && videoAttached == old(videoAttached)
      ensures overlay.participantSegments == old(overlay.participantSegments)
    {
      NoSignalWatchdog.ReadyLatchAlternates(Watchdog(), ready);
      if videoReady == ready {
        return;
      }
      videoReady := ready;
      readyChanges := readyChanges + [ready];
      overlay.isLivestreamActive := ready;
    }

    /** Assigning `noSignalDuration`; its observer re-evaluates the message each time. */
    method SetNoSignalIntervals(intervals: nat)
      modifies this
      ensures Watchdog() == NoSignalWatchdog.SetNoSignalIntervals(old(Watchdog()), intervals)
      ensures Chrome() == old(Chrome()) && videoAttached == old(videoAttached)
    {
      noSignalIntervals := intervals;
      noSignalMessageVisible := noSignalIntervals >= NoSignalWatchdog.MessageThreshold;
    }

    /** One firing of the no-signal timer. */
    method NoSignalTick(poll: NoSignalWatchdog.Poll)
      requires Valid() && noSignalTimerActive
      modifies this, overlay
      ensures Valid()
      ensures Watchdog() == NoSignalWatchdog.Tick(old(Watchdog()), poll)
      ensures Chrome() == old(Chrome()) && videoAttached == old(videoAttached)
      ensures overlay.participantSegments == old(overlay.participantSegments)
    {
      match poll
      case ViewGone =>
        noSignalTimerActive := false;
      case LastFrameAge(withinTimeout) =>
        UpdateVideoReady(withinTimeout);
        if withinTimeout {
          SetNoSignalIntervals(0);
        } else {
          SetNoSignalIntervals(noSignalIntervals + 1);
        }
    }

    /** `scheduleDismissUI`: starts the 3 s dismiss timer unless one is pending. */
    method ScheduleDismissUI()
      modifies this
      ensures Chrome() == FullscreenOverlay.ScheduleDismissUI(old(Chrome()))
      ensures Watchdog() == old(Watchdog()) && videoAttached == old(videoAttached)
    {
      if dismissTimerPending {
        return;
      }
      dismissTimerPending := true;
      dismissTimersStarted := dismissTimersStarted + 1;
    }

    /** Assigning `displayUI`, with its observer. */
    method SetDisplayUI(display: bool)
      modifies this
      ensures Chrome() == FullscreenOverlay.SetDisplayUI(old(Chrome()), display)
      ensures Watchdog() == old(Watchdog()) && videoAttached == old(videoAttached)
    {
      var oldValue := displayUI;
      displayUI := display;
      if oldValue == display {
        return;
      }
      if display {
        ScheduleDismissUI();
      } else {
        dismissTimerPending := false;
      }
    }

    /** Assigning `isFullscreen` (from `update(size:safeInsets:transition:isFullscreen:peer:)`),
        with its observer. */
    method SetFullscreen(fullscreen: bool)
      requires Valid()
      modifies this
      ensures Valid()
      ensures Chrome() == FullscreenOverlay.SetFullscreen(old(Chrome()), fullscreen)
      ensures Watchdog() == old(Watchdog()) && videoAttached == old(videoAttached)
    {
      FullscreenOverlay.ApplyKeepsValid(Chrome(), FullscreenOverlay.Fullscreen(fullscreen));
      isFullscreen := fullscreen;
      if !isFullscreen {
        SetDisplayUI(false);
      }
    }

    /** The video node's tap handler. */
    method Tap()
      requires Valid()
      modifies this
      ensures Valid()
      ensures Chrome() == FullscreenOverlay.Tap(old(Chrome()))
      ensures Watchdog() == old(Watchdog()) && videoAttached == old(videoAttached)
    {
      FullscreenOverlay.ApplyKeepsValid(Chrome(), FullscreenOverlay.TapVideo);
      if isFullscreen {
        SetDisplayUI(!displayUI);
      }
    }

    /** The dismiss timer's completion. */
    method DismissTimerFired()
      requires Valid()
      modifies this
      ensures Valid()
      ensures Chrome() == FullscreenOverlay.DismissTimerFired(old(Chrome()))
      ensures Watchdog() == old(Watchdog()) && videoAttached == old(videoAttached)
    {
      FullscreenOverlay.ApplyKeepsValid(Chrome(), FullscreenOverlay.DismissTimeout);
      dismissTimerPending := false;
      SetDisplayUI(false);
    }
  }
}

# Live-stream video and voice-chat timer logic, in Dafny

This project models the state logic in two Telegram-iOS call-UI views. All the video, layout
and animation code around that logic is left out.

- `StreamVideoNode` (`submodules/TelegramCallsUI/Sources/StreamVideoNode.swift`) shows a
  live stream.
  - **No-signal watchdog.** A repeating 0.5 s timer checks whether the last frame is at most
    0.5 s old. The answer goes through the `updateVideoReady` latch. A missed poll adds one
    interval to `noSignalDuration`. A "no signal" message shows once that reaches 20 s.
  - **Fullscreen chrome.** `isFullscreen`, `displayUI` and an optional 3 s auto-dismiss timer
    interact through their property observers. A tap toggles the chrome while fullscreen.
  - **Thumbnail cache key.** The resource id the last frame is cached under.
  - **Viewer-count label.** The fullscreen overlay splits the label into number and text
    segments for its animated label.
- `VoiceChatTimerNode` (`submodules/TelegramCallsUI/Sources/VoiceChatTimerNode.swift`) shows
  the countdown before a scheduled voice chat starts.
  - It chooses between a day-scale interval and a countdown, and between "starts in" and
    "late by".
  - `isLate` is a one-way latch, and the palette switches when it is set.
  - The 0.5 s refresh timer is created at most once.
  - Once the chat runs, the node shows the participant count with one segment per character.

Each part the source updates in place is a class. Its methods change its fields as the Swift
property observers and timer closures do. Each method is proved against a value-level
transition function. The properties are lemmas over those functions and over whole event
sequences.

| file | module | models |
|---|---|---|
| `swift_types.dfy` | `SwiftTypes` | `Optional`, `Int32` (operations that would trap must be proved in range) |
| `count_label.dfy` | `CountLabel` | `AnimatedCountLabelNode.Segment`, the string a segment list spells |
| `participant_label.dfy` | `ParticipantsLabel` | the tokeniser loop of `StreamVideoOverlayNode.update(participantCount:)` |
| `no_signal_watchdog.dfy` | `NoSignalWatchdog` | the watchdog tick, the readiness latch, the message threshold |
| `fullscreen_overlay.dfy` | `FullscreenOverlay` | the `isFullscreen` / `displayUI` / dismiss-timer state machine |
| `decimal.dfy` | `Decimal` | Swift's `"\(n)"` for integers, and its inverse |
| `thumbnail_cache.dfy` | `ThumbnailCache` | the resource and representation ids of `cachedThumbnailPath` |
| `stream_video_node.dfy` | `StreamVideo` | the classes `StreamVideoNode` and `StreamVideoOverlayNode` |
| `voice_chat_timer.dfy` | `VoiceChatTimer` | `VoiceChatTimerNode`: its value model, its class, its segment loop |

Modelling choices:

- **Time.**
  - The watchdog counts time in 0.5 s polling intervals, so the 20 s threshold is 40 intervals.
  - One poll sees either that the rendering view is gone or whether "now − last frame ≤ 0.5 s"
    holds. The clock and the frame timestamp stay outside the model.
  - The voice-chat node takes the current Unix second `now` as a parameter.
- **Formatters and localised strings.** The model records which formatter receives which
  value, for example `Countdown(seconds)` for `textForTimeout(value:)` and `LateBy` for
  `VoiceChat_LateBy`. The one exception is the viewer-count label, which the tokeniser reads
  character by character, so it is a string parameter.
- **Whole-number values.** `Character.wholeNumberValue` is an oracle `char -> Option<nat>`.
  Swift gives values for every Unicode numeric character, so a number segment holds one
  character and that character's value, which is not always a single decimal digit.
- **Timers.** A dropped SwiftSignalKit timer is treated as cancelled, since `Timer` invalidates
  itself on release; that code is not part of this model.
  - The dismiss timer's completion is modelled exactly as written. A lemma shows that a
    completion arriving when nothing is shown changes nothing.
  - The watchdog's repeating timer stops firing once it has invalidated itself.
- **Listener and overlay.** The values passed to `onVideoReadyChanged` are recorded in a ghost
  log, and `isLivestreamActive` is a field of the overlay object.

One behaviour the model makes visible: the refresh timer's closure captures the `scheduleTime`
of the update that created it. Because the timer is never replaced, every refresh re-renders
that first schedule time, even after later updates passed a different one
(`RefreshReplaysFirstSchedule`).

## Model

| member | source | states |
|---|---|---|
| `ParticipantsLabel.Tokenize` | submodules/TelegramCallsUI/Sources/StreamVideoNode.swift:517-537 | the segments spell the label exactly; each number segment is one character carrying its whole-number value; each text segment is a non-empty run of characters without one; no two text segments are adjacent, so each run is maximal; text segments are numbered 0, 1, 2, … in output order |
| `ParticipantsLabel.TokenizationUnique` | submodules/TelegramCallsUI/Sources/StreamVideoNode.swift:517-537 | those properties determine the segmentation: any two segment lists that satisfy them for the same label are equal |
| `StreamVideo.StreamVideoOverlayNode.constructor` | submodules/TelegramCallsUI/Sources/StreamVideoNode.swift:428-447 | a new overlay shows the live indicator inactive and no viewer-count segments |
| `ParticipantsLabel.Label` | submodules/TelegramCallsUI/Sources/StreamVideoNode.swift:514 | the caption is the "no viewers" string for a count of zero and the localised viewer count otherwise |
| `StreamVideo.StreamVideoOverlayNode.UpdateParticipantCount` | submodules/TelegramCallsUI/Sources/StreamVideoNode.swift:513-540 | the label is the "no viewers" string for a count of 0 and the localised count otherwise; the stored segments are that label's segmentation; the live indicator is untouched |
| `StreamVideo.StreamVideoNode.constructor` | submodules/TelegramCallsUI/Sources/StreamVideoNode.swift:78-86 | a new node starts not ready, with no silence counted, no message, no timer, not fullscreen and with the chrome hidden |
| `StreamVideo.StreamVideoNode.UpdateVideo` | submodules/TelegramCallsUI/Sources/StreamVideoNode.swift:111-145 | only the first call that can make the video views schedules the no-signal timer; later calls change nothing |
| `StreamVideo.StreamVideoNode.UpdateVideoReady` | submodules/TelegramCallsUI/Sources/StreamVideoNode.swift:219-224 | the new state is the readiness latch applied to the old one; the listener's log keeps alternating; the chrome and the label are untouched |
| `StreamVideo.StreamVideoNode.SetNoSignalIntervals` | submodules/TelegramCallsUI/Sources/StreamVideoNode.swift:82-86 | every assignment of the silence counter sets the message to visible exactly when the counter is at least 40 intervals |
| `StreamVideo.StreamVideoNode.NoSignalTick` | submodules/TelegramCallsUI/Sources/StreamVideoNode.swift:130-145 | one firing of a scheduled, not yet invalidated timer changes the watchdog state exactly as `NoSignalWatchdog.Tick` says and leaves the chrome alone; the object invariant is kept |
| `StreamVideo.StreamVideoNode.ScheduleDismissUI` | submodules/TelegramCallsUI/Sources/StreamVideoNode.swift:398-405 | a dismiss timer is started only when none is pending |
| `StreamVideo.StreamVideoNode.SetDisplayUI` | submodules/TelegramCallsUI/Sources/StreamVideoNode.swift:382-396 | assigning `displayUI` changes the chrome as `FullscreenOverlay.SetDisplayUI` says and leaves the watchdog alone |
| `StreamVideo.StreamVideoNode.SetFullscreen` | submodules/TelegramCallsUI/Sources/StreamVideoNode.swift:375-381 | assigning `isFullscreen` changes the chrome as `FullscreenOverlay.SetFullscreen` says and keeps the invariant that the chrome shows only in fullscreen and only with a pending timer |
| `StreamVideo.StreamVideoNode.Tap` | submodules/TelegramCallsUI/Sources/StreamVideoNode.swift:118-122 | a tap changes the chrome as `FullscreenOverlay.Tap` says and keeps the invariant |
| `StreamVideo.StreamVideoNode.DismissTimerFired` | submodules/TelegramCallsUI/Sources/StreamVideoNode.swift:400-403 | the timer's completion changes the chrome as `FullscreenOverlay.DismissTimerFired` says and keeps the invariant |
| `NoSignalWatchdog.SetNoSignalIntervals` | submodules/TelegramCallsUI/Sources/StreamVideoNode.swift:82-86 | every assignment of the silence counter stores it and makes the message visible exactly when the silence (intervals × 500 ms) has reached the 20 000 ms message timeout; nothing else changes |
| `NoSignalWatchdog.TickEffect` | submodules/TelegramCallsUI/Sources/StreamVideoNode.swift:130-145 | a tick marks video ready exactly when the last frame is within 0.5 s; a ready tick resets the silence to 0 and a missed one adds exactly one interval; the message is visible exactly at 40 intervals or more; a vanished view only stops the timer |
| `NoSignalWatchdog.UpdateVideoReadyEffect` | submodules/TelegramCallsUI/Sources/StreamVideoNode.swift:219-224 | the current value changes nothing; a new value is stored, sent to the listener exactly once and mirrored into the overlay; the latch is idempotent |
| `NoSignalWatchdog.ReadyLatchAlternates` | submodules/TelegramCallsUI/Sources/StreamVideoNode.swift:219-224 | one call of the latch keeps the listener's log alternating and ending in the current readiness |
| `NoSignalWatchdog.StoppedTimerChangesNothing` | submodules/TelegramCallsUI/Sources/StreamVideoNode.swift:131-134 | after the timer has invalidated itself, later polls change nothing |
| `NoSignalWatchdog.SilenceIsTrailingMisses` | submodules/TelegramCallsUI/Sources/StreamVideoNode.swift:136-144 | while the view exists, the silence counter equals the number of consecutive missed polls at the end, plus the starting count if every poll missed |
| `NoSignalWatchdog.MessageAfterTwentySeconds` | submodules/TelegramCallsUI/Sources/StreamVideoNode.swift:82-86 | from the start, the message is visible exactly when the last 40 or more polls all missed (20 s of silence); a poll that finds a fresh frame hides it |
| `NoSignalWatchdog.ListenerSeesOnlyChanges` | submodules/TelegramCallsUI/Sources/StreamVideoNode.swift:130-145 | from any state whose notifications alternate (among them the state when the timer is scheduled), any sequence of polls keeps them alternating: the listener receives only changes, the first value is `true`, each value differs from the previous one, the last is the current readiness, and the overlay agrees |
| `FullscreenOverlay.SetDisplayUIEffect` | submodules/TelegramCallsUI/Sources/StreamVideoNode.swift:382-405 | assigning the current value changes nothing; false→true starts exactly one timer; true→false drops the timer; a timer is pending exactly when the chrome shows |
| `FullscreenOverlay.LeavingFullscreenHides` | submodules/TelegramCallsUI/Sources/StreamVideoNode.swift:375-381 | leaving fullscreen always hides the chrome and drops its timer; entering fullscreen changes nothing else |
| `FullscreenOverlay.TapToggles` | submodules/TelegramCallsUI/Sources/StreamVideoNode.swift:118-122 | a tap toggles the chrome while fullscreen and does nothing otherwise |
| `FullscreenOverlay.DismissEffect` | submodules/TelegramCallsUI/Sources/StreamVideoNode.swift:398-405 | the timer's completion hides the chrome and leaves no timer; in a valid state a completion that arrives with nothing shown changes nothing |
| `FullscreenOverlay.ApplyKeepsValid` | submodules/TelegramCallsUI/Sources/StreamVideoNode.swift:375-405 | every event keeps the chrome fullscreen-only with a timer pending exactly while shown, and starts a timer only on a false→true change |
| `FullscreenOverlay.OneTimerPerShowing` | submodules/TelegramCallsUI/Sources/StreamVideoNode.swift:382-405 | for any sequence of events from the start, the invariant holds and the number of timers started equals the number of times the chrome was turned on, so no second timer starts while one is pending |
| `ThumbnailCache.ResourceId` | submodules/TelegramCallsUI/Sources/StreamVideoNode.swift:322-327 | every resource id starts with "live-stream_"; without an initial call the rest is the internal id; with one the rest holds only digits, '-' and '_' (the round trip below shows it is `<id>_<accessHash>`) |
| `Decimal.IntString` | submodules/TelegramCallsUI/Sources/StreamVideoNode.swift:324 | an integer renders as its decimal digits without leading zeros, with a '-' before the digits of a negative value |
| `ThumbnailCache.CacheKey` | submodules/TelegramCallsUI/Sources/StreamVideoNode.swift:321-328 | every resource id starts with "live-stream_" and the representation id is always "live-stream-frame" |
| `ThumbnailCache.ResourceIdRoundTrip` | submodules/TelegramCallsUI/Sources/StreamVideoNode.swift:323-324 | the id and access hash can be read back from "live-stream_<id>_<accessHash>", so distinct calls get distinct ids |
| `ThumbnailCache.InternalIdNeverReadsAsCall` | submodules/TelegramCallsUI/Sources/StreamVideoNode.swift:325-327 | "live-stream_<internalId>", for an internal id without '_', never reads as the call form |
| `ThumbnailCache.ResourceIdsDistinct` | submodules/TelegramCallsUI/Sources/StreamVideoNode.swift:321-327 | two different calls, or a call and a session without one, never share a resource id |
| `Decimal.IntStringRoundTrip` | submodules/TelegramCallsUI/Sources/StreamVideoNode.swift:324 | parsing undoes Swift's decimal rendering of an integer |
| `VoiceChatTimer.ParticipantSegments` | submodules/TelegramCallsUI/Sources/VoiceChatTimerNode.swift:143-153 | one segment per character, in order; a character with a whole-number value becomes a number segment with that value; any other character becomes a text segment tagged with its position; the segments spell the text |
| `VoiceChatTimer.VoiceChatTimerNode.constructor` | submodules/TelegramCallsUI/Sources/VoiceChatTimerNode.swift:30-37 | a new node has no layout, no timer, is not late and uses the regular palette |
| `VoiceChatTimer.VoiceChatTimerNode.UpdateParticipants` | submodules/TelegramCallsUI/Sources/VoiceChatTimerNode.swift:127-164 | records the size, clears the title and timer texts, shows "watching", and stores one segment per character of the formatted count; no timer is started |
| `VoiceChatTimer.VoiceChatTimerNode.UpdateSchedule` | submodules/TelegramCallsUI/Sources/VoiceChatTimerNode.swift:166-225 | the new state is `OnSchedule` of the old one; a timer is started only when none exists and a schedule time is given, so at most one is ever started |
| `VoiceChatTimer.VoiceChatTimerNode.RefreshFired` | submodules/TelegramCallsUI/Sources/VoiceChatTimerNode.swift:194-198 | a firing re-runs the update with the captured schedule time and the last stored size |
| `VoiceChatTimer.OnParticipants` | submodules/TelegramCallsUI/Sources/VoiceChatTimerNode.swift:127-164 | the participant update records the size and the segments, clears title and timer text, shows "watching", and leaves the refresh timer, the late latch and the palette as they were |
| `VoiceChatTimer.OnRefresh` | submodules/TelegramCallsUI/Sources/VoiceChatTimerNode.swift:194-198 | a firing with no timer or no stored size changes nothing; otherwise it keeps the timer and the size, shows the captured schedule time as subtitle and says "late by" exactly when that time has passed |
| `VoiceChatTimer.NoScheduleOnlyRecordsLayout` | submodules/TelegramCallsUI/Sources/VoiceChatTimerNode.swift:166-174 | with no schedule time the update only records the size: no timer, no text, no latch |
| `VoiceChatTimer.ScheduledTexts` | submodules/TelegramCallsUI/Sources/VoiceChatTimerNode.swift:180-205 | a start 86400 s or more ahead gets the day-scale interval string of the distance; otherwise the countdown of its absolute value; the title is "late by" exactly when the start has passed, so a distance of 0 still shows "starts in" |
| `VoiceChatTimer.LateLatch` | submodules/TelegramCallsUI/Sources/VoiceChatTimerNode.swift:187-190 | `isLate` becomes the old latch or "the start has passed"; the palette changes only on the false→true transition |
| `VoiceChatTimer.PaletteFollowsLatch` | submodules/TelegramCallsUI/Sources/VoiceChatTimerNode.swift:187-190 | for any sequence of updates and refreshes, the late palette is shown exactly when the node is late |
| `VoiceChatTimer.LateIsPermanent` | submodules/TelegramCallsUI/Sources/VoiceChatTimerNode.swift:187-190 | once late, the node stays late whatever follows |
| `VoiceChatTimer.TimerCreatedOnce` | submodules/TelegramCallsUI/Sources/VoiceChatTimerNode.swift:193-201 | the refresh timer is the one created by the first update with a schedule time, and it is never replaced |
| `VoiceChatTimer.RefreshReplaysFirstSchedule` | submodules/TelegramCallsUI/Sources/VoiceChatTimerNode.swift:193-201 | every firing re-renders the first schedule time with the last stored size, whatever later updates passed |

## Left out

- Video pipeline and picture-in-picture: `VideoRenderingContext`, `GroupVideoNode`, `AVPictureInPictureController`, pixel-buffer conversion and blurring. These are platform and engine calls. `updateVideo`'s conditions (a stream call, a video input, views that can be made) are one boolean parameter.
- `storeLastFrameThumbnail` and the PNG write; `mediaBox.cachedRepresentationPathForId`. These are file I/O through an external cache, so only the resource and representation ids are modelled.
- `visibility` and its observer. It only enables and disables platform views.
- All `CGFloat` layout: frames, insets, the glow and mask paths, and the 68→60 pt font fallback of the timer text. This is floating-point geometry; sizes are carried through unexamined.
- Animations, gradient motion, `CATransaction`, `DispatchQueue.main.async` and hierarchy tracking. These are platform animation and main-thread dispatch. The fade of the chrome and of the "no signal" text is therefore not modelled; the model records the visibility each one was asked for.
- `StreamShimmeringNode`, and `VoiceChatTitleNode` beyond `isLivestreamActive`. They contain view configuration and animation only.
- The "no signal" text's wording (admin or viewer) and the overlay's title, buttons and `canManageCall`. These are localised text and view wiring.
- Localised strings and formatters (`LiveStream_*`, `VoiceChat_*`, `presentationStringsFormattedNumber`, `textForTimeout`, `scheduledTimeIntervalString`, `humanReadableStringForTimestamp`). They are recorded as which formatter receives which value, or passed in as strings and functions.
- The wall clock (`CFAbsoluteTimeGetCurrent`). It is an input: a poll's result for the watchdog, a Unix second for the timer node.
- Swift `Character` is an extended grapheme cluster; here one `char` stands for one `Character`.
- `StreamVideo.StreamVideoNode.UpdateVideoReady`: an `onVideoReadyChanged` that is nil receives nothing; the log records every value the node offers to the listener.
- `VoiceChatTimer.VoiceChatTimerNode.UpdateSchedule`: Swift traps when `scheduleTime − now` or its absolute value leaves `Int32`. The model requires that it does not, and the event-sequence lemmas require non-negative Unix timestamps, which implies it. The trap itself is not modelled, nor is the trap of converting a clock reading past 2038 to `Int32`.
- The timers' periods (the 0.5 s no-signal poll, the 3 s dismiss timeout, the 0.5 s refresh): each firing is an event of the model, so when it happens is left to the caller; only the no-signal threshold depends on the period, as 20 000 ms / 500 ms = 40 intervals.
- Cancelling a dropped SwiftSignalKit timer relies on that library's `Timer` invalidating itself on release. That code is not part of this model.

# WebVision: proximity alerts and voice control, modelled in Dafny

WebVision is a browser page that runs an object detector on the camera feed,
draws a box and a label over every confident detection, and speaks a warning
when a detected object looks near. Voice commands turn the camera on and off
and switch between the front and back cameras. This project models the
decision logic of `script.js` and proves what it does.

- `detection.dfy`, module `Detection`: the per-frame logic. A prediction is
  drawn when its score exceeds 0.66. It is near when its box area
  `width * height` exceeds 150. The frame's warning is
  `"Warning: <class> is near"`, taken from the last confident near prediction.
  The overlay is two entries per drawn prediction. The debounce gate
  `ShouldSpeak` speaks a non-empty warning when it differs from the last one
  spoken or the last one is more than 7000 ms old. `FrameMessage` and
  `Overlay` mirror the loop prediction by prediction. `LastAlert` and
  `Qualifying` are independent reference definitions, and lemmas connect the two.
- `router.dfy`, module `Router`: the voice command router. `Normalize` is
  ECMAScript `trim` followed by lower-casing. `Includes` is `String.prototype.includes`.
  `MatchesAny` is `Array.prototype.some` over a phrase list. `Route` checks the
  enable list, then the stop list, then the switch list.
- `session.dfy`, module `Session`: the page's globals (`stream`, `lastSpoken`,
  `lastSpokenTime`, `facingMode`, `children`, the two button flags, plus the
  loaded-model flag, the video source and a speech log) as fields of class
  `App`. Each handler is a method proved against a transition function on the
  value `AppState`: `AfterEnable`, `AfterFrame`, `AfterSwitch`, `AfterStop`,
  `AfterCommand`. `PredictWebcam` rebuilds `children` in a loop whose
  invariants tie it to `Overlay` and `FrameMessage`.
- `session_properties.dfy`, module `SessionProperties`: lemmas over those
  transition functions. They cover debouncing across frames, the switch
  toggle, what stop resets and what it keeps, and acknowledgements of voice
  commands.
- `wrappers.dfy`: the `Option` type.

Platform calls become inputs: the prediction list of a frame, the current
time, the device kinds that `enumerateDevices` lists, and the stream that
`getUserMedia` grants (`None` when it rejects). Speech is an append to the
`spoken` log. Stopping a stream's tracks adds it to `stoppedStreams`.

The model keeps the code's behaviour where it differs from the intended
design of a camera session:
- A frame never checks that the camera is still on (script.js:126).
- `enableCam` has no guard against an active stream. A second grant replaces
  `stream` without stopping the old one (script.js:48-60).
- `switchCamera` puts the new stream only in the video element, never in
  `stream` (script.js:151-153). A later stop therefore stops the old tracks
  again and leaves the new ones running (`SwitchThenStopLeavesNewStream`).
- `stopCam` keeps `stream` and `lastSpokenTime` and only clears `lastSpoken`
  (script.js:160-178). Stopping again re-runs the same reset (`StopIdempotent`).
- The router speaks its acknowledgement whatever the action did
  (script.js:191-201). Any transcript containing the letters "on" selects
  enable, because "on" is an enable phrase and enable is checked first
  (`ContainsOnEnables`). Whether the camera then turns on depends on a loaded
  model and a granted stream, as for the button.

## Model

| member | source | states |
|---|---|---|
| Detection.NearMessage | script.js:108-112 | the warning is non-empty, has the form "Warning: ", class, " is near", and holds the class at offset 9 |
| Detection.NearMessageInjective | script.js:111 | different classes give different warnings |
| Detection.StepMessage | script.js:87-112 | definition of one prediction's effect on the pending warning, with the person branch and the generic branch as written; its meaning is stated by StepMessageUniform |
| Detection.StepMessageUniform | script.js:87-112 | the person branch gives the same text as the generic branch; a confident near prediction sets the warning for its class; any other prediction keeps the pending one |
| Detection.Qualifying | script.js:87 | the confidence filter keeps only predictions scoring above 0.66, keeps every such prediction, and adds nothing |
| Detection.QualifyingCounts | script.js:86-87 | the filter keeps each confident prediction exactly as often as it occurs, and no other prediction |
| Detection.QualifyingAppend | script.js:86-87 | filtering a concatenation is the concatenation of the filtered parts, so the filter keeps prediction order |
| Detection.QualifyingSnoc | script.js:86-87 | one more prediction at the end extends the filtered list by that prediction exactly when it scores above 0.66 |
| Detection.QualifyingSingle | script.js:87 | a single prediction is kept exactly when its score exceeds 0.66 |
| Detection.FrameMessage | script.js:85-117 | the pending warning after the whole prediction list is empty or has the form "Warning: ", class, " is near" |
| Detection.Entries | script.js:99-107 | definition of what one prediction adds: its highlighter then its label when confident, nothing otherwise; OverlayShape states the result |
| Detection.Overlay | script.js:83-107 | the rebuilt overlay has even length, at most two entries per prediction, and holds highlighters exactly at its even positions |
| Detection.LastAlert | script.js:84-117 | reference definition of the winning prediction: it is confident and near, and no later prediction is |
| Detection.FrameMessageIsLastAlert | script.js:85-117 | the frame's warning is the one for the last confident near prediction, or empty when there is none |
| Detection.FrameMessageEmptyIff | script.js:85-117 | the frame's warning is empty exactly when no prediction is both confident and near |
| Detection.FrameMessageFromPrediction | script.js:85-117 | a non-empty frame warning names the class of a confident near prediction of that frame |
| Detection.FrameMessageIgnoresUnconfident | script.js:87 | predictions scoring 0.66 or less never change the frame's warning |
| Detection.OverlayIgnoresUnconfident | script.js:87-107 | predictions scoring 0.66 or less add no overlay entry |
| Detection.OverlayShape | script.js:74-107 | the overlay has exactly two entries per confident prediction, in prediction order: the highlighter with its box, then its label |
| Detection.ShouldSpeak | script.js:121 | definition of the debounce test as written; RepeatSuppressed and ChangedMessageSpoken state what it means |
| Detection.RepeatSuppressed | script.js:121 | right after speaking a warning at time t, the same warning is spoken again only once now exceeds t + 7000 |
| Detection.ChangedMessageSpoken | script.js:121 | a non-empty warning that differs from the last one spoken passes the gate at any time |
| Router.TrimStart | script.js:184 | drops leading whitespace only: the result is a suffix, does not start with whitespace, and everything dropped is whitespace |
| Router.TrimEnd | script.js:184 | drops trailing whitespace only: the result is a prefix, does not end with whitespace, and everything dropped is whitespace |
| Router.LowerChar | script.js:184 | lower-cases an upper-case ASCII letter and leaves every other character alone |
| Router.Lower | script.js:184 | lower-cases each character in place, keeping the length |
| Router.IncludesIff | script.js:191 | the containment test succeeds exactly when the phrase occurs at some position of the command |
| Router.MatchesAnyIff | script.js:191-198 | a phrase list matches exactly when one of its phrases is contained in the command |
| Router.ClassifyEnable | script.js:191-193 | a command containing an enable phrase selects enable, whatever else it contains |
| Router.ClassifyStop | script.js:191-196 | a command containing a stop phrase selects enable or stop, never switch and never nothing |
| Router.ClassifySwitch | script.js:191-200 | a command containing a switch phrase always selects some action |
| Router.Trim | script.js:184 | definition of `trim()`: TrimEnd after TrimStart; TrimTrimmed and TrimOccurs state what it keeps |
| Router.Normalize | script.js:184 | definition of `trim().toLowerCase()`; NormalizeIdempotent, NormalizeNormal and PhraseSurvives state its meaning |
| Router.Includes | script.js:191-198 | definition of `includes` as a left-to-right scan; IncludesIff states it |
| Router.MatchesAny | script.js:191-198 | definition of `some(cmd => command.includes(cmd))`; MatchesAnyIff states it |
| Router.Classify | script.js:191-201 | definition of the if-chain over the three phrase lists, enable first; ClassifyIff states its four outcomes |
| Router.ClassifyIff | script.js:191-201 | enable exactly when an enable phrase occurs; stop exactly when a stop phrase and no enable phrase occurs; switch exactly when a switch phrase and no enable or stop phrase occurs; nothing exactly when no phrase of any list occurs |
| Router.Route | script.js:184-201 | definition: classify the trimmed, lower-cased transcript; RouteNormalized, ContainsOnEnables and the instances below state its results |
| Router.MissingChar | script.js:191 | a command that lacks some character of a phrase does not contain the phrase |
| Router.LacksPhrases | script.js:191-198 | a command lacking a character of every phrase of a list contains none of them; the fixed-transcript instances use it to show that no phrase occurs |
| Router.NormalizeNormal | script.js:184 | a transcript with no surrounding whitespace and no upper-case letter is unchanged by trimming and lower-casing |
| Router.RoutesToEnable | script.js:184-193 | any transcript in which an enable phrase without surrounding whitespace or upper-case letters occurs selects enable |
| Router.RoutesToStop | script.js:184-196 | a transcript that is itself normal (no surrounding whitespace, no upper-case letter), contains a stop phrase and contains no enable phrase selects stop |
| Router.RoutesToSwitch | script.js:184-200 | a normal transcript that contains a switch phrase and no enable or stop phrase selects switch |
| Router.RoutesNowhere | script.js:184-201 | a normal transcript that contains no phrase of any of the three lists selects nothing |
| Router.StopWebcamStops | script.js:184-196 | "stop webcam" selects stop |
| Router.SwitchSwitches | script.js:184-200 | "switch" selects switch |
| Router.HelloIsUnmatched | script.js:184-201 | "hello" selects nothing |
| Router.TrimTrimmed | script.js:184 | a string with no whitespace at either end is its own trim |
| Router.LowerKeepsSpaces | script.js:184 | lower-casing turns no character into whitespace and no whitespace into anything else |
| Router.NormalizeIdempotent | script.js:184 | trimming and lower-casing twice gives the same as once |
| Router.RouteNormalized | script.js:184-201 | routing ignores letter case and surrounding whitespace |
| Router.StartOccurs | script.js:184 | a phrase starting with non-whitespace that occurs in a transcript still occurs once leading whitespace is dropped, shifted left by the dropped count |
| Router.EndOccurs | script.js:184 | a phrase ending with non-whitespace still occurs, at the same place, once trailing whitespace is dropped |
| Router.TrimOccurs | script.js:184 | the two together: such a phrase survives `trim()`, shifted left by the dropped prefix |
| Router.LowerOccurs | script.js:184 | a phrase with no upper-case letter survives `toLowerCase()` at the same place |
| Router.PhraseSurvives | script.js:184-191 | a lower-case phrase that starts and ends with non-whitespace, inside a transcript, is still contained after normalization |
| Router.ContainsOnEnables | script.js:187-193 | any transcript containing "on" selects enable |
| Router.StopBeatsSwitch | script.js:188-198 | any transcript containing "stop" selects enable or stop, never switch |
| Router.SwitchIsRouted | script.js:189-200 | any transcript containing "switch" selects some action |
| Router.ContainsEnableEnables | script.js:187-193 | any transcript containing "enable" selects enable |
| Router.StopCameraOnEnables | script.js:187-193 | "stop camera on" selects enable, not stop |
| Router.PleaseEnableCamera | script.js:184-193 | "please enable camera now" selects enable |
| Session.Toggle | script.js:145 | the facing-mode switch always changes the mode |
| Session.ToggleInvolution | script.js:145 | switching the mode twice restores it |
| Session.VideoInputCount | script.js:133-135 | the result is the number of occurrences of "videoinput" among the device kinds; it is at most the number of devices, and zero exactly when no device is a video input |
| Session.AfterModelLoaded | script.js:31-35 | definition of the model-loaded handler; App.OnModelLoaded is proved against it |
| Session.AfterEnable | script.js:48-62 | definition of enableCam; EnableNeedsModel, EnableReplacesStream and EnableRefused state its cases, and App.EnableCam is proved against it |
| Session.AfterAnnounce | script.js:120-125 | definition of the gated announcement; ShouldSpeak is its gate, FrameRepeat and FrameSpeaksChangedWarning state its effect, and App.Announce is proved against it |
| Session.AfterFrame | script.js:71-125 | definition of one predictWebcam frame; FrameKeepsValid, FrameRepeat, QuietFrame and PersonTwiceSpokenOnce state it, and App.PredictWebcam is proved against it |
| Session.AfterSwitch | script.js:132-157 | definition of switchCamera; SwitchKeepsSession, SwitchWithoutSecondCamera, SwitchFlips and SwitchTwiceRestores state it, and App.SwitchCamera is proved against it |
| Session.AfterStop | script.js:160-178 | definition of stopCam; StopResets, StopWithoutStream, StopIdempotent and StopClearsSuppression state it, and App.StopCam is proved against it |
| Session.AfterCommand | script.js:182-202 | definition of the onresult handler over a routed command; CommandAcknowledged, UnmatchedCommand and CommandKeepsValid state it, and App.OnResult is proved against it |
| Session.App.constructor | script.js:7-12 | the page starts with no model, no stream, facing mode environment, no overlay, empty last alert at time 0, and keeps the invariant |
| Session.App.Say | script.js:65-68 | speaking appends the text to the speech log and changes nothing else |
| Session.App.OnModelLoaded | script.js:31-35 | model loading records the model and announces it |
| Session.App.EnableCam | script.js:48-62 | nothing without a model; otherwise a stream is requested for the current facing mode and, when granted, becomes the stream and video source, disables the enable button and enables the stop button |
| Session.App.Announce | script.js:119-125 | the debounce gate: speaks and records the warning with the time exactly when ShouldSpeak holds, otherwise changes nothing |
| Session.App.PredictWebcam | script.js:71-128 | one frame: the overlay becomes exactly Overlay(predictions), replacing the previous one, and FrameMessage(predictions) goes through the gate |
| Session.App.SwitchCamera | script.js:132-157 | with at most one video input only the notice is spoken; otherwise the old tracks stop, the mode flips and is requested, and a granted stream becomes only the video source |
| Session.App.StopCam | script.js:160-178 | without a stream nothing changes; with one its tracks stop, the video source and overlay clear, the buttons reset and the last alert is forgotten |
| Session.App.OnResult | script.js:182-202 | the routed action runs and its acknowledgement is spoken; an unmatched transcript changes nothing |
| SessionProperties.FrameKeepsValid | script.js:108-125 | after a frame the last spoken alert is still empty or a proximity warning |
| SessionProperties.CommandKeepsValid | script.js:182-202 | no voice command creates a stream without a loaded model or records a non-warning as the last alert |
| SessionProperties.FrameRepeat | script.js:119-125 | after a frame that spoke, the same predictions stay silent while at most 7000 ms have passed and speak the same warning again after that |
| SessionProperties.FrameSpeaksChangedWarning | script.js:119-125 | a frame whose warning differs from the last spoken one speaks it at once and records it with the frame's time |
| SessionProperties.QuietFrame | script.js:119-125 | a frame with no confident near prediction only replaces the overlay |
| SessionProperties.PersonTwiceSpokenOnce | script.js:108-125 | a confident person with box area 200 at 0 ms and again at 3000 ms is warned about once |
| SessionProperties.SwitchKeepsSession | script.js:132-157 | a switch never changes the stream handle, the overlay, the buttons or the debounce state |
| SessionProperties.SwitchWithoutSecondCamera | script.js:133-138 | with at most one video input a switch only speaks the notice |
| SessionProperties.SwitchFlips | script.js:141-156 | with two video inputs the mode flips and is requested whether or not the request succeeds, and nothing is spoken |
| SessionProperties.SwitchTwiceRestores | script.js:145 | two switches with two cameras restore the facing mode |
| SessionProperties.SwitchThenStopLeavesNewStream | script.js:141-162 | after a granted switch, a stop stops the old stream again and leaves the new one running |
| SessionProperties.EnableNeedsModel | script.js:49 | enabling without a loaded model changes nothing |
| SessionProperties.EnableReplacesStream | script.js:51-59 | a granted enable replaces whatever stream was there without stopping it |
| SessionProperties.EnableRefused | script.js:53-61 | a refused request only logs the request |
| SessionProperties.StopResets | script.js:160-178 | a stop with a stream empties the overlay, forgets the last alert and resets the buttons, and keeps the stream handle and the last speech time |
| SessionProperties.StopWithoutStream | script.js:161 | a stop without a stream changes nothing |
| SessionProperties.StopIdempotent | script.js:160-178 | stopping twice is the same as stopping once |
| SessionProperties.StopClearsSuppression | script.js:177 | after a stop, the next frame's warning is spoken whatever the time |
| SessionProperties.UnmatchedCommand | script.js:191-201 | an unmatched transcript does nothing and says nothing |
| SessionProperties.CommandAcknowledged | script.js:191-200 | every routed command speaks its acknowledgement, even when its action does nothing; the switch acknowledgement comes before anything the switch says |
| SessionProperties.PleaseEnableTurnsOn | script.js:184-193 | "please enable camera now" with a loaded model and a granted stream turns the camera on and says "Webcam enabled." |
| SessionProperties.StopCameraOnDoesNotStop | script.js:187-193 | "stop camera on" runs enable, not stop |
| SessionProperties.StopWebcamStopsCamera | script.js:184-196 | "stop webcam" runs the stop transition and says "Webcam stopped." |
| SessionProperties.HelloChangesNothing | script.js:184-201 | "hello" changes nothing and says nothing |

## Left out

- DOM element creation, CSS pixel strings and the removal of elements from the live view (script.js:74-82, 92-106): an overlay entry is an abstract highlighter or label record.
- The label's confidence and distance text (script.js:89, 91): floating-point formatting with `toFixed(2)`.
- Loading the detector and running it (script.js:31-35, 72): loading is the `OnModelLoaded` event, and each frame's prediction list is an input.
- Scores and box sizes are exact reals. The constant 0.66 is compared exactly, so a score equal to the binary double nearest 0.66 is drawn here but not by the page.
- `getUserMedia`, `enumerateDevices` and stopping tracks (script.js:53, 133-134, 142, 162): a granted stream or a rejection is an input, the device kinds are an input, and a stopped stream is recorded in `stoppedStreams`.
- Speech synthesis (script.js:65-68) is a log of requested texts. `speechSynthesis.cancel` in stopCam (script.js:165) is not modelled, because the log records requests, not what is heard.
- Speech recognition setup and `onerror` (script.js:19-23, 204-207), and the choice of the last result's first alternative (script.js:183): the handler takes the final transcript.
- `console.log` and `console.error` (script.js:61, 79, 155, 185): logging only.
- `getUserMediaSupported` and the registration of the button and recognition handlers (script.js:26-45): browser feature detection and wiring.
- The `loadeddata` listener and the `requestAnimationFrame` rescheduling (script.js:57, 126): one call of `PredictWebcam` is one frame. The scheduling of frames is left out.
- Promise and `await` interleaving: each handler and each granted stream is applied as one step. A frame or command that runs between a request and its answer is not modelled.
- `currentObject` (script.js:84, 113-115): computed but never used.
- The initial disabled states of the two buttons come from the page markup, which is not part of this model. The constructor takes them as parameters.
- Router.Lower: lower-cases only the ASCII letters A-Z, while `toLowerCase` maps every Unicode letter.

# Face landmark attentiveness monitor — verified model of the per-frame analysis

The monitor gets, for every video frame, the landmarks of each face the face-mesh model
detected (478 normalized `(x, y)` points per face with iris refinement switched on, at most
two faces). It then raises three kinds of alert:

- **multiple faces**: more than one face is in the frame. The alert is raised and the rest
  of the frame is skipped.
- **face movement**: the nose base (landmark 168) lies left of 30% or right of 70% of the
  frame width.
- **eye movement**: both eyes have been closed long enough. The eye-closure state lives in
  four module-level variables that persist between frames: `leftEyeClosedTime`,
  `rightEyeClosedTime`, `totalEyeClosureTime` and `alertShown`.

The model has five modules:

- `Landmarks` (`landmarks.dfy`): pure geometry. It holds the landmark indices, the eye-open
  gap test against 0.01 and the face-direction test.
- `EyeClosure` (`eye_closure.dfy`): the eye monitor as a pure transition function `Step`
  over the four variables. Lemmas about whole sequences of calls sit beside it.
- `EyeClosureFindings` (`findings.dfy`): two places where the eye monitor does not do what
  its comments say, each with a concrete counterexample. It also gives a corrected timer and
  proves the intended behaviour of that timer.
- `Detection` (`detection.dfy`): the alert kinds and what one frame does (`FrameOutcome`).
  The class `Session` holds the four variables as fields and a ghost log of raised alerts.
  Its methods `MonitorFaceDirection`, `MonitorEyeClosure` and `OnResults` update those
  fields step by step, as the JavaScript does, and are proved equal to the pure functions.
- `Wrappers` (`wrappers.dfy`): `Option`, standing for a JavaScript `null`-or-value.

The model follows the code as written:

- At line 113 a closed frame adds the whole time since the streak began to the total. The
  reference point never advances.
- The `else` at line 126 clears `alertShown` on every call that does not raise the alert.
- The multiple-faces alert is raised on every frame with more than one face.
- The face test compares pixel positions. It is proved equivalent to comparing the
  normalized x with 0.3 and 0.7.

The comments in the source state the intent: the total is the time both eyes are closed
(line 7), the alert is raised after more than 3 seconds of closure (line 121), it is shown
only once (line 124), and the flag is reset when the eyes open (line 126). The code does
not do this, as "## Findings" shows. `EyeClosureFindings.CorrectedStep` is a timer that does,
with its properties proved.

Clock readings (`performance.now()`, in milliseconds) are a `real` parameter. Within one frame
the eye monitor runs on at most one face, because more than one face returns early. So one
reading per frame is what the code observes. JavaScript's `currentTime - null` (null becomes
0) is modelled by `EyeClosure.ToNumber`. It can only matter in states that break the
pair invariant, and no call ever reaches such a state.

## Model

| member | source | states |
|---|---|---|
| `Landmarks.EyeOpen` | FaceLandmarkDetection.js:98-102 | an eye is open iff the y values of its top and bottom landmarks differ by more than 0.01 in either direction |
| `Landmarks.BothEyesClosed` | FaceLandmarkDetection.js:101-107 | both eyes count as closed iff the y values of landmarks 159 and 145, and of 386 and 374, each differ by at most 0.01 |
| `Landmarks.RefinedFacesSuffice` | FaceLandmarkDetection.js:36 | the 478 landmarks of the refined model cover every index the analysis reads (up to 386) |
| `Detection.Observe` | FaceLandmarkDetection.js:101-107 | the eye monitor takes the both-closed branch exactly when `BothEyesClosed` holds for the face |
| `Landmarks.FaceOffCenter` | FaceLandmarkDetection.js:83-93 | the pixel test `x*640 < 640*0.3` or `x*640 > 640*0.7` on landmark 168 holds iff its normalized x is below 0.3 or above 0.7 |
| `Landmarks.NoseTipHasNoInfluence` | FaceLandmarkDetection.js:84-91 | replacing landmark 1 (the nose tip) never changes the face-direction verdict |
| `EyeClosure.Step` | FaceLandmarkDetection.js:97-127 | one call: an open eye nulls both timestamps and zeroes the total; the closed-since time changes only on a closed frame where both were null, is then set to the current time, and is kept on later closed frames; the first closed frame adds 0; with a clock no earlier than the streak start the total does not shrink; the alert fires iff the new total exceeds 3 and `alertShown` was false, and `alertShown` afterwards equals "fired"; the invariant `Consistent` is kept |
| `EyeClosure.InitialConsistent` | FaceLandmarkDetection.js:5-8 | the initial values of the four variables satisfy the invariant |
| `EyeClosure.RunKeepsConsistent` | FaceLandmarkDetection.js:106-127 | every sequence of calls keeps both timestamps equal (both null or the same time), the total 0 outside a streak, and `alertShown` only with a total above 3 |
| `EyeClosure.AlertShownIsLastFired` | FaceLandmarkDetection.js:122-127 | after any non-empty sequence of calls, `alertShown` is true iff the last call raised the eye alert |
| `EyeClosure.NeverTwoAlertsInARow` | FaceLandmarkDetection.js:122-127 | the eye alert never fires on two consecutive calls |
| `EyeClosure.ClosedStreakTotalGrows` | FaceLandmarkDetection.js:107-113 | during a closed streak with a non-decreasing clock, the closed-since time stays at the streak's first frame and the total never decreases and stays non-negative |
| `EyeClosureFindings.AlertBeforeThreeSecondsAsWritten` | FaceLandmarkDetection.js:107-124 | eyes closed at 0, 1, 2 and 2.5 s raise the "more than 3 seconds" alert at 2.5 s |
| `EyeClosureFindings.RepeatedAlertAsWritten` | FaceLandmarkDetection.js:121-127 | eyes closed without a break at 0, 4, 5 and 6 s raise the "only once" alert at 4 s and again at 6 s |
| `EyeClosureFindings.CorrectedStep` | FaceLandmarkDetection.js:106-127 | corrected timer: it fires only on a closed frame more than 3 s after the streak start, and only if it has not fired in this streak; afterwards the flag is set iff it was set or that time has passed, and an open eye resets everything |
| `EyeClosureFindings.CorrectedAlertsOncePerStreak` | FaceLandmarkDetection.js:121-124 | over a closed streak the corrected timer fires exactly once if the flag goes from clear to set, otherwise never, and a set flag stays set |
| `EyeClosureFindings.CorrectedExactlyOneAlert` | FaceLandmarkDetection.js:121-124 | a closed streak from the initial state on a monotone clock raises exactly one alert if it lasts more than 3 s, and none otherwise |
| `Detection.DirectionAlerts` | FaceLandmarkDetection.js:89-93 | one face raises one face-movement alert iff the nose base x is below 0.3 or above 0.7, and no alert otherwise |
| `Detection.ProcessFaces` | FaceLandmarkDetection.js:56-62 | running both monitors over the faces in list order raises at most two alerts per face, never the multiple-faces alert, and keeps the eye-state invariant |
| `Detection.FrameOutcome` | FaceLandmarkDetection.js:45-62 | more than one face: exactly one multiple-faces alert and the eye state unchanged; no face: nothing; one face: direction monitor then eye monitor; the multiple-faces alert appears iff there is more than one face |
| `Detection.Session.constructor` | FaceLandmarkDetection.js:5-8 | the variables start as null, null, 0 and false, and the alert log is empty |
| `Detection.Session.MonitorFaceDirection` | FaceLandmarkDetection.js:83-94 | appends the face-movement alert to the log exactly when `DirectionAlerts` says so, and changes nothing else |
| `Detection.Session.MonitorEyeClosure` | FaceLandmarkDetection.js:97-128 | the new variables are `Step` of the old ones, the eye alert is appended iff `Step` fires, and the invariant is kept |
| `Detection.Session.OnResults` | FaceLandmarkDetection.js:45-62 | the new variables and the appended alerts are those of `FrameOutcome`, and the invariant is kept |

## Findings

| source | as written | input that shows it | evidently intended | confidence | as-written member | corrected member |
|---|---|---|---|---|---|---|
| FaceLandmarkDetection.js:113 | each closed frame adds the whole time since the streak began, so the total grows much faster than the closure time | both eyes closed at 0, 1000, 2000 and 2500 ms: totals 0, 1, 3 and 5.5 s, so the alert fires after 2.5 s | the alert fires only after more than 3 s of continuous closure | high (proved; not executed) | `EyeClosureFindings.AlertBeforeThreeSecondsAsWritten` | `EyeClosureFindings.CorrectedExactlyOneAlert` |
| FaceLandmarkDetection.js:125-127 | `alertShown` is cleared on every call that does not raise the alert, including closed frames | both eyes closed without a break at 0, 4000, 5000 and 6000 ms: the alert fires at 4000 and again at 6000 | the alert is shown once per closed streak, as the comment at line 124 says | high (proved; not executed) | `EyeClosureFindings.RepeatedAlertAsWritten` | `EyeClosureFindings.CorrectedAlertsOncePerStreak` |

`Detection.Session` keeps the as-written `Step`, because that is the behaviour of the page.
The corrected timer stands beside it, with its own proofs.

## Left out

- Camera acquisition (`setupCamera`, lines 11-26) and `main` (lines 144-157): browser media I/O and DOM lookups.
- Face-mesh setup (`initializeFaceMesh`, lines 29-42): a foreign library loaded from a CDN. It fixes 478 landmarks per face and at most two faces. The model requires at least 387 landmarks for every face that is analysed, since index 386 is the highest one read.
- The frame loop (`detectFaces`, lines 138-141): asynchronous `requestAnimationFrame` scheduling.
- Canvas drawing: `ctx.clearRect` in `onResults`, `drawLandmarks` (lines 69-80), `displayEyeClosureTime` and its `toFixed(2)` text (lines 131-135, called at line 65), and all of processEyes.js, which only draws iris points.
- The blocking `alert()` dialog: each call is an entry appended to the ghost log `Session.alerts`. `Alert.Message` holds the dialog's text.
- IEEE floating point: coordinates and clock readings are `real`, and `performance.now()` is a parameter.
- Detection.Session.OnResults: one clock reading serves every face of the frame. The source reads the clock once per face, but its loop never sees more than one face.

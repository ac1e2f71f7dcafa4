# Security camera agent: decision logic

A Dafny model of the decision logic of `cam.py`, a Raspberry Pi camera agent.
The agent polls the camera every few seconds while monitoring is enabled. It
uploads a picture for analysis when the picture's JPEG size differs from the
previous picture's by more than half a percent. The analysis runs a cascade
of image-recognition calls: labels, then faces, then celebrities and known
faces. Each later stage is gated on the result of the one before. Commands
received over MQTT switch monitoring on and off, force a one-shot analysis,
or enrol a face under a name.

The model has five modules, one per component:

- `ChangeDetector` (ChangeDetector.dfy): the relative size change and the trigger rule, in exact real arithmetic.
- `Text` (Text.dfy): Python's `str.capitalize` over ASCII text, and the substring test of Python's `in` on strings.
- `CommandRouter` (CommandRouter.dfy): the dispatch of a decoded command object to one `Action`.
- `AnalysisPipeline` (AnalysisPipeline.dfy): the upload key of a capture, and `AnalyseImage`. That method builds the "seen" record key by key and returns the remote calls it made, in order. Every remote reply is an input, either the returned data or `Raised`.
- `Camera` (Camera.dfy): the class `CameraState` with the two attributes the script hangs on its polling function (`active` for `camera_enabled`, `size` for the baseline size). Its methods are `Enable`, `Disable`, `Use` (`use_camera`), `Tick` (one iteration of the main loop), `Handle` (`message_received`) and `Serve` (the main loop over a sequence of events). The spec functions `Step` and `Trace` act on a `Cam` value. The lemmas about runs of events are stated over them.

Picture sizes, remote replies and the capture timestamp are inputs. The poll
loop and the message callback are modelled as one serialised sequence of
events.

## Model

| member | source | states |
|---|---|---|
| ChangeDetector.SizeChange | cam.py:94-100 | The change is never negative. It is 0 when there is no baseline. With a baseline, change × baseline equals the distance between the two sizes, i.e. it is \|1 − current/previous\|. |
| ChangeDetector.SizeChangeAboveThreshold | cam.py:97-104 | With a baseline, the change is strictly above 0.005 exactly when 200 × \|current − previous\| > previous. |
| ChangeDetector.Triggers | cam.py:97-104 | A periodic capture triggers analysis iff there is a baseline and 200 × \|current − previous\| > previous (strict). So the first capture after a reset never triggers. |
| ChangeDetector.TriggerBoundaries | cam.py:104 | An unchanged size never triggers. With a baseline, a size that at least doubles always triggers. |
| ChangeDetector.TriggerExamples | cam.py:104 | Sample size pairs: 1000→1003 and 1000→996 do not trigger, and 1000→1005, exactly on the threshold, does not either. 1000→1006, 1000→994 and 1000→1200 do. Nothing triggers without a baseline. |
| Text.Capitalize | cam.py:79 | The result has the input's length and the capitalized shape: the first character is not lower-case and no later character is upper-case. It equals the input up to ASCII case. |
| Text.CapitalizeUnique | cam.py:79 | Any capitalized string equal to s up to case is Capitalize(s). |
| Text.CapitalizeIdempotent | cam.py:79 | Capitalizing twice gives the same as capitalizing once. |
| Text.CapitalizeFixedPoints | cam.py:79 | Capitalize(s) == s iff s already has the capitalized shape. |
| Text.CapitalizeEqualIff | cam.py:79 | Two names capitalize to the same string iff they differ only in letter case (both directions). |
| Text.CapitalizeExamples | cam.py:79 | "alice" becomes "Alice", "mcDONALD" becomes "Mcdonald", and "" stays "". |
| Text.Contains | cam.py:155 | Python's `p in s` holds iff p occurs in s at some position as a contiguous slice. |
| CommandRouter.Route | cam.py:69-82 | Each action is chosen iff its guard holds. A present `camera` key decides: `enable`, `disable`, `use`, or any other value (unknown camera state). Otherwise a present `index` key decides: a string value gives Index(Capitalize(name)), and a non-string value raises. Otherwise the command is unknown. |
| CommandRouter.CameraKeyTakesPrecedence | cam.py:69-78 | When `camera` is present, adding, changing or removing `index` does not change the action. Such a message never routes to enrolment. |
| CommandRouter.OtherKeysIgnored | cam.py:69-82 | Adding or removing any key other than `camera` and `index` does not change the action. |
| CommandRouter.UnrecognisedCommandsDoNothing | cam.py:76-82 | Classifies actions only: the action of an unknown `camera` value or of a message with neither key is neither a state-changing action (enable, disable) nor a capturing one (use, enrolment). The behaviour of such a command is stated by Camera.CommandsWithoutStateChange. |
| CommandRouter.IndexNameNormalised | cam.py:78-80 | An enrolment name is in capitalized form and is a fixed point of `capitalize`. Two `index` values enrol under the same name iff they are equal up to case. |
| CommandRouter.RouteExamples | cam.py:69-82 | Sample messages route as the handler does. Enable enables. `frobnicate` is an unknown camera state. `use` wins over `index`. `alice` enrols "Alice". An unrelated key is unknown. |
| AnalysisPipeline.ImageKey | cam.py:112 | An image key is the prefix `pizero/image-`, then the timestamp, then `.jpg`. |
| AnalysisPipeline.ImageKeyRoundTrip | cam.py:21 | The timestamp can be read back from an image key. So distinct timestamps give distinct keys. |
| AnalysisPipeline.AnalyseImage | cam.py:134-195 | Label detection (top 5 labels, confidence at least 70) always runs first. The stages run as a prefix of the order labels → faces → celebrities → known faces. Faces run iff some label name contains "Person". Celebrities run iff faces ran and found at least one face. Known-face search runs iff celebrity recognition ran and did not raise. The record is written, as the last call, iff no call raised. Its key set is {Image, Labels}, {Image, Labels, FaceDetails} or all five keys. Each value is the corresponding reply. |
| AnalysisPipeline.PersonMarkerMatches | cam.py:155 | A label named "Person" counts as a person. So does one named "Personal Computer" (substring test). |
| AnalysisPipeline.PersonMarkerIsCaseSensitive | cam.py:155 | A label named "person" does not count as a person. |
| Camera.Step | cam.py:69-106 | One event analyses iff it is a poll with the camera active and the change triggering, or a `use` command. It enrols a face iff it is an `index` command with a string value, under the name the router gives. It raises iff the `index` value is not a string. Every other event has no effect beyond the state change. Afterwards the camera is active iff the event was `enable`, or the camera was active and the event was not `disable`. The baseline becomes the capture size on an active poll and 0 on `enable`. Otherwise it is unchanged. |
| Camera.Trace | cam.py:214-219 | Handling a sequence of events yields exactly one effect per event. |
| Camera.TraceAppend | cam.py:214-219 | Handling two batches one after the other is the same as handling their concatenation. |
| Camera.NothingUntilEnabled | cam.py:212-219 | Until an `enable` command arrives, a disabled camera stays disabled and keeps its baseline. The only analyses are those forced by `use`. |
| Camera.PollsAloneDoNothing | cam.py:212-219 | From start-up, polls alone leave the state as it was and never analyse. |
| Camera.PollAnalysesOnlyWithBaseline | cam.py:94-106 | A poll analyses only when the camera was active, a baseline existed, and the capture size differs from it. |
| Camera.MessagesKeepZeroBaseline | cam.py:33-41 | Commands alone keep a zero baseline at zero. Only a periodic capture sets the baseline. |
| Camera.FirstPollAfterEnableIsQuiet | cam.py:33-36 | The first poll after `enable` never analyses, whatever its size and whatever commands arrive in between. |
| Camera.CommandsWithoutStateChange | cam.py:74-82 | `use`, enrolment and unrecognised commands leave the state unchanged. `use` always analyses. Unrecognised commands do nothing. |
| Camera.CameraState.constructor | cam.py:212 | The agent starts with monitoring off and no baseline. |
| Camera.CameraState.Enable | cam.py:33-36 | Monitoring on, baseline reset to 0. |
| Camera.CameraState.Disable | cam.py:39-41 | Monitoring off, baseline unchanged. |
| Camera.CameraState.Use | cam.py:90-106 | The active flag is unchanged. A periodic use stores the capture size as the baseline. A one-shot use keeps the baseline. The result is "analyse" iff one-shot or the change against the old baseline triggers. |
| Camera.CameraState.Tick | cam.py:214-219 | One loop iteration: the new state and the effect are those of Step on a poll. A disabled camera is not used. |
| Camera.CameraState.Handle | cam.py:62-82 | Handling a command: the new state and the effect are those of Step on that message. |
| Camera.CameraState.Serve | cam.py:198-219 | Handling events one at a time in arrival order: the final state and the effects are those of Trace. |

## Left out

- Camera capture, the S3 uploads, the Rekognition calls and the MQTT client (connect, publish, subscribe) are foreign I/O. Picture sizes and service replies are inputs. An analysis is reported as the `Analyse` effect of `Camera.Step`. The cascade it runs is `AnalysisPipeline.AnalyseImage`. An enrolment is reported as `IndexFace(name)`.
- `index_face` (the enrolment call) is modelled only through the name it is given. Its capture and upload are foreign I/O.
- The reuse of one `BytesIO` buffer without truncation is left out. Only the position after the capture matters to the logic, and it is the size input.
- ChangeDetector.SizeChange: Python computes the ratio in floating point. The model uses exact reals. Floating-point rounding could decide differently for sizes exactly at the 0.005 boundary.
- ChangeDetector.Triggers: off the boundary, and for any baseline below 10^13 bytes (far beyond any JPEG the camera produces), the exact comparison decides as the program's float comparison does. For larger baselines, float rounding can also flip pairs just off the boundary. When 200 × \|current − previous\| equals previous exactly, the program's float comparison can go either way. For example 1000→995 gives a float ratio just above 0.005 and triggers, while 1000→1005 gives one just below and does not. The model never triggers on the boundary.
- ChangeDetector.TriggerExamples: its boundary case 1000→1005 agrees with the program's float result. Boundary pairs in general are covered by the ChangeDetector.Triggers line above.
- The clock: the timestamp of an image key is an input, and the three-second sleep of the loop is not modelled.
- Logging (`print`) and `json.dumps`/`json.loads` are left out. A command arrives as an already decoded JSON object. The persisted record is a map from its keys to the replies.
- CommandRouter.Route: only payloads that decode to a JSON object are modelled. For a JSON string or list, Python's `in` would test substring or element membership instead of key presence.
- Text.Capitalize: only ASCII letters change case. Python also case-maps non-ASCII letters (and title-cases the first one). The model leaves every non-ASCII character unchanged.
- Camera.Serve: a capture, upload or analysis call that raises on the poll path ends the script's main loop, since nothing catches it. In the model an analysis always completes and later events are still handled. What the MQTT client does after the callback raises (`Raise`, or a failing one-shot use or enrolment) is not modelled either.
- AnalysisPipeline.AnalyseImage: a failure of the final upload of the record is not modelled. Only the analysis calls can raise in the model.
- The MQTT callback running concurrently with the loop is left out. Events are handled one at a time. In particular, a command that arrives between subscribing and the line that clears the flag at start-up is not modelled.
- The baseline attribute does not exist in the script until the first `enable`. Nothing reads it before then, so the model starts it at 0.
- Behaviours of the code that a reader might not expect:
  - `capitalize` also lower-cases the rest of the name.
  - The record always holds `Image` as well as `Labels`.
  - When face detection finds no face, the record still holds an empty `FaceDetails`.
  - Celebrity recognition always runs before the known-face search.

# vespCV detection core in Dafny

vespCV watches a camera for Asian hornets (*Vespa velutina*, class label
"vvel"). This project models five of its parts and proves properties of them:

- **Detector** (`src/core/detector.py`). The reducer turns one frame's boxes
  into one decision `{class, confidence, timestamp}`. The frame handler turns
  every failure before the save into "no result"; a failed save still yields
  a result, without an image path. The start/stop/pause/shutdown flags drive the
  background loop, and one pass of that loop is modelled as a step.
- **LedController** (`src/utils/led_controller.py`). The LED indicator the
  window uses. The GUI arms it, a detection switches it on, and it switches off
  after `on_duration`. It drops to simulation mode when a pin write fails.
- **GpioController** (`src/utils/gpio_controller.py`). The alternative
  indicator. It writes the pin before it updates its fields, so a failed write
  leaves the fields as they were.
- **App** (`src/gui/app.py`). The window's bookkeeping without its widgets:
  - the one-shot mail alert (`email_sent` and the button style that serves as
    the "armed" flag);
  - the detection counts and timeline, and the 10-interval histogram;
  - the selection of the four best saved "vvel" images and their `hh:mm:ss`
    labels;
  - the log line and the LED button colour;
  - the start/stop guards.
- **Credentials** (`src/utils/credentials.py`). The line parser for the
  `export EMAIL_USER=` / `export EMAIL_PASS=` file, with its two errors.

Stateful classes are modelled in two layers:

- A value datatype holds the fields. Pure transition functions carry the
  properties, and lemmas relate several operations.
- A Dafny `class` holds the same fields. Its methods update them in place and
  are proved equal to the transition functions.

Pin writes go to a ghost log, `pinWrites`, that records every level the pin
was driven to successfully. Each write takes an argument saying whether it
raises.

Time is an integer input. Confidences are integers on an abstract scale, for
example hundredths. The helper modules are `Wrappers` (`Option`, `Result`) and
`Strings`. `Strings` holds Python's `startswith`, `split(sep)`, `strip()` and
`strip(chars)`.

The model follows the code's behaviour, including points a reader might not
expect:

- Without class 3, the reducer picks the class with the **most boxes**, with
  ties going to the class seen first, not the class with the highest
  confidence.
- The reported confidence is the maximum over **all** surviving boxes, not
  the priority class's own maximum.
- The loop sleeps a flat `capture_interval` after each frame, with no
  compensation for the time the frame took. That sleep is outside the loop's
  error handler, so a negative interval ends the thread.
- `stop()` only sets the pause flag. It does not clean up the indicator.
- `shutdown()` joins the thread without a timeout.
- The window's `is_detecting` flag is not tied to the detector thread: once
  the thread has ended on its own, the flag stays true and START does
  nothing.
- The LED's `handle_detection` sets the detection time again on every
  detection, so repeated detections extend the on period.
- The histogram keeps one counter per `%H:%M` interval label and reads the
  bars back label by label, so intervals that share a label (an interval
  shorter than a minute) share a bar height.

## Model

| member | source | states |
|---|---|---|
| Detector.SurvivingMembers | src/core/detector.py:126-128 | a box takes part exactly when it is in the list and its confidence is strictly above the threshold |
| Detector.Count | src/core/detector.py:135 | a class's count is positive exactly when some surviving box has that class |
| Detector.Classes | src/core/detector.py:135 | the dictionary's keys are exactly the classes that occur among the surviving boxes |
| Detector.MaxConfBounds | src/core/detector.py:124-145 | the running maximum, started at 0, is at least every surviving confidence, and it is either 0 or one of them |
| Detector.Winner | src/core/detector.py:152 | `max(items, key=count)` yields a key, and no key has more boxes |
| Detector.WinnerIsFirstMaximal | src/core/detector.py:152 | every key before the winner in dictionary order has strictly fewer boxes |
| Detector.HasUnnamedClassIff | src/core/detector.py:134 | the class-name lookup raises exactly when some surviving box has a class id missing from the table |
| Detector.Decide | src/core/detector.py:120-163 | no decision exactly when a lookup raises; the decision carries the given timestamp; "no_detection" with confidence 0 when nothing survives; otherwise the confidence is the maximum over the survivors |
| Detector.TallyStep | src/core/detector.py:133-145 | one loop body keeps the dictionary, its key order, the class-3 flag and the maximum equal to their specifications |
| Detector.CountBoxes | src/core/detector.py:122-145 | the box loop stops exactly when a lookup raises; otherwise its counts, key order, class-3 flag and maximum are those of the surviving boxes |
| Detector.MostDetected | src/core/detector.py:152 | the scan over the dictionary returns the first key of maximal count |
| Detector.ProcessDetections | src/core/detector.py:120-163 | the imperative reducer returns exactly the specified decision |
| Detector.SurvivingSkipsWeakBox | src/core/detector.py:128 | a box at or below the threshold, at any position, leaves the surviving boxes unchanged |
| Detector.WeakBoxIgnored | src/core/detector.py:128 | a box at or below the threshold, at any position, leaves the decision unchanged |
| Detector.PriorityClassOverrides | src/core/detector.py:143-150 | a surviving class-3 box forces the label "vvel", with the overall maximum confidence, whatever the other classes |
| Detector.ClassesInFirstSeenOrder | src/core/detector.py:135 | the dictionary's key order is the order in which the classes first occur |
| Detector.TieGoesToFirstSeen | src/core/detector.py:152 | among classes with as many boxes as the winner, the winner occurs first |
| Detector.MostFrequentClassWins | src/core/detector.py:148-154 | without class 3, the label names a class with the most surviving boxes, the first seen among ties, and the confidence is the overall maximum |
| Detector.ConfidenceIsGlobalMaximum | src/core/detector.py:142-154 | the reported confidence bounds every surviving box of any class and, for a non-negative threshold, equals one of them |
| Detector.CountBeatsConfidence | src/core/detector.py:145-154 | a concrete frame where two boxes of one class beat one box of higher confidence, while the confidence reported is the other class's |
| Detector.ProcessSingleFrame | src/core/detector.py:85-118 | a result exactly when capture, existence, loading and inference succeed and no lookup raises; the result carries the decision and the saved path |
| Detector.NoDetectionStillEmitted | src/core/detector.py:104-114 | a frame where nothing survives still yields a result, the "no_detection" decision |
| Detector.StartFlags | src/core/detector.py:47-57 | `start` leaves a live, unpaused thread; a fresh one with stop cleared when none was alive; otherwise stop is untouched |
| Detector.StopFlags | src/core/detector.py:59-62 | `stop` sets pause and changes nothing else |
| Detector.ShutdownFlags | src/core/detector.py:182-187 | `shutdown` sets stop and leaves no live thread, finished when one existed |
| Detector.StopThenStartResumes | src/core/detector.py:47-62 | stop then start on a live thread is a resume: the same flags with pause cleared, and running |
| Detector.ShutdownThenStartRestarts | src/core/detector.py:47-66 | after shutdown nothing runs, and start then creates a fresh thread with both flags cleared |
| Detector.Step | src/core/detector.py:68-83 | a pass exits exactly when stop is set; it pauses exactly when pause is set and stop is not; otherwise it processes one frame |
| Detector.SleepAfter | src/core/detector.py:70-83 | the loop sleeps the pause tick (0.1 s) while paused and the configured interval, unadjusted, after a frame; nothing when the pass ends the thread |
| Detector.DetectionController.constructor | src/core/detector.py:17-26 | no thread, both flags clear |
| Detector.DetectionController.Start | src/core/detector.py:47-57 | the flags become those of `start`; a thread is created exactly when none was alive |
| Detector.DetectionController.Stop | src/core/detector.py:59-62 | the flags become those of `stop` |
| Detector.DetectionController.IsRunningNow | src/core/detector.py:64-66 | true exactly when the thread is alive and pause is not set |
| Detector.DetectionController.Shutdown | src/core/detector.py:182-187 | the flags become those of `shutdown` |
| Detector.DetectionController.LoopPass | src/core/detector.py:68-83 | one pass of the live thread emits the frame's result, if any, and sleeps as specified; the thread ends exactly when stop is set or when a frame was processed and the interval is negative, since that sleep raises outside the handler |
| LedController.Init | src/utils/led_controller.py:19-53 | disarmed and off at time 0; simulation exactly when requested or the library is missing; no controller exactly when the real set-up raises |
| LedController.TurnOn | src/utils/led_controller.py:83-100 | keeps the invariant; on exactly when armed; HIGH only when armed, off and not simulating; raises only on the disarmed LOW write on real hardware; a failed HIGH switches to simulation |
| LedController.TurnOff | src/utils/led_controller.py:102-116 | never raises; afterwards off; LOW is written exactly when it was on or disarmed and not simulating; a failed write switches to simulation |
| LedController.SetEnabled | src/utils/led_controller.py:55-60 | stores the flag; disarming leaves the LED off; arming changes nothing else |
| LedController.HandleDetection | src/utils/led_controller.py:62-70 | nothing while disarmed; otherwise on with the detection time set to now; keeps the invariant |
| LedController.CheckAndTurnOff | src/utils/led_controller.py:72-81 | keeps the invariant; afterwards on only if less than the on period has passed; armed and not due, nothing changes |
| LedController.Cleanup | src/utils/led_controller.py:118-129 | off and disarmed; the time and the simulation flag are kept |
| LedController.ApplyKeepsValid | src/utils/led_controller.py:55-129 | every public operation keeps "on implies armed" and never leaves simulation |
| LedController.RunKeepsValid | src/utils/led_controller.py:55-129 | along any sequence of operations the invariant holds and simulation, once entered, stays |
| LedController.HighOnlyWhenArmedOffReal | src/utils/led_controller.py:83-100 | any operation writes HIGH only when armed, off and not simulating, and a failed HIGH switches to simulation |
| LedController.CleanupIdempotent | src/utils/led_controller.py:118-129 | cleanup twice equals cleanup once |
| LedController.ArmingKeepsLedState | src/utils/led_controller.py:55-60 | arming does not change whether the LED is on; after disarming the status is off |
| LedController.DetectionThenCheck | src/utils/led_controller.py:62-81 | after a detection at t, a check before t + on period leaves the status on, and a check at or after it turns the LED off |
| LedController.LEDController.constructor | src/utils/led_controller.py:19-36 | the fields are those of the initial state, which satisfies the invariant |
| LedController.LEDController.TurnOnNow | src/utils/led_controller.py:83-100 | the fields, the raise and the pin log follow `TurnOn`; the invariant is kept |
| LedController.LEDController.TurnOffNow | src/utils/led_controller.py:102-116 | the fields and the pin log follow `TurnOff`; afterwards the invariant holds, even when called while on and disarmed |
| LedController.LEDController.SetEnabledNow | src/utils/led_controller.py:55-60 | the fields and the pin log follow `SetEnabled`; the invariant is kept |
| LedController.LEDController.HandleDetectionNow | src/utils/led_controller.py:62-70 | the fields and the pin log follow `HandleDetection`; the invariant is kept |
| LedController.LEDController.CheckAndTurnOffNow | src/utils/led_controller.py:72-81 | the fields and the pin log follow `CheckAndTurnOff`; the invariant is kept |
| LedController.LEDController.CleanupNow | src/utils/led_controller.py:118-129 | the fields follow `Cleanup`, and no level is driven; the invariant is kept |
| LedController.LEDController.GetStatus | src/utils/led_controller.py:131-135 | on and armed |
| GpioController.Write | src/utils/gpio_controller.py:65-66 | a level is written exactly when the library is available |
| GpioController.Init | src/utils/gpio_controller.py:23-50 | disarmed and off at time 0; no controller exactly when the set-up with the library raises |
| GpioController.TurnOn | src/utils/gpio_controller.py:59-71 | nothing while disarmed; otherwise HIGH is attempted, and unless it raises the output is on with the time set to now; a raise changes nothing |
| GpioController.TurnOff | src/utils/gpio_controller.py:73-81 | LOW is attempted whatever the armed flag; unless it raises the output is off; a raise changes nothing |
| GpioController.SetEnabled | src/utils/gpio_controller.py:52-57 | stores the flag; disarming turns the output off unless the write raises; arming writes nothing |
| GpioController.CheckAndTurnOff | src/utils/gpio_controller.py:89-92 | turns off exactly when on and at least the on period has passed, whatever the armed flag, attempting LOW; a raising write changes nothing; otherwise nothing |
| GpioController.HandleDetection | src/utils/gpio_controller.py:94-97 | nothing while disarmed; when armed, exactly `turn_on`; when armed and the write succeeds, the status is on exactly when the on period is positive |
| GpioController.Cleanup | src/utils/gpio_controller.py:99-107 | never touches the armed flag; with the library it attempts LOW and turns off unless the write raises, in which case nothing changes; without it nothing happens |
| GpioController.CheckKeepsStatus | src/utils/gpio_controller.py:83-92 | the automatic switch-off never changes what `get_status` reports |
| GpioController.StatusExpiresByItself | src/utils/gpio_controller.py:83-87 | once the period is over, the status reads off before any switch-off |
| GpioController.RetriggerRefreshes | src/utils/gpio_controller.py:59-71 | a second detection while on restarts the period from the new time |
| GpioController.DisarmedYetOn | src/utils/gpio_controller.py:52-92 | a disarm whose write raises leaves the output on while disarmed; the status reads off; the next due switch-off still turns it off |
| GpioController.GPIOController.constructor | src/utils/gpio_controller.py:23-35 | the fields are those of the initial state |
| GpioController.GPIOController.TurnOnNow | src/utils/gpio_controller.py:59-71 | the fields and the pin log follow `TurnOn` |
| GpioController.GPIOController.TurnOffNow | src/utils/gpio_controller.py:73-81 | the fields and the pin log follow `TurnOff` |
| GpioController.GPIOController.SetEnabledNow | src/utils/gpio_controller.py:52-57 | the fields and the pin log follow `SetEnabled` |
| GpioController.GPIOController.GetStatus | src/utils/gpio_controller.py:83-87 | armed, on and less than the on period since the on time |
| GpioController.GPIOController.CheckAndTurnOffNow | src/utils/gpio_controller.py:89-92 | the fields and the pin log follow `CheckAndTurnOff` |
| GpioController.GPIOController.HandleDetectionNow | src/utils/gpio_controller.py:94-97 | the fields and the pin log follow `HandleDetection` |
| GpioController.GPIOController.CleanupNow | src/utils/gpio_controller.py:99-107 | the fields and the pin log follow `Cleanup` |
| App.ToggleMailAlert | src/gui/app.py:740-750 | once a mail is sent nothing changes; before that gray and blue swap |
| App.MailOnResult | src/gui/app.py:399-419 | a send is attempted exactly for "vvel" while unsent and armed; only a send returning True latches `email_sent` and turns the button gray; False or a raise changes nothing |
| App.EmailSentStays | src/gui/app.py:399-419 | once `email_sent` is set, no click or result changes the alert and no send succeeds |
| App.AtMostOneSend | src/gui/app.py:399-419 | over any clicks, results and outcomes at most one send succeeds, and after it the latch is set |
| App.ToggleTwice | src/gui/app.py:740-750 | two clicks before any send give the alert back |
| App.UpdateCharts | src/gui/app.py:423-441 | an empty class changes nothing; otherwise one timeline entry is appended; the class's count rises by one unless it is "no_detection"; other counts are unchanged |
| App.UpdateChartsKeepsCharted | src/gui/app.py:423-441 | the counts stay equal to the timeline's per-class numbers, "no_detection" uncounted |
| App.BucketFrom | src/gui/app.py:565-582 | the inner scan finds the first interval that holds the time, or none |
| App.BucketsPartition | src/gui/app.py:559-582 | for increasing starts a time is in no interval exactly when before the first, and otherwise in exactly the one the scan finds |
| App.Tally | src/gui/app.py:544-590 | each series has one bar per interval label, and intervals with the same label have the same bar |
| App.CountersAreHits | src/gui/app.py:549-583 | each per-label counter holds exactly the entries of its series whose time falls in an interval with that label |
| App.TallyCounts | src/gui/app.py:544-590 | bar i of a series is the number of entries of that series whose interval carries the label of interval i |
| App.SharedLabelRaisesBothBars | src/gui/app.py:538-586 | two intervals with one label share a counter: a single "other" detection raises both bars |
| App.NoDetectionAddsNothing | src/gui/app.py:560 | appending a "no_detection" entry leaves both series unchanged |
| App.TallyBounded | src/gui/app.py:559-586 | with distinct labels, the two series together count at most the timeline's detections |
| App.Histogram | src/gui/app.py:544-590 | the nested loop with its `break`, counting into per-label maps read back by label, yields exactly the specified bars of both series |
| App.EligibleFiles | src/gui/app.py:235-241 | a file is kept exactly when it starts with "vvel" and has at least four '-'-parts |
| App.HasBadConfidenceIff | src/gui/app.py:239-242 | the section raises exactly when some kept file's confidence text fails to parse |
| App.ImageData | src/gui/app.py:238-244 | no list exactly when a parse fails |
| App.ImageDataEntries | src/gui/app.py:238-244 | the list holds the kept files in listing order, each with its parsed confidence and time part |
| App.BuildImageData | src/gui/app.py:238-244 | the loop yields exactly that list, or the raise |
| App.InsertByConfidence | src/gui/app.py:247 | one insertion step adds exactly the new entry |
| App.InsertKeepsOrder | src/gui/app.py:247 | inserting into a list ordered by non-increasing confidence keeps it ordered |
| App.SortByConfidence | src/gui/app.py:247 | the sorted list is a permutation ordered by non-increasing confidence |
| App.TakeTop | src/gui/app.py:248-251 | `[:4]` keeps the first min(n, 4) entries, an ordered list stays ordered, and placeholders fill up to 4 |
| App.SelectSaved | src/gui/app.py:235-251 | none exactly on a failed parse; otherwise at most 4 entries, sorted, min(kept, 4) of them, with placeholders filling up to 4 |
| App.TopIsSortedPrefix | src/gui/app.py:247-248 | the shown entries are the first ones of the sorted list |
| App.TopFromKept | src/gui/app.py:247-248 | the shown entries are drawn from the kept files |
| App.TopAreBest | src/gui/app.py:246-248 | no kept file left out has a higher confidence than a shown one |
| App.CreateSavedDetections | src/gui/app.py:235-251 | the section's loop, sort and slice yield exactly the specified selection |
| App.FormatTime | src/gui/app.py:307-311 | six characters become `hh:mm:ss`, and removing the colons gives them back; anything else is shown as it is |
| App.LogEntry | src/gui/app.py:378-386 | the line starts with the timestamp and " - " and ends with a newline; it is the "No detections" line exactly for "no_detection"; any other line reads back the class after "Class: " and the confidence after ", Confidence: ", up to the newline |
| App.LedButtonStyle | src/gui/app.py:689-696 | yellow exactly when the status is on; red exactly when off and armed; gray exactly when off and disarmed |
| App.LedButtonShowsController | src/gui/app.py:689-696 | for a valid LED state: yellow exactly when lit, red when armed and dark, gray when disarmed |
| App.VespcvGui.constructor | src/gui/app.py:119-128 | `email_sent` false, no counts or timeline, and detection started on launch with a fresh thread, so `is_detecting` agrees with the detector |
| App.VespcvGui.StartDetection | src/gui/app.py:338-343 | detection is marked running; the detector is started only when it was not marked running, so a detector whose thread has ended stays stopped; agreement of `is_detecting` with the detector is kept once it holds |
| App.VespcvGui.StopDetection | src/gui/app.py:345-350 | detection is marked stopped; the detector is paused only when it was marked running; agreement of `is_detecting` with the detector is kept once it holds |
| App.ThreadEndedStartDoesNothing | src/gui/app.py:338-343 | with a negative capture interval the first detector pass ends the thread; `is_detecting` stays true, START then does nothing, and detection does not run |
| App.VespcvGui.ToggleMailAlertNow | src/gui/app.py:740-750 | the alert follows `toggle_mail_alert`; nothing else changes |
| App.VespcvGui.UpdateChartsNow | src/gui/app.py:423-441 | the counts and timeline follow `_update_charts` and stay consistent |
| App.VespcvGui.MailOnResultNow | src/gui/app.py:399-419 | the alert follows the mail branch; a send is attempted exactly when the branch wants one |
| App.VespcvGui.UpdateGuiWithResult | src/gui/app.py:357-421 | one log line, the chart update, and, unless the saved-detection refresh raises, the mail branch; `is_detecting` and the detector are untouched, whether or not the detector still runs |
| Credentials.Value | src/utils/credentials.py:16-18 | the value never starts or ends with '"' |
| Credentials.ValueAfterPrefix | src/utils/credentials.py:15-18 | for a prefixed line, `split('=')[1]` is the text after the prefix up to the next '=' |
| Credentials.ValueInsideLine | src/utils/credentials.py:16-18 | the value is a slice of the line after its prefix and holds no '=', so anything after a second '=' is dropped |
| Strings.StripIsMiddle | src/utils/credentials.py:16 | `strip` keeps a middle slice of the text and removes only characters it was asked to drop |
| Strings.StrippedSecondPiece | src/utils/credentials.py:16 | when `split(sep)[1]` is the first piece after a given position, that piece stripped twice is a slice of the string after that position, free of the separator |
| Credentials.Scan | src/utils/credentials.py:13-18 | the line the user is read from starts with the user prefix, and the line the password is read from starts with the password prefix; with no line of a prefix, that value is absent |
| Credentials.ValueOf | src/utils/credentials.py:16-18 | a value exists exactly when a line was taken for it, and it is unquoted |
| Credentials.Check | src/utils/credentials.py:20-23 | success exactly when both values are present and non-empty, returning them unchanged; otherwise the missing-credentials error |
| Credentials.GetEmailCredentials | src/utils/credentials.py:7-23 | a missing file is FileNotFound; otherwise success exactly when both values are present and non-empty, else the missing-credentials error; both returned values are non-empty and unquoted |
| Credentials.LastUserLineWins | src/utils/credentials.py:13-16 | the user is read from the last line with the user prefix |
| Credentials.LastPasswordLineWins | src/utils/credentials.py:13-18 | the password is read from the last line with the password prefix |
| Credentials.PrefixesExclusive | src/utils/credentials.py:15-17 | no line has both prefixes, so no line sets both values |
| Credentials.OtherLinesIgnored | src/utils/credentials.py:13-18 | a line with neither prefix changes nothing |
| Credentials.ReadValue | src/utils/credentials.py:16-18 | the statement that reads one value computes exactly `Value` of its line |
| Credentials.ReadCredentials | src/utils/credentials.py:7-23 | the loop and the final checks return exactly the specified result |

## Left out

- Threads, `Event` objects, `time.sleep` and `thread.join`: the thread is a flag (none / alive / finished), one loop pass is `LoopPass`, and the sleeps are returned durations.
- Camera capture, YOLO inference, OpenCV drawing, reading and saving images: their outcomes are the fields of `FrameSource`.
- Clocks: every `time.time()` and `strftime` is a parameter.
- Float confidences, the `:.2f` formatting and `float(parts[1])`: confidences are integers; the file-name parse is a function parameter returning None where `float` raises.
- The `HH:MM` label construction with `strftime`: the interval labels, their parse (`at`) and the timestamp parse (`instant`) are inputs. `instant` is total, so a malformed timestamp, on which `strptime` raises and the whole chart redraw is skipped (now and on every later redraw, since the entry stays on the timeline), is not modelled; the detector always emits the expected format.
- Mail sending (SMTP and MIME): each send is an outcome parameter (`Sent`, `NotSent`, `SendRaised`).
- Logging, the Tk widgets, `after` scheduling, the live-feed image, thumbnails and message boxes.
- `on_mail_button_click`: it calls a detector method that does not exist.
- `GPIOController._lock`: it is never acquired.
- The wiring between components, which is inconsistent in the code: the detector is built with two arguments but takes one, the window reads `annotated_path` while the detector emits `image_path`, and nothing calls `handle_detection`. Each component is modelled on its own.
- Configuration loading, the logger module, the capture and annotation utilities and the hardware test scripts.
- Detector.Decide: the class-name table is a map, so a missing id is a failed lookup; the table's own type in the configuration is not modelled.
- App.UpdateGuiWithResult: a missing key of the detection dictionary reads as the empty string, and the live-feed update at the start is not modelled.
- App.SortByConfidence: Python's sort is stable; the contract states the permutation and the order, not the stability (the insertion places an entry after those of equal confidence, but this is not proved).
- App.TallyBounded: the bound on the bar total holds only for distinct labels; with a repeated label one detection raises several bars (`SharedLabelRaisesBothBars`).
- LedController.LEDController.CleanupNow: the library's `GPIO.cleanup()` is not a pin level, so it does not appear in the pin log.
- GpioController.GPIOController.CleanupNow: the pin release `GPIO.cleanup(pin)` after the switch-off is not modelled.
- Detector.DetectionController.LoopPass: the interval is an integer number of milliseconds, so of the intervals that make the sleep raise and end the thread only a negative one is modelled; a missing or non-numeric `capture_interval` is not.
- Credentials.GetEmailCredentials: the file's path and its existence check are an Option over its lines.

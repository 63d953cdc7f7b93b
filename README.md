# Bicep-curl rep counter: a verified model of the counting state

The application shows a webcam feed and counts bicep-curl repetitions. While
counting is enabled, each timer tick reads a frame of its own, labels it with a
classifier (1 for an extended arm, 2 for a contracted arm, anything else for
neither) and hands the label on; the frame shown on screen is not the one
classified. The label drives a small state machine held in fields of the `App`
object:

- two latches, `extended` and `contracted`, set when the matching pose is seen;
- `last_prediction`, so that a label only acts when it differs from the last
  pose label that acted (edge-triggered rather than level-triggered);
- `rep_counter`, raised by one, and both latches cleared, whenever both latches
  are set at the end of the label handling (the completion check runs on every
  tick, whether counting is enabled or not);
- `counting_enabled`, the gate flipped by the "Toggle Counting" button.

The "Reset" button zeroes `rep_counter` only. The "Extended" and "Contracted"
buttons save the current frame as a training sample of class 1 or 2; each class
has a counter, starting at 1, that numbers the saved frames.

The model has three modules:

- `RepCounter` (`rep_counter.dfy`): the counter state as a value
  `CounterState`, one function per operation (`Predict`, `CompleteRep`, `Step`
  for a whole tick, `Reset`, `Toggle`), runs of ticks (`Run`), arbitrary traces
  of ticks and button presses (`Replay`), the invariant `Coherent`, and a
  reference count of pose changes (`Changes`) against which the number of reps
  is proved.
- `TrainingSamples` (`training_samples.dfy`): the sample-counter bookkeeping as
  functions on a two-element sequence, and the frame number each save uses.
- `FitnessApp` (`app.dfy`): the class `App` with the same mutable fields, the
  sample counters as an `array<int>` of length 2, and the methods `Tick`,
  `CountingToggle`, `Reset` and `SaveForClass`, each proved to change the
  fields exactly as the matching function of the first two modules says.
  `Valid()` is the object invariant: `Coherent` on the counter fields, and the
  array equal to the counters that the saves made so far (held in the ghost
  field `saves`) give.

`FitnessApp.ClientSession` has no counterpart in the code: it is a usage
check that builds an `App` and shows what a caller can conclude from the
contracts of its methods alone.

Two details of the code that the model keeps as written:

- a label other than 1 or 2 leaves `last_prediction` unchanged
  (`Fitness/app.py:91-97`); only a pose label becomes the new last label;
- the tick does not require counting to be enabled: the label handling is
  skipped while counting is off, and the completion check still runs
  (`Fitness/app.py:68-74`). From a reachable state such a paused tick changes
  nothing (`RunWhileDisabled`).

## Model

| member | source | states |
|---|---|---|
| RepCounter.Initial | Fitness/app.py:20-29 | the start state: both latches false, last label 0, no reps, counting off |
| RepCounter.Predict | Fitness/app.py:86-97 | a label equal to the last one, or a label that is neither pose, changes nothing; the last label becomes the prediction exactly when it is a pose; a new pose sets its own latch and leaves the other; latches are only ever set; count and gate are untouched |
| RepCounter.CompleteRep | Fitness/app.py:72-74 | when both latches were set, both are cleared; afterwards the latches are never both set; the count rises by one exactly when both were set; last label and gate are untouched; with not both latches set nothing changes |
| RepCounter.Step | Fitness/app.py:68-74 | after a tick the latches are never both set; the count rises by 0 or 1, by 1 exactly when the (gated) label handling left both latches set, and then both are clear; the gate is unchanged; with counting off and not both latches set the tick changes nothing; `Coherent` is preserved |
| RepCounter.Reset | Fitness/app.py:120-121 | the count becomes 0; latches, last label and gate are kept |
| RepCounter.Toggle | Fitness/app.py:99-100 | the gate is flipped; latches, last label and count are kept |
| RepCounter.StepIdempotent | Fitness/app.py:91 | two ticks with the same label have the effect of one |
| RepCounter.RepeatedLabelIsIdempotent | Fitness/app.py:91 | after any run, repeating its last label is a no-op |
| RepCounter.ResetIdempotent | Fitness/app.py:120-121 | resetting twice is resetting once |
| RepCounter.ToggleTwiceRestores | Fitness/app.py:99-100 | toggling twice restores the state |
| RepCounter.EventPreservesCoherent | Fitness/app.py:68-100 | a tick, a toggle or a reset keeps the invariant: latches not both set, a set latch matches the last label, last label in {0, 1, 2} |
| RepCounter.RunCounterBounds | Fitness/app.py:72-74 | over n ticks the count never decreases and rises by at most n; the gate is unchanged |
| RepCounter.RunPreservesCoherent | Fitness/app.py:68-97 | any run of ticks keeps the invariant |
| RepCounter.RunWhileDisabled | Fitness/app.py:69-74 | with counting off and not both latches set, any run of ticks leaves the whole state unchanged |
| RepCounter.StepCountsChange | Fitness/app.py:68-97 | with counting on, one tick either starts a rep or completes the half-seen one exactly when the label is a pose different from the last label |
| RepCounter.RunCountsChanges | Fitness/app.py:68-97 | with counting on, a run adds (half-seen rep + number of pose changes) / 2 reps, leaves a half-seen rep exactly when that sum is odd, and ends with the last pose label reported |
| RepCounter.CountFromStart | Fitness/app.py:20-29 | from start-up with counting switched on, the count is half the number of pose changes reported |
| RepCounter.ReplayPreservesCoherent | Fitness/app.py:68-121 | any trace of ticks, toggles and resets keeps the invariant |
| RepCounter.ReachablePreservesCoherent | Fitness/app.py:20-29 | every state reachable from start-up satisfies the invariant |
| RepCounter.ReplayWithoutResetMonotone | Fitness/app.py:68-121 | without a reset in the trace, the count never decreases |
| RepCounter.ExtendedThenContracted | Fitness/app.py:91-97 | from start-up with counting on, labels 1 then 2 give one rep, both latches clear, last label 2 |
| RepCounter.ContractedThenExtended | Fitness/app.py:91-97 | labels 2 then 1 also give one rep, both latches clear, last label 1 |
| RepCounter.RepeatedExtendedCountsOnce | Fitness/app.py:91 | labels 1, 1, 2 give one rep |
| RepCounter.ResetAfterThreeReps | Fitness/app.py:120-121 | three reps, a reset, then labels 1, 2 give a count of 1 |
| RepCounter.HalfRepSurvivesReset | Fitness/app.py:120-121 | a label 1, a reset, then a label 2 count one rep: the reset keeps the half-seen rep |
| TrainingSamples.InitialCounters | Fitness/app.py:19 | both sample counters start at 1 |
| TrainingSamples.Bump | Fitness/app.py:118 | saving a sample of class k raises counter k by one and leaves the other |
| TrainingSamples.CountersCountSamples | Fitness/app.py:19-118 | counter k is always one more than the number of class-k samples saved |
| TrainingSamples.CountersStayPositive | Fitness/app.py:19-118 | both counters stay at least 1 |
| TrainingSamples.FrameNumbersDistinct | Fitness/app.py:111-118 | the n-th sample of a class is stored as frame n, so two saves of one class never share a frame number |
| FitnessApp.App.constructor | Fitness/app.py:19-29 | the fields hold the start state, the counters array is fresh and holds [1, 1], and the invariant holds |
| FitnessApp.App.Tick | Fitness/app.py:68-97 | the fields change as `Step` says; the latches are not both set afterwards; the count rises by 0 or 1; the gate is kept; with counting off nothing changes; the invariant is kept |
| FitnessApp.App.CountingToggle | Fitness/app.py:99-100 | the fields change as `Toggle` says |
| FitnessApp.App.Reset | Fitness/app.py:120-121 | the fields change as `Reset` says: the count is 0, everything else is kept |
| FitnessApp.App.SaveForClass | Fitness/app.py:103-118 | counters[k-1] rises by one, the other counter and the rep-counter fields are kept, both counters stay at least 1, and the frame number returned is the old counter, one more than the samples of class k saved before |

## Left out

- The window, canvas, buttons and the label that shows the count
  (`Fitness/app.py:44-66`, `76`): user interface.
- Camera frames (`Fitness/app.py:78-81`, `87`, `104`): device I/O from the
  `camera` module, which is not part of this model.
- The classifier (`model.predict`, `model.train_model`, `Fitness/app.py:27`,
  `58`, `88`): the `model` module is not part of this model; the label it
  returns is the `prediction` parameter of `Tick`.
- The self-rescheduling timer (`Fitness/app.py:83`, and the first `update` call
  at line 36): modelled as repeated calls of `Tick` (`Run`, `Replay`), not as a
  scheduler. The constructor models the field initialisation only.
- Folder creation, image conversion, writing, resizing and re-saving in
  `save_for_class` (`Fitness/app.py:105-116`): file and image I/O. Only the
  counter update and the frame number used in the file name are modelled.
- FitnessApp.App.Tick: assumes that reading the camera frame and asking the
  classifier (`Fitness/app.py:87-88`) always return. In the code an exception
  there leaves `update` before the completion check (line 72) and before the
  re-scheduling (line 83), so no further tick would run; the model does not
  capture that stop. `RepCounter.Run` and `RepCounter.Replay` make the same
  assumption.
- FitnessApp.App.Valid: assumes that `model.train_model(self.counters)`
  (`Fitness/app.py:58`) does not change the list it is given. It receives the
  list itself, and the `model` module is not part of this model, so the tie
  between the array and the saves made so far holds only under that assumption.
- FitnessApp.App.SaveForClass: assumes that the frame capture and file
  handling of `Fitness/app.py:104-116` return. In the code the counter is only
  raised at line 118 after them: if the camera gives no frame, `cv2.cvtColor`
  raises at line 111; if opening or resizing the image raises at lines
  114-115, the full-size file has already been written at line 111. After
  such a failed save the counter is unchanged, and the next save of that
  class reuses its frame number and overwrites the file, so
  `TrainingSamples.FrameNumbersDistinct` speaks only of saves that completed.
- FitnessApp.App.SaveForClass: requires the class to be 1 or 2, the only
  values the two buttons pass (`Fitness/app.py:51`, `54`). For a class of 3 or
  more, `self.counters[class_num - 1]` raises IndexError at line 111 before any
  file is written; 0 and -1 would reach an existing counter through Python's
  negative indexing and then depend on folders `0` or `-1`, which the code does
  not create. None of these calls is modelled.

/** The rep-counting state machine of the bicep-curl counter, on values.
    A rep is counted when the classifier has reported both an extended and a
    contracted arm since the last counted rep; labels are taken into account
    only when they differ from the last label taken into account. */
module RepCounter {

  /** Classifier labels for an extended and a contracted arm. */
  const Extended: int := 1
  const Contracted: int := 2

  predicate IsPose(prediction: int) {
    prediction == Extended || prediction == Contracted
  }

  /** The fields of the application that the rep counter reads and writes. */
  datatype CounterState = CounterState(
    extended: bool,         // latch: an extended arm was seen since the last rep
    contracted: bool,       // latch: a contracted arm was seen since the last rep
    lastPrediction: int,    // the last label that changed a latch
    repCounter: nat,        // the number of reps counted
    countingEnabled: bool)  // whether labels are taken into account at all

  /** The state the application starts in: no latch set, no label seen,
      no rep counted, counting switched off. */
  function Initial(): (s: CounterState)
    ensures !s.extended && !s.contracted && s.lastPrediction == 0
    ensures s.repCounter == 0 && !s.countingEnabled
  {
    CounterState(false, false, 0, 0, false)
  }

  /** The invariant every reachable state keeps: the two latches are never
      both set between ticks, a set latch belongs to the last label, and
      the last label is "none yet" (0) or one of the two poses. */
  predicate Coherent(s: CounterState) {
    && !(s.extended && s.contracted)
    && (s.extended ==> s.lastPrediction == Extended)
    && (s.contracted ==> s.lastPrediction == Contracted)
    && (s.lastPrediction == 0 || IsPose(s.lastPrediction))
  }

  /** 1 when half of a rep has been seen (one latch set), 0 otherwise. */
  function Pending(s: CounterState): nat {
    if s.extended || s.contracted then 1 else 0
  }

  /** The label handling of one classifier prediction. */
  function Predict(s: CounterState, prediction: int): (r: CounterState)
    // edge-triggered: repeating the last label changes nothing
    ensures prediction == s.lastPrediction ==> r == s
    // a label that is neither pose changes nothing, not even the last label
    ensures !IsPose(prediction) ==> r == s
    // the last label becomes the prediction exactly when it is a pose
    ensures r.lastPrediction == if IsPose(prediction) then prediction else s.lastPrediction
    // a new extended label sets its latch and leaves the other one alone
    ensures prediction == Extended && s.lastPrediction != Extended ==>
      r.extended && r.contracted == s.contracted
    ensures prediction == Contracted && s.lastPrediction != Contracted ==>
      r.contracted && r.extended == s.extended
    // latches are only ever set here, and nothing else is touched
    ensures (s.extended ==> r.extended) && (s.contracted ==> r.contracted)
    ensures r.repCounter == s.repCounter && r.countingEnabled == s.countingEnabled
  {
    if prediction != s.lastPrediction then
      if prediction == Extended then s.(extended := true, lastPrediction := Extended)
      else if prediction == Contracted then s.(contracted := true, lastPrediction := Contracted)
      else s
    else s
  }

  /** The completion check: both latches set means one more rep. */
  function CompleteRep(s: CounterState): (r: CounterState)
    ensures !(r.extended && r.contracted)
    ensures s.extended && s.contracted ==> !r.extended && !r.contracted
    ensures r.repCounter == s.repCounter + (if s.extended && s.contracted then 1 else 0)
    ensures r.lastPrediction == s.lastPrediction && r.countingEnabled == s.countingEnabled
    ensures !(s.extended && s.contracted) ==> r == s
  {
    if s.extended && s.contracted then
      s.(extended := false, contracted := false, repCounter := s.repCounter + 1)
    else s
  }

  /** One timer tick: the prediction is handled only while counting is
      enabled, the completion check runs on every tick. */
  function Step(s: CounterState, prediction: int): (r: CounterState)
    ensures !(r.extended && r.contracted)
    ensures s.repCounter <= r.repCounter <= s.repCounter + 1
    // the count rises exactly when the tick leaves both latches set before the check
    ensures r.repCounter == s.repCounter + 1 <==>
      var seen := if s.countingEnabled then Predict(s, prediction) else s;
      seen.extended && seen.contracted
    ensures r.repCounter == s.repCounter + 1 ==> !r.extended && !r.contracted
    ensures r.countingEnabled == s.countingEnabled
    // paused counting freezes the state
    ensures !s.countingEnabled && !(s.extended && s.contracted) ==> r == s
    ensures Coherent(s) ==> Coherent(r)
  {
    CompleteRep(if s.countingEnabled then Predict(s, prediction) else s)
  }

  /** The reset button: only the visible counter is zeroed. */
  function Reset(s: CounterState): (r: CounterState)
    ensures r.repCounter == 0
    ensures r.extended == s.extended && r.contracted == s.contracted
    ensures r.lastPrediction == s.lastPrediction && r.countingEnabled == s.countingEnabled
  {
    s.(repCounter := 0)
  }

  /** The toggle button: only the gate is flipped. */
  function Toggle(s: CounterState): (r: CounterState)
    ensures r.countingEnabled == !s.countingEnabled
    ensures r.extended == s.extended && r.contracted == s.contracted
    ensures r.lastPrediction == s.lastPrediction && r.repCounter == s.repCounter
  {
    s.(countingEnabled := !s.countingEnabled)
  }

  /** A sequence of timer ticks, one per prediction. */
  function Run(s: CounterState, predictions: seq<int>): CounterState
    decreases |predictions|
  {
    if predictions == [] then s
    else Run(Step(s, predictions[0]), predictions[1..])
  }

  /** Everything the rest of the application does to the counter state. */
  datatype Event = TickWith(prediction: int) | ToggleCounting | ResetCounter

  function Apply(s: CounterState, e: Event): CounterState {
    match e
    case TickWith(p) => Step(s, p)
    case ToggleCounting => Toggle(s)
    case ResetCounter => Reset(s)
  }

  function Replay(s: CounterState, events: seq<Event>): CounterState
    decreases |events|
  {
    if events == [] then s
    else Replay(Apply(s, events[0]), events[1..])
  }

  /** Reference definition of the number of pose changes the classifier
      reports: a pose label that differs from the last pose label seen. */
  function Changes(last: int, predictions: seq<int>): nat
    decreases |predictions|
  {
    if predictions == [] then 0
    else if IsPose(predictions[0]) && predictions[0] != last then
      1 + Changes(predictions[0], predictions[1..])
    else Changes(last, predictions[1..])
  }

  /** The last pose label among the predictions, or `last` if there is none. */
  function LastPose(last: int, predictions: seq<int>): int
    decreases |predictions|
  {
    if predictions == [] then last
    else LastPose(if IsPose(predictions[0]) then predictions[0] else last, predictions[1..])
  }

  // ---------------------------------------------------------------- one tick

  /** A label reported twice in a row has the effect of reporting it once. */
  lemma StepIdempotent(s: CounterState, prediction: int)
    ensures Step(Step(s, prediction), prediction) == Step(s, prediction)
  {
  }

  lemma ResetIdempotent(s: CounterState)
    ensures Reset(Reset(s)) == Reset(s)
  {
  }

  lemma ToggleTwiceRestores(s: CounterState)
    ensures Toggle(Toggle(s)) == s
  {
  }

  lemma EventPreservesCoherent(s: CounterState, e: Event)
    requires Coherent(s)
    ensures Coherent(Apply(s, e))
  {
  }

  // ------------------------------------------------------- runs of ticks

  lemma {:induction false} RunAppend(s: CounterState, xs: seq<int>, ys: seq<int>)
    ensures Run(s, xs + ys) == Run(Run(s, xs), ys)
    decreases |xs|
  {
    if xs != [] {
      assert (xs + ys)[0] == xs[0];
      assert (xs + ys)[1..] == xs[1..] + ys;
      RunAppend(Step(s, xs[0]), xs[1..], ys);
    } else {
      assert xs + ys == ys;
    }
  }

  /** Repeating the last label of a run is a no-op. */
  lemma RepeatedLabelIsIdempotent(s: CounterState, predictions: seq<int>, p: int)
    ensures Run(s, predictions + [p, p]) == Run(s, predictions + [p])
  {
    var t := Run(s, predictions);
    RunAppend(s, predictions, [p, p]);
    RunAppend(s, predictions, [p]);
    assert Run(t, [p, p]) == Run(Step(t, p), [p]);
    StepIdempotent(t, p);
  }

  /** The count never goes down during ticks and rises by at most one per
      tick; the gate is never changed by ticks. */
  lemma {:induction false} RunCounterBounds(s: CounterState, predictions: seq<int>)
    ensures s.repCounter <= Run(s, predictions).repCounter <= s.repCounter + |predictions|
    ensures Run(s, predictions).countingEnabled == s.countingEnabled
    decreases |predictions|
  {
    if predictions != [] {
      RunCounterBounds(Step(s, predictions[0]), predictions[1..]);
    }
  }

  lemma {:induction false} RunPreservesCoherent(s: CounterState, predictions: seq<int>)
    requires Coherent(s)
    ensures Coherent(Run(s, predictions))
    decreases |predictions|
  {
    if predictions != [] {
      RunPreservesCoherent(Step(s, predictions[0]), predictions[1..]);
    }
  }

  /** While counting is switched off, ticks change nothing. */
  lemma {:induction false} RunWhileDisabled(s: CounterState, predictions: seq<int>)
    requires !s.countingEnabled && !(s.extended && s.contracted)
    ensures Run(s, predictions) == s
    decreases |predictions|
  {
    if predictions != [] {
      RunWhileDisabled(Step(s, predictions[0]), predictions[1..]);
    }
  }

  /** One tick with counting enabled, against the reference count: a pose
      change either starts a rep or completes the pending one. */
  lemma StepCountsChange(s: CounterState, p: int)
    requires Coherent(s) && s.countingEnabled
    ensures var r := Step(s, p);
      var c := if IsPose(p) && p != s.lastPrediction then 1 else 0;
      && r.repCounter == s.repCounter + (Pending(s) + c) / 2
      && Pending(r) == (Pending(s) + c) % 2
      && r.lastPrediction == (if IsPose(p) then p else s.lastPrediction)
  {
  }

  /** With counting enabled, the number of reps counted over a run is half
      the number of pose changes (together with a rep already half seen),
      and the last label is the last pose reported. */
  lemma {:induction false} RunCountsChanges(s: CounterState, predictions: seq<int>)
    requires Coherent(s) && s.countingEnabled
    ensures var r := Run(s, predictions);
      var n := Pending(s) + Changes(s.lastPrediction, predictions);
      && r.repCounter == s.repCounter + n / 2
      && Pending(r) == n % 2
      && r.lastPrediction == LastPose(s.lastPrediction, predictions)
      && r.countingEnabled
    decreases |predictions|
  {
    if predictions != [] {
      var p, rest := predictions[0], predictions[1..];
      var t := Step(s, p);
      var c := if IsPose(p) && p != s.lastPrediction then 1 else 0;
      StepCountsChange(s, p);
      RunCountsChanges(t, rest);
      assert Changes(s.lastPrediction, predictions) == c + Changes(t.lastPrediction, rest);
      assert LastPose(s.lastPrediction, predictions) == LastPose(t.lastPrediction, rest);
    }
  }

  /** From power-on, with counting switched on, the count is half the number
      of pose changes reported. */
  lemma CountFromStart(predictions: seq<int>)
    ensures Run(Toggle(Initial()), predictions).repCounter == Changes(0, predictions) / 2
  {
    RunCountsChanges(Toggle(Initial()), predictions);
  }

  // ------------------------------------------------ arbitrary event traces

  /** Whatever the buttons and the timer do, the invariant holds. */
  lemma {:induction false} ReplayPreservesCoherent(s: CounterState, events: seq<Event>)
    requires Coherent(s)
    ensures Coherent(Replay(s, events))
    decreases |events|
  {
    if events != [] {
      EventPreservesCoherent(s, events[0]);
      ReplayPreservesCoherent(Apply(s, events[0]), events[1..]);
    }
  }

  lemma ReachablePreservesCoherent(events: seq<Event>)
    ensures Coherent(Replay(Initial(), events))
  {
    ReplayPreservesCoherent(Initial(), events);
  }

  /** Without a reset, the count never decreases. */
  lemma {:induction false} ReplayWithoutResetMonotone(s: CounterState, events: seq<Event>)
    requires forall i :: 0 <= i < |events| ==> !events[i].ResetCounter?
    ensures s.repCounter <= Replay(s, events).repCounter
    decreases |events|
  {
    if events != [] {
      ReplayWithoutResetMonotone(Apply(s, events[0]), events[1..]);
    }
  }

  // ------------------------------------------------------------ scenarios

  /** Extended then contracted counts one rep. */
  lemma ExtendedThenContracted()
    ensures var r := Run(Toggle(Initial()), [Extended, Contracted]);
      r.repCounter == 1 && !r.extended && !r.contracted && r.lastPrediction == Contracted
  {
    var s := Toggle(Initial());
    assert [Extended, Contracted][1..] == [Contracted];
    assert Run(s, [Extended, Contracted]) == Run(Step(s, Extended), [Contracted]);
  }

  /** Contracted then extended counts one rep too. */
  lemma ContractedThenExtended()
    ensures var r := Run(Toggle(Initial()), [Contracted, Extended]);
      r.repCounter == 1 && !r.extended && !r.contracted && r.lastPrediction == Extended
  {
    var s := Toggle(Initial());
    assert [Contracted, Extended][1..] == [Extended];
    assert Run(s, [Contracted, Extended]) == Run(Step(s, Contracted), [Extended]);
  }

  /** A repeated extended label in the middle of a rep is ignored. */
  lemma RepeatedExtendedCountsOnce()
    ensures Run(Toggle(Initial()), [Extended, Extended, Contracted]).repCounter == 1
  {
    var predictions := [Extended, Extended, Contracted];
    assert predictions[1..] == [Extended, Contracted] && predictions[2..] == [Contracted];
    assert Changes(Contracted, []) == 0;
    assert Changes(Extended, [Contracted]) == 1;
    assert Changes(Extended, [Extended, Contracted]) == 1;
    assert Changes(0, predictions) == 2;
    CountFromStart(predictions);
  }

  /** After three reps a reset zeroes the count, and the next rep counts one. */
  lemma ResetAfterThreeReps()
    ensures var three := Run(Toggle(Initial()), [1, 2, 1, 2, 1, 2]);
      three.repCounter == 3 && Run(Reset(three), [1, 2]).repCounter == 1
  {
  }

  /** A reset does not clear the latches: half a rep seen before the reset
      is completed by a single label after it. */
  lemma HalfRepSurvivesReset()
    ensures var half := Run(Toggle(Initial()), [Extended]);
      Run(Reset(half), [Contracted]).repCounter == 1
  {
  }
}

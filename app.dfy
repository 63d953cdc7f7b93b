/** The counting state of the bicep-curl application object: the rep
    counter fields that the timer tick and the buttons update in place, and
    the per-class sample counters kept in a two-element array. The camera,
    the classifier and the window are not part of this model; the label the
    classifier produces for the current frame is passed to Tick. */
module FitnessApp {
  import RepCounter
  import TrainingSamples

  class App {
    var extended: bool
    var contracted: bool
    var lastPrediction: int
    var repCounter: nat
    var countingEnabled: bool
    /** counters[k - 1] is the number of the next frame saved for class k. */
    const counters: array<int>
    /** The classes of the samples saved so far, in order. */
    ghost var saves: seq<int>

    /** The rep counter fields as a value. */
    function State(): RepCounter.CounterState
      reads this
    {
      RepCounter.CounterState(extended, contracted, lastPrediction, repCounter, countingEnabled)
    }

    ghost predicate Valid()
      reads this, counters
    {
      && RepCounter.Coherent(State())
      && counters.Length == 2
      && TrainingSamples.AllClasses(saves)
      && counters[..] == TrainingSamples.CountersAfter(saves)
    }

    /** The counting part of application start-up. */
    constructor ()
      ensures Valid() && fresh(counters)
      ensures State() == RepCounter.Initial()
      ensures counters[..] == [1, 1] && saves == []
    {
      extended, contracted := false, false;
      lastPrediction := 0;
      repCounter := 0;
      countingEnabled := false;
      counters := new int[2](_ => 1);
      saves := [];
      new;
      assert counters[..] == [1, 1];
    }

    /** One timer tick: while counting is enabled the prediction is handled
        (a pose label that differs from the last one sets its latch), then a
        rep is counted if both latches are set. */
    method Tick(prediction: int)
      requires Valid()
      modifies this
      ensures Valid() && saves == old(saves)
      ensures State() == RepCounter.Step(old(State()), prediction)
      ensures !(extended && contracted)
      ensures old(repCounter) <= repCounter <= old(repCounter) + 1
      ensures countingEnabled == old(countingEnabled)
      ensures !old(countingEnabled) ==> State() == old(State())
    {
      if countingEnabled {
        if prediction != lastPrediction {
          if prediction == 1 {
            extended := true;
            lastPrediction := 1;
          }
          if prediction == 2 {
            contracted := true;
            lastPrediction := 2;
          }
        }
      }
      if extended && contracted {
        extended, contracted := false, false;
        repCounter := repCounter + 1;
      }
    }

    /** The toggle button. */
    method CountingToggle()
      requires Valid()
      modifies this
      ensures Valid() && saves == old(saves)
      ensures State() == RepCounter.Toggle(old(State()))
      ensures countingEnabled == !old(countingEnabled)
    {
      countingEnabled := !countingEnabled;
    }

    /** The reset button: the latches and the last label are kept. */
    method Reset()
      requires Valid()
      modifies this
      ensures Valid() && saves == old(saves)
      ensures State() == RepCounter.Reset(old(State()))
      ensures repCounter == 0
    {
      repCounter := 0;
    }

    /** The counter bookkeeping of saving one sample of class k; returns the
        frame number the sample is stored under. */
    method SaveForClass(k: int) returns (frame: int)
      requires Valid() && TrainingSamples.IsClass(k)
      modifies this, counters
      ensures Valid() && saves == old(saves) + [k]
      ensures State() == old(State())
      ensures frame == old(counters[k - 1])
      ensures frame == 1 + TrainingSamples.Occurrences(old(saves), k)
      ensures counters[k - 1] == old(counters[k - 1]) + 1
      ensures counters[2 - k] == old(counters[2 - k])
      ensures counters[0] >= 1 && counters[1] >= 1
    {
      TrainingSamples.CountersCountSamples(saves, k);
      frame := counters[k - 1];
      counters[k - 1] := counters[k - 1] + 1;
      saves := saves + [k];
      assert saves[..|saves| - 1] == old(saves);
      TrainingSamples.CountersStayPositive(saves);
    }
  }

  /** A client of the class: what the contracts let a caller conclude about
      a repeated label, an ignored label, one rep, a pause, a reset and two
      saved samples. */
  method ClientSession()
  {
    var app := new App();
    app.CountingToggle();
    app.Tick(RepCounter.Extended);
    app.Tick(RepCounter.Extended);
    app.Tick(0);
    assert app.repCounter == 0 && app.extended && app.lastPrediction == 1;
    app.Tick(RepCounter.Contracted);
    assert app.repCounter == 1 && !app.extended && !app.contracted && app.lastPrediction == 2;
    app.CountingToggle();
    app.Tick(RepCounter.Extended);
    assert app.repCounter == 1 && !app.extended;
    app.Reset();
    assert app.repCounter == 0 && app.lastPrediction == 2 && !app.countingEnabled;
    var f := app.SaveForClass(1);
    assert f == 1;
    f := app.SaveForClass(1);
    assert f == 2 && app.counters[1] == 1;
  }
}

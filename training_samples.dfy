/** The bookkeeping of captured training samples. The application keeps one
    counter per sample class; a captured frame of class k is stored under the
    number its counter holds, and the counter then moves on by one. */
module TrainingSamples {

  /** The two sample classes: 1 for an extended arm, 2 for a contracted arm. */
  predicate IsClass(k: int) {
    k == 1 || k == 2
  }

  predicate AllClasses(saves: seq<int>) {
    forall i :: 0 <= i < |saves| ==> IsClass(saves[i])
  }

  /** Both counters start at 1: the first frame of each class is frame 1. */
  function InitialCounters(): (r: seq<int>)
    ensures |r| == 2 && r[0] == 1 && r[1] == 1
  {
    [1, 1]
  }

  /** Saving one sample of class k: its counter rises by one, the other
      counter is left alone. */
  function Bump(counters: seq<int>, k: int): (r: seq<int>)
    requires |counters| == 2 && IsClass(k)
    ensures |r| == 2
    ensures r[k - 1] == counters[k - 1] + 1
    ensures r[2 - k] == counters[2 - k]
  {
    counters[k - 1 := counters[k - 1] + 1]
  }

  /** The number of samples of class k among the saves. */
  function Occurrences(saves: seq<int>, k: int): nat
    decreases |saves|
  {
    if saves == [] then 0
    else Occurrences(saves[..|saves| - 1], k) + (if saves[|saves| - 1] == k then 1 else 0)
  }

  /** The counters after the given saves, made in order from the start. */
  function CountersAfter(saves: seq<int>): (r: seq<int>)
    requires AllClasses(saves)
    ensures |r| == 2
    decreases |saves|
  {
    if saves == [] then InitialCounters()
    else Bump(CountersAfter(saves[..|saves| - 1]), saves[|saves| - 1])
  }

  /** The frame number under which the i-th save stores its image. */
  function FrameNumber(saves: seq<int>, i: int): int
    requires AllClasses(saves) && 0 <= i < |saves|
  {
    CountersAfter(saves[..i])[saves[i] - 1]
  }

  /** A counter always says one more than the number of samples of its class
      saved so far. */
  lemma {:induction false} CountersCountSamples(saves: seq<int>, k: int)
    requires AllClasses(saves) && IsClass(k)
    ensures CountersAfter(saves)[k - 1] == 1 + Occurrences(saves, k)
    decreases |saves|
  {
    if saves != [] {
      CountersCountSamples(saves[..|saves| - 1], k);
    }
  }

  /** Neither counter ever drops below its starting value 1. */
  lemma CountersStayPositive(saves: seq<int>)
    requires AllClasses(saves)
    ensures CountersAfter(saves)[0] >= 1 && CountersAfter(saves)[1] >= 1
  {
  }

  lemma {:induction false} OccurrencesMonotone(saves: seq<int>, i: nat, j: nat, k: int)
    requires i <= j <= |saves|
    ensures Occurrences(saves[..i], k) <= Occurrences(saves[..j], k)
    decreases j - i
  {
    if i < j {
      assert saves[..j][..j - 1] == saves[..j - 1];
      OccurrencesMonotone(saves, i, j - 1, k);
    }
  }

  /** The n-th sample of a class is stored as frame n, so two saves of the
      same class never use the same frame number. */
  lemma FrameNumbersDistinct(saves: seq<int>, i: nat, j: nat)
    requires AllClasses(saves) && i < j < |saves| && saves[i] == saves[j]
    ensures FrameNumber(saves, i) == 1 + Occurrences(saves[..i], saves[i])
    ensures FrameNumber(saves, i) < FrameNumber(saves, j)
  {
    var k := saves[i];
    CountersCountSamples(saves[..i], k);
    CountersCountSamples(saves[..j], k);
    assert saves[..i + 1][..i] == saves[..i];
    assert Occurrences(saves[..i + 1], k) == Occurrences(saves[..i], k) + 1;
    OccurrencesMonotone(saves, i + 1, j, k);
  }
}

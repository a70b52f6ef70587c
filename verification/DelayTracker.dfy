/**
  The moving average that paces receipt polling (internal/tx/txndelaytracker.go), in real arithmetic. Durations are
  whole nanoseconds, samples are milliseconds.
 */
module DelayTrackers {
  import opened Rounding

  const Window := 100
  const Millisecond := 1_000_000
  const MinDelay := 100 * Millisecond
  const MaxDelay := 10_000 * Millisecond
  const Factor := 1.3
  const InitialDelayFraction := 0.8
  const FirstRetryDelayFraction := 0.15
  const TracerFrequency := 25
  const TracerDivisor := 5
  const ResetThreshold := 0.3

  function Sum(s: seq<real>): real {
    if s == [] then 0.0 else Sum(s[..|s| - 1]) + s[|s| - 1]
  }

  /** The samples the average is taken over. */
  function Recent(history: seq<real>): seq<real> {
    if |history| <= Window then history else history[|history| - Window..]
  }

  function Mean(s: seq<real>): real {
    if s == [] then 0.0 else Sum(s) / (|s| as real)
  }

  lemma {:induction false} SumOfConcatenation(a: seq<real>, b: seq<real>)
    ensures Sum(a + b) == Sum(a) + Sum(b)
    decreases |b|
  {
    if b == [] {
      assert a + b == a;
    } else {
      assert (a + b)[..|a + b| - 1] == a + b[..|b| - 1];
      SumOfConcatenation(a, b[..|b| - 1]);
    }
  }

  /** A tracer delay: the division truncates toward zero. */
  function TracerOf(delay: int): (r: int)
    ensures delay >= 0 ==> r >= 0 && 5 * r <= delay < 5 * r + 5
    ensures delay < 0 ==> r <= 0 && 5 * r - 5 < delay <= 5 * r
  {
    if delay >= 0 then delay / TracerDivisor else -((-delay) / TracerDivisor)
  }

  function Clamp(delay: int): (r: int)
    ensures MinDelay <= r <= MaxDelay
  {
    if delay < MinDelay then MinDelay else if delay > MaxDelay then MaxDelay else delay
  }

  /** A fraction of the average; every so often a much shorter tracer delay. */
  function InitialDelay(average: real, count: nat): (delay: int)
    ensures MinDelay <= delay <= MaxDelay
  {
    var delay := Truncate(average * InitialDelayFraction) * Millisecond;
    Clamp(if count % TracerFrequency == 0 then TracerOf(delay) else delay)
  }

  /** A sample far below the average makes the tracker start over. A zero average divides to an infinity. */
  predicate Resets(sample: real, average: real) {
    if average == 0.0 then sample < 0.0 else sample / average <= ResetThreshold
  }

  /** The history after a report. */
  function Reported(history: seq<real>, sample: real): seq<real> {
    (if Resets(sample, Mean(Recent(history))) then [] else history) + [sample]
  }

  function RetryMillis(initialDelay: int, retry: nat): real {
    if retry == 0 then FirstRetryDelayFraction * (initialDelay as real / Millisecond as real)
    else RetryMillis(initialDelay, retry - 1) * Factor
  }

  function UncappedRetry(initialDelay: int, retry: nat): int {
    Truncate(RetryMillis(initialDelay, retry)) * Millisecond
  }

  function RetryDelay(initialDelay: int, retry: int): (delay: int)
    ensures delay <= MaxDelay
  {
    if retry <= 0 then 0
    else if UncappedRetry(initialDelay, retry) > MaxDelay then MaxDelay
    else UncappedRetry(initialDelay, retry)
  }

  lemma {:induction false} RetryMillisSign(initialDelay: int, retry: nat)
    ensures initialDelay >= 0 ==> RetryMillis(initialDelay, retry) >= 0.0
    ensures initialDelay < 0 ==> RetryMillis(initialDelay, retry) < 0.0
  {
    if retry > 0 {
      RetryMillisSign(initialDelay, retry - 1);
    }
  }

  lemma RetryGrows(initialDelay: int, retry: nat)
    ensures initialDelay >= 0 ==> UncappedRetry(initialDelay, retry) <= UncappedRetry(initialDelay, retry + 1)
    ensures initialDelay < 0 ==> UncappedRetry(initialDelay, retry) <= 0
    ensures initialDelay >= 0 ==> 0 <= UncappedRetry(initialDelay, retry)
  {
    RetryMillisSign(initialDelay, retry);
    if initialDelay >= 0 {
      TruncateIsMonotone(RetryMillis(initialDelay, retry), RetryMillis(initialDelay, retry + 1));
    }
  }

  /** The delay never shrinks from one retry to a later one, and never exceeds the maximum. */
  lemma {:induction false} RetryDelayIsMonotone(initialDelay: int, retry: int, later: int)
    requires initialDelay >= 0 && retry <= later
    ensures RetryDelay(initialDelay, retry) <= RetryDelay(initialDelay, later) <= MaxDelay
    decreases later - retry
  {
    if retry < later {
      RetryDelayIsMonotone(initialDelay, retry, later - 1);
      if later - 1 >= 0 {
        RetryGrows(initialDelay, later - 1);
        RetryGrows(initialDelay, later);
      }
    }
  }

  // ------------------------------------------------------------------ the delays in figures

  /** Whole milliseconds of `millis`, in nanoseconds, cut off at 10 seconds. */
  ghost predicate WholeMillis(millis: real, delay: int) {
    exists n :: CutsTo(millis, n) && delay == if n > 10_000 then 10_000_000_000 else n * 1_000_000
  }

  function Power(base: real, n: nat): real {
    if n == 0 then 1.0 else base * Power(base, n - 1)
  }

  lemma {:induction false} RetryIsGeometric(initialDelay: int, retry: nat)
    ensures RetryMillis(initialDelay, retry) == 0.15 * (initialDelay as real / 1_000_000.0) * Power(1.3, retry)
  {
    if retry > 0 {
      RetryIsGeometric(initialDelay, retry - 1);
    }
  }

  /** Retry n waits 15% of the initial delay times 1.3 to the n, in whole milliseconds, and 10 seconds at most. */
  lemma RetryDelayInFigures(initialDelay: int, retry: int)
    ensures retry <= 0 ==> RetryDelay(initialDelay, retry) == 0
    ensures retry > 0 ==>
              WholeMillis(0.15 * (initialDelay as real / 1_000_000.0) * Power(1.3, retry),
                          RetryDelay(initialDelay, retry))
  {
    if retry > 0 {
      RetryIsGeometric(initialDelay, retry);
      var millis := RetryMillis(initialDelay, retry);
      var n := Truncate(millis);
      TruncateCuts(millis, n);
      assert UncappedRetry(initialDelay, retry) == n * 1_000_000;
      assert CutsTo(0.15 * (initialDelay as real / 1_000_000.0) * Power(1.3, retry), n);
    }
  }

  /**
    The first wait is 80% of the average in whole milliseconds, or a fifth of that for every 25th transaction, and
    always between 100 milliseconds and 10 seconds.
   */
  lemma InitialDelayInFigures(average: real, count: nat, n: int)
    requires average >= 0.0 && CutsTo(average * 0.8, n)
    ensures var wait := if count % 25 == 0 then n * 200_000 else n * 1_000_000;
            InitialDelay(average, count) ==
            if wait < 100_000_000 then 100_000_000 else if wait > 10_000_000_000 then 10_000_000_000 else wait
  {
    TruncateCuts(average * 0.8, n);
  }

  /** The average is taken over the last 100 samples, or all of them when there are fewer. */
  lemma RecentInFigures(history: seq<real>)
    ensures |Recent(history)| == if |history| < 100 then |history| else 100
    ensures forall i :: 0 <= i < |Recent(history)| ==>
              Recent(history)[i] == history[|history| - |Recent(history)| + i]
    ensures Mean(Recent(history)) * (|Recent(history)| as real) == Sum(Recent(history))
    ensures history == [] ==> Mean(Recent(history)) == 0.0
  {
  }

  lemma SumOfOne(x: real)
    ensures Sum([x]) == x && Sum([]) == 0.0
  {
    assert [x][..0] == [];
  }

  /**
    A sample of at most three tenths of a positive average starts the history over; a larger one is added to it. While
    the average is zero only a negative sample starts over.
   */
  lemma ReportedInFigures(history: seq<real>, sample: real)
    requires Mean(Recent(history)) >= 0.0
    ensures var average := Mean(Recent(history));
            Reported(history, sample) ==
            if sample < 0.0 || (average > 0.0 && sample <= 0.3 * average) then [sample] else history + [sample]
  {
    var average := Mean(Recent(history));
    if average > 0.0 {
      assert sample / average <= 0.3 <==> sample <= 0.3 * average by {
        assert sample == (sample / average) * average;
        QuotientBound(sample / average, average);
      }
    }
    assert [] + [sample] == [sample];
  }

  lemma QuotientBound(q: real, m: real)
    requires m > 0.0
    ensures q <= 0.3 <==> q * m <= 0.3 * m
  {
    if q <= 0.3 {
      assert (0.3 - q) * m >= 0.0;
    } else {
      assert (q - 0.3) * m > 0.0;
    }
  }

  /** The ring holds the recent samples, rotated so that the next slot to fill is `pos`. */
  ghost predicate RingHolds(ring: seq<real>, pos: nat, filled: bool, history: seq<real>) {
    var n := |history|;
    && |ring| == Window && pos < Window && (if filled then Window <= n else pos == n)
    && (forall i :: 0 <= i < pos ==> ring[i] == history[n - pos + i])
    && (filled ==> forall i :: pos <= i < Window ==> ring[i] == history[n - Window - pos + i])
  }

  lemma RingTakesSample(ring: seq<real>, pos: nat, filled: bool, history: seq<real>, val: real)
    requires RingHolds(ring, pos, filled, history)
    ensures RingHolds(ring[pos := val], (pos + 1) % Window, filled || pos + 1 == Window, history + [val])
  {
    if pos + 1 < Window {
      assert (pos + 1) % Window == pos + 1;
    }
  }

  /** Summing the ring in slot order sums the recent samples. */
  lemma RingSum(ring: seq<real>, pos: nat, history: seq<real>)
    requires RingHolds(ring, pos, true, history)
    ensures Sum(ring) == Sum(Recent(history)) && |Recent(history)| == Window
  {
    var n := |history|;
    var a, b := ring[..pos], ring[pos..];
    assert ring == a + b;
    assert forall i :: 0 <= i < |b| ==> b[i] == ring[pos + i];
    assert Recent(history) == b + a;
    RotationKeepsSum(a, b);
  }

  lemma RotationKeepsSum(a: seq<real>, b: seq<real>)
    ensures Sum(a + b) == Sum(b + a)
  {
    SumOfConcatenation(a, b);
    SumOfConcatenation(b, a);
  }

  class TxnDelayTracker {
    var count: nat
    var values: array<real>
    var valPos: nat
    var slotsFilled: bool
    ghost var history: seq<real>       // every sample since the latest reset

    ghost predicate Valid()
      reads this, values
    {
      values.Length == Window && RingHolds(values[..], valPos, slotsFilled, history)
    }

    constructor ()
      ensures Valid() && fresh(values) && history == [] && count == 0
    {
      count := 0;
      values := new real[Window];
      valPos := 0;
      slotsFilled := false;
      history := [];
    }

    method Reset()
      modifies this`values, this`valPos, this`slotsFilled, this`history
      ensures Valid() && fresh(values) && history == []
    {
      values := new real[Window];
      valPos := 0;
      slotsFilled := false;
      history := [];
    }

    method Add(val: real)
      requires Valid()
      modifies this`valPos, this`slotsFilled, this`history, values
      ensures Valid() && values == old(values) && history == old(history) + [val]
    {
      RingTakesSample(values[..], valPos, slotsFilled, history, val);
      values[valPos] := val;
      assert values[..] == old(values[..])[old(valPos) := val];
      valPos := (valPos + 1) % Window;
      if !slotsFilled && valPos == 0 {
        slotsFilled := true;
      }
      history := history + [val];
    }

    /** The average is the mean of the last 100 samples since the latest reset, or of all when there are fewer. */
    method Avg() returns (average: real)
      requires Valid()
      ensures average == Mean(Recent(history))
    {
      var sum := 0.0;
      var c := Window - 1;
      if !slotsFilled {
        c := valPos - 1;
        if c < 0 {
          return 0.0;
        }
      }
      var ic := 0;
      for i := 0 to c + 1
        invariant ic == i && sum == Sum(values[..i])
      {
        assert values[..i + 1][..i] == values[..i];
        sum := sum + values[i];
        ic := ic + 1;
      }
      if slotsFilled {
        assert values[..Window] == values[..];
        RingSum(values[..], valPos, history);
      } else {
        assert values[..ic] == history;
      }
      average := sum / (ic as real);
    }

    /** `ReportSuccess`. */
    method ReportSuccess(timeTaken: int)
      requires Valid()
      modifies this`values, this`valPos, this`slotsFilled, this`history, values
      ensures Valid() && (values == old(values) || fresh(values))
      ensures history == Reported(old(history), timeTaken as real / Millisecond as real)
    {
      var val := timeTaken as real / Millisecond as real;
      var avg := Avg();
      var resets := if avg == 0.0 then val < 0.0 else val / avg <= ResetThreshold;
      if resets {
        Reset();
      }
      Add(val);
    }

    method GetInitialDelay() returns (delay: int)
      requires Valid()
      modifies this`count
      ensures Valid() && count == old(count) + 1
      ensures delay == InitialDelay(Mean(Recent(history)), count)
    {
      var avg := Avg();
      delay := Truncate(avg * InitialDelayFraction) * Millisecond;
      count := count + 1;
      if count % TracerFrequency == 0 {
        delay := TracerOf(delay);
      }
      if delay < MinDelay {
        delay := MinDelay;
      }
      if delay > MaxDelay {
        delay := MaxDelay;
      }
    }
  }

  /** `GetRetryDelay`: the loop stops growing the delay once it passes the maximum. */
  method GetRetryDelay(initialDelay: int, retry: int) returns (delay: int)
    ensures delay == RetryDelay(initialDelay, retry)
  {
    var millis := FirstRetryDelayFraction * (initialDelay as real / Millisecond as real);
    delay := 0;
    var i := 0;
    while i < retry
      invariant 0 <= i && (i <= retry || i == 0)
      invariant millis == RetryMillis(initialDelay, i)
      invariant delay == RetryDelay(initialDelay, i)
    {
      millis := millis * Factor;
      delay := Truncate(millis) * Millisecond;
      i := i + 1;
      if delay > MaxDelay {
        OverTheTop(initialDelay, i, retry);
        delay := MaxDelay;
        break;
      }
    }
  }

  lemma OverTheTop(initialDelay: int, retry: nat, later: nat)
    requires 1 <= retry <= later && UncappedRetry(initialDelay, retry) > MaxDelay
    ensures RetryDelay(initialDelay, later) == MaxDelay
  {
    RetryGrows(initialDelay, retry);
    RetryDelayIsMonotone(initialDelay, retry, later);
  }
}

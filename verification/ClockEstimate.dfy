/** MIDI clock to tempo: an average interval over a sliding window of ticks. */
module ClockEstimate {
  const WINDOW := 25

  function Push(window: seq<real>, now: real): seq<real> {
    if |window| < WINDOW then window + [now] else window[1..] + [now]
  }

  /** The intervals of the window, added up. */
  function Intervals(w: seq<real>): real
    decreases |w|
  {
    if |w| < 2 then 0.0 else Intervals(w[..|w| - 1]) + (w[|w| - 1] - w[|w| - 2])
  }

  function Average(w: seq<real>): real
    requires |w| >= 2
  {
    Intervals(w) / (|w| - 1) as real
  }

  /** The tempo a window shows, or 0 when it shows none. */
  function Estimate(w: seq<real>): int {
    if |w| < 4 || Average(w) <= 0.0 then 0 else
    var bpm := (60000.0 / (24.0 * Average(w)) + 0.5).Floor;
    if bpm < 20 || bpm > 400 then 0 else bpm
  }

  class Clock {
    const ticks: array<real>
    var count: nat
    var bpm: int

    ghost predicate Valid()
      reads this
    {
      ticks.Length == WINDOW && count <= WINDOW
    }

    ghost function Window(): seq<real>
      requires Valid()
      reads this, ticks
    {
      ticks[..count]
    }

    constructor ()
      ensures Valid() && fresh(ticks) && Window() == [] && bpm == 0
    {
      ticks := new real[WINDOW](i => 0.0);
      count, bpm := 0, 0;
    }

    method Shift()
      requires Valid() && count == WINDOW
      modifies ticks
      ensures ticks[..WINDOW - 1] == old(ticks[1..])
    {
      var i := 1;
      while i < WINDOW
        invariant 1 <= i <= WINDOW
        invariant forall k :: 0 <= k < i - 1 ==> ticks[k] == old(ticks[k + 1])
        invariant forall k :: i - 1 <= k < WINDOW ==> ticks[k] == old(ticks[k])
      {
        ticks[i - 1] := ticks[i];
        i := i + 1;
      }
    }

    method ShiftIn(now: real)
      requires Valid() && count == WINDOW
      modifies ticks
      ensures Window() == old(Window())[1..] + [now]
    {
      ghost var w := Window();
      assert w == ticks[..];
      Shift();
      assert ticks[..WINDOW - 1] == w[1..];
      ticks[WINDOW - 1] := now;
      assert ticks[..WINDOW - 1] == w[1..];
    }

    /** The head of `tm_clock_tick`. */
    method Record(now: real)
      requires Valid()
      modifies this`count, ticks
      ensures Valid() && Window() == Push(old(Window()), now)
    {
      if count < WINDOW {
        ticks[count] := now;
        count := count + 1;
      } else {
        ShiftIn(now);
      }
    }

    /** The fresh tempo, or 0; `bpm` keeps the last valid one. */
    method Tick(now: real) returns (tempo: int)
      requires Valid()
      modifies this`count, this`bpm, ticks
      ensures Valid() && Window() == Push(old(Window()), now)
      ensures tempo == Estimate(Window())
      ensures bpm == if tempo > 0 then tempo else old(bpm)
    {
      Record(now);
      if count < 4 { return 0; }
      var sum, i := 0.0, 1;
      while i < count
        invariant 1 <= i <= count
        invariant sum == Intervals(ticks[..i])
      {
        assert ticks[..i + 1][..i] == ticks[..i];
        sum := sum + (ticks[i] - ticks[i - 1]);
        i := i + 1;
      }
      var avg := sum / (count - 1) as real;
      if avg <= 0.0 { return 0; }
      var r := (60000.0 / (24.0 * avg) + 0.5).Floor;
      if r < 20 || r > 400 { return 0; }
      bpm := r;
      tempo := r;
    }
  }

  // ---------------------------------------------------------------------
  // Runs of ticks
  // ---------------------------------------------------------------------

  function WindowAfter(history: seq<real>): seq<real>
    decreases |history|
  {
    if history == [] then [] else Push(WindowAfter(history[..|history| - 1]), history[|history| - 1])
  }

  function LastTicks(history: seq<real>): seq<real> {
    if |history| <= WINDOW then history else history[|history| - WINDOW..]
  }

  lemma PushLast(front: seq<real>, now: real)
    ensures Push(LastTicks(front), now) == LastTicks(front + [now])
  {
    if |front| >= WINDOW {
      var cut := |front| - WINDOW;
      assert LastTicks(front)[1..] == front[cut + 1..];
      assert (front + [now])[cut + 1..] == front[cut + 1..] + [now];
    }
  }

  /** The window always holds the last min(n, 25) ticks. */
  lemma {:induction false} WindowHoldsLastTicks(history: seq<real>)
    ensures WindowAfter(history) == LastTicks(history)
    decreases |history|
  {
    if history != [] {
      var front, now := history[..|history| - 1], history[|history| - 1];
      WindowHoldsLastTicks(front);
      PushLast(front, now);
      assert front + [now] == history;
    }
  }

  /** The average interval depends on the first and the last tick only. */
  lemma {:induction false} IntervalsTelescope(w: seq<real>)
    requires w != []
    ensures Intervals(w) == w[|w| - 1] - w[0]
    decreases |w|
  {
    if |w| > 1 { IntervalsTelescope(w[..|w| - 1]); }
  }

  predicate Near(x: real, y: real, tolerance: real) { -tolerance <= x - y <= tolerance }

  /** When tick `k` of a steady beat is due. */
  function Due(start: real, period: real, k: nat): real { start + k as real * period }

  predicate Steady(history: seq<real>, start: real, period: real, jitter: real) {
    forall k :: 0 <= k < |history| ==> Near(history[k], Due(start, period, k), jitter)
  }

  lemma DueSpan(start: real, period: real, j: nat, k: nat, n: real)
    requires n == k as real - j as real
    ensures Due(start, period, k) - Due(start, period, j) == n * period
  {
    var a, b := j as real, k as real;
    assert b * period - a * period == (b - a) * period;
  }

  lemma SpanOfWindow(history: seq<real>, start: real, period: real, jitter: real, n: real)
    requires |history| >= 2 && Steady(history, start, period, jitter)
    requires n == (|WindowAfter(history)| - 1) as real
    ensures n > 0.0 && Near(Intervals(WindowAfter(history)), n * period, 2.0 * jitter)
  {
    WindowHoldsLastTicks(history);
    var w := WindowAfter(history);
    IntervalsTelescope(w);
    var first, last := |history| - |w|, |history| - 1;
    assert w[0] == history[first] && w[|w| - 1] == history[last];
    DueSpan(start, period, first, last, n);
  }

  lemma DivideBound(sum: real, n: real, period: real, bound: real)
    requires n > 0.0 && Near(sum, n * period, bound)
    ensures Near(sum / n, period, bound / n)
  {
    var d := sum - n * period;
    assert sum / n - period == d / n;
    DivideOrder(d, bound, n);
    DivideOrder(-bound, d, n);
    assert -bound / n == -(bound / n);
  }

  lemma DivideOrder(x: real, y: real, n: real)
    requires n > 0.0 && x <= y
    ensures x / n <= y / n
  {}

  /** Ticks within `jitter` of a steady beat give an average within 2 * jitter / (count - 1) of its period. */
  lemma {:induction false} AverageIsCloseToThePeriod(history: seq<real>, start: real, period: real, jitter: real)
    requires |history| >= 2 && Steady(history, start, period, jitter)
    ensures var w := WindowAfter(history);
            |w| >= 2 && Near(Average(w), period, 2.0 * jitter / (|w| - 1) as real)
  {
    var w := WindowAfter(history);
    var n := (|w| - 1) as real;
    SpanOfWindow(history, start, period, jitter, n);
    DivideBound(Intervals(w), n, period, 2.0 * jitter);
  }

  lemma ExactAverage(history: seq<real>, start: real, period: real)
    requires |history| >= 4 && Steady(history, start, period, 0.0)
    ensures |WindowAfter(history)| >= 4 && Average(WindowAfter(history)) == period
  {
    AverageIsCloseToThePeriod(history, start, period, 0.0);
    WindowHoldsLastTicks(history);
    ZeroOver((|WindowAfter(history)| - 1) as real);
  }

  /** Exact ticks at a whole tempo in the accepted range read as that tempo from the fourth tick on. */
  lemma ExactTempoIsRead(history: seq<real>, start: real, period: real, tempo: int)
    requires 20 <= tempo <= 400 && |history| >= 4
    requires period == 60000.0 / (24.0 * tempo as real) && Steady(history, start, period, 0.0)
    ensures Estimate(WindowAfter(history)) == tempo
  {
    ExactAverage(history, start, period);
    EstimateOf(WindowAfter(history), period, tempo);
  }

  lemma EstimateOf(w: seq<real>, period: real, tempo: int)
    requires |w| >= 4 && 20 <= tempo <= 400 && period == 60000.0 / (24.0 * tempo as real) && Average(w) == period
    ensures Estimate(w) == tempo
  {
    TempoOfPeriod(period, tempo as real);
    RoundsTo(60000.0 / (24.0 * period), tempo);
  }

  lemma ZeroOver(n: real)
    requires n > 0.0
    ensures 2.0 * 0.0 / n == 0.0
  {}

  lemma RoundsTo(x: real, n: int)
    requires x == n as real
    ensures (x + 0.5).Floor == n
  {}

  lemma TempoOfPeriod(period: real, tempo: real)
    requires tempo > 0.0 && period == 60000.0 / (24.0 * tempo)
    ensures period > 0.0 && 60000.0 / (24.0 * period) == tempo
  {
    assert period * (24.0 * tempo) == 60000.0;
    assert 24.0 * period * tempo == 60000.0;
  }

  lemma RoundedWithin(x: real, n: int)
    ensures (x + 0.5).Floor == n <==> n as real - 0.5 <= x < n as real + 0.5
  {}

  lemma ScaledOrder(avg: real, c: real)
    requires avg > 0.0
    ensures c <= 60000.0 / (24.0 * avg) <==> c * avg <= 2500.0
  {
    var x := 60000.0 / (24.0 * avg);
    assert x * (24.0 * avg) == 60000.0;
    assert x * avg == 2500.0;
    if c <= x {
      assert 0.0 <= (x - c) * avg;
    } else {
      assert 0.0 < (c - x) * avg;
    }
  }

  /**
   The tempo of any window: none of fewer than four ticks or a clock that stood still or ran back, else the 2500 ms of a
   beat's 24th over the average interval, rounded to the nearest whole number, if that is from 20 to 400.
  */
  lemma {:induction false} TempoIsTheNearestWhole(w: seq<real>)
    ensures |w| < 4 ==> Estimate(w) == 0
    ensures |w| >= 4 && w[|w| - 1] <= w[0] ==> Estimate(w) == 0
    ensures |w| >= 4 && w[|w| - 1] > w[0] ==>
      var avg := (w[|w| - 1] - w[0]) / (|w| - 1) as real;
      && (Estimate(w) > 0 <==> 19.5 * avg <= 2500.0 < 400.5 * avg)
      && (Estimate(w) > 0 ==>
            (Estimate(w) as real - 0.5) * avg <= 2500.0 < (Estimate(w) as real + 0.5) * avg)
  {
    if |w| >= 4 {
      IntervalsTelescope(w);
      SignOfAverage(w[|w| - 1] - w[0], (|w| - 1) as real);
      if w[|w| - 1] > w[0] {
        var avg := (w[|w| - 1] - w[0]) / (|w| - 1) as real;
        NearestWhole(w, avg);
      }
    }
  }

  lemma SignOfAverage(span: real, n: real)
    requires n > 0.0
    ensures span / n > 0.0 <==> span > 0.0
  {
    assert span / n * n == span;
  }

  lemma {:induction false} NearestWhole(w: seq<real>, avg: real)
    requires |w| >= 4 && avg == Average(w) && avg > 0.0
    ensures Estimate(w) > 0 <==> 19.5 * avg <= 2500.0 < 400.5 * avg
    ensures Estimate(w) > 0 ==> (Estimate(w) as real - 0.5) * avg <= 2500.0 < (Estimate(w) as real + 0.5) * avg
  {
    var x := 60000.0 / (24.0 * avg);
    var n := (x + 0.5).Floor;
    RoundedWithin(x, n);
    ScaledOrder(avg, 19.5);
    ScaledOrder(avg, 400.5);
    ScaledOrder(avg, n as real - 0.5);
    ScaledOrder(avg, n as real + 0.5);
  }
}

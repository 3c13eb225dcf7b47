/** One-pass statistics: the report's accumulators (reporting/reporter/ClusterBusterReporter.py) and the client's
    latencies (pod_files/client.py), over real numbers. A standard deviation is represented by its square. */
module Stats {
  import opened Basics

  function SumOf(f: real -> real, s: seq<real>): real {
    if s == [] then 0.0 else SumOf(f, s[..|s| - 1]) + f(s[|s| - 1])
  }

  function Same(x: real): real { x }

  function Square(x: real): real { x * x }

  /** The squared distance from y. */
  function SquaredFrom(y: real): real -> real {
    x => (x - y) * (x - y)
  }

  function Sum(s: seq<real>): real {
    SumOf(Same, s)
  }

  function SumSquares(s: seq<real>): real {
    SumOf(Square, s)
  }

  /** The sum of the squared distances from y. */
  function Spread(s: seq<real>, y: real): real {
    SumOf(SquaredFrom(y), s)
  }

  predicate IsMax(m: real, s: seq<real>) {
    m in s && forall i :: 0 <= i < |s| ==> s[i] <= m
  }

  predicate IsMin(m: real, s: seq<real>) {
    m in s && forall i :: 0 <= i < |s| ==> m <= s[i]
  }

  function Mean(s: seq<real>): real
    requires s != []
  {
    Sum(s) / |s| as real
  }

  lemma {:induction false} Appended(f: real -> real, s: seq<real>, x: real)
    ensures SumOf(f, s + [x]) == SumOf(f, s) + f(x)
  {
    assert (s + [x])[..|s|] == s;
  }

  lemma {:induction false} NotNegativeSum(f: real -> real, s: seq<real>)
    requires forall x :: f(x) >= 0.0
    ensures SumOf(f, s) >= 0.0
  {
    if s != [] { NotNegativeSum(f, s[..|s| - 1]); }
  }

  lemma {:induction false} Distribute(c: real, a: real, b: real)
    ensures c * (a + b) == c * a + c * b
  {
  }

  /** Sums are linear. */
  lemma {:induction false} Linear(f: real -> real, g: real -> real, c: real, d: real, s: seq<real>, sum: real, n: real)
    requires forall x :: f(x) == g(x) + c * x + d
    requires sum == Sum(s) && n == |s| as real
    ensures SumOf(f, s) == SumOf(g, s) + c * sum + d * n
  {
    if s != [] {
      var front, last := s[..|s| - 1], s[|s| - 1];
      Linear(f, g, c, d, front, Sum(front), |front| as real);
      Distribute(c, Sum(front), last);
      Distribute(d, |front| as real, 1.0);
    }
  }

  lemma {:induction false} SquareOfDifference(x: real, y: real)
    ensures (x - y) * (x - y) == x * x + (-2.0 * y) * x + y * y
    ensures (x - y) * (x - y) >= 0.0
  {
  }

  lemma {:induction false} SpreadForm(s: seq<real>, y: real, sum: real, n: real)
    requires sum == Sum(s) && n == |s| as real
    ensures Spread(s, y) == SumSquares(s) + (-2.0 * y) * sum + (y * y) * n
    ensures Spread(s, y) >= 0.0
  {
    forall x ensures SquaredFrom(y)(x) == Square(x) + (-2.0 * y) * x + y * y && SquaredFrom(y)(x) >= 0.0 {
      SquareOfDifference(x, y);
    }
    Linear(SquaredFrom(y), Square, -2.0 * y, y * y, s, sum, n);
    NotNegativeSum(SquaredFrom(y), s);
  }

  // ---------------------------------------------------------------------------------------------
  // The variance is never negative

  lemma {:induction false} MeanTimes(sum: real, n: real) returns (mean: real)
    requires n > 0.0
    ensures mean == sum / n && mean * n == sum
  {
    mean := sum / n;
  }

  lemma {:induction false} AtMean(n: real, sum: real, squares: real, mean: real)
    requires n > 0.0 && mean * n == sum
    ensures squares + (-2.0 * mean) * sum + (mean * mean) * n == squares - n * (mean * mean)
  {
    assert mean * (mean * n) == n * (mean * mean);
  }

  lemma {:induction false} DivideBy(squares: real, n: real, q: real, spread: real)
    requires n > 0.0 && squares - n * q == spread
    ensures squares / n - q == spread / n
    ensures spread >= 0.0 ==> squares / n >= q && spread / n >= 0.0
  {
    var a, b := squares / n, spread / n;
    assert a * n == squares && b * n == spread;
    assert (a - q - b) * n == 0.0;
    if spread >= 0.0 && b < 0.0 { NegativeProduct(b, n); }
  }

  lemma {:induction false} NegativeProduct(b: real, n: real)
    requires b < 0.0 && n > 0.0
    ensures b * n < 0.0
  {
  }

  /** The one-pass variance is the mean squared distance from the mean, so it is not negative: the square of the mean
      never exceeds the mean of the squares. */
  lemma {:induction false} VarianceIs(s: seq<real>, n: real, sum: real, squares: real, mean: real, spread: real)
    requires s != [] && n == |s| as real && sum == Sum(s) && squares == SumSquares(s)
    requires mean == sum / n && spread == Spread(s, mean)
    ensures squares / n - mean * mean == spread / n >= 0.0
    ensures mean * mean <= squares / n
  {
    var m := MeanTimes(sum, n);
    SpreadForm(s, mean, sum, n);
    AtMean(n, sum, squares, mean);
    DivideBy(squares, n, mean * mean, spread);
  }

  /** The same for the client's form, divided by n - 1: the argument of its square root is the sample variance. */
  lemma {:induction false} SampleVarianceIs(s: seq<real>, n: real, sum: real, squares: real, mean: real, spread: real)
    requires |s| > 1 && n == |s| as real && sum == Sum(s) && squares == SumSquares(s)
    requires mean == sum / n && spread == Spread(s, mean)
    ensures (squares - sum * sum / n) / (n - 1.0) == spread / (n - 1.0) >= 0.0
  {
    var m := MeanTimes(sum, n);
    SpreadForm(s, mean, sum, n);
    AtMean(n, sum, squares, mean);
    SumOverN(sum, n, mean);
    NotNegativeOver(spread, n - 1.0);
  }

  lemma {:induction false} SumOverN(sum: real, n: real, mean: real)
    requires n > 0.0 && mean * n == sum
    ensures sum * sum / n == n * (mean * mean)
  {
    var q := n * (mean * mean);
    SquareTimes(mean, n);
    DividedBy(q, n, sum * sum);
  }

  lemma {:induction false} SquareTimes(mean: real, n: real)
    ensures (mean * n) * (mean * n) == (n * (mean * mean)) * n
  {
    assert (mean * n) * (mean * n) == mean * (n * (mean * n));
    assert n * (mean * n) == n * n * mean;
  }

  lemma {:induction false} DividedBy(q: real, n: real, p: real)
    requires n > 0.0 && p == q * n
    ensures p / n == q
  {
  }

  lemma {:induction false} NotNegativeOver(x: real, n: real)
    requires n > 0.0 && x >= 0.0
    ensures x / n >= 0.0
  {
    var q := x / n;
    assert q * n == x;
    if q < 0.0 { NegativeProduct(q, n); }
  }

  // ---------------------------------------------------------------------------------------------
  // The accumulator

  /** The summary entries of one variable. */
  class Accumulator {
    var known: bool
    var total: real
    var counter: nat
    var sq: real
    var max: real
    var min: real
    var avg: real
    var variance: real

    constructor ()
      ensures Summarises([])
    {
      known, total, counter, sq, max, min, avg, variance := false, 0.0, 0, 0.0, 0.0, 0.0, 0.0, 0.0;
    }

    /** The entries are the batch values of the samples. */
    ghost predicate Summarises(s: seq<real>)
      reads this
    {
      if s == [] then !known && total == 0.0
      else
        && known && total == Sum(s) && counter == |s| && sq == SumSquares(s)
        && IsMax(max, s) && IsMin(min, s) && avg == Mean(s) && variance == Variance(s)
    }

    /** __update_accumulator_val() for a row that has the variable; `warned` is whether the variance came out
        negative, which cannot happen. */
    method Update(x: real, ghost s: seq<real>) returns (warned: bool)
      requires Summarises(s)
      modifies this
      ensures Summarises(s + [x]) && !warned
    {
      ghost var more := s + [x];
      Appended(Same, s, x);
      Appended(Square, s, x);
      if !known {
        known := true;
        counter, max, min, avg, sq := 0, x, x, x, 0.0;
      }
      total := total + x;
      counter := counter + 1;
      sq := sq + x * x;
      MaxMinStep(s, x, max, min);
      if x > max { max := x; }
      if x < min { min := x; }
      avg, variance, warned := Derive(total, sq, counter, more);
    }
  }

  /** The mean squared distance from the mean, for at least two samples. */
  function Variance(s: seq<real>): real {
    if |s| >= 2 then Spread(s, Mean(s)) / |s| as real else 0.0
  }

  method Derive(total: real, sq: real, counter: nat, ghost s: seq<real>)
    returns (avg: real, variance: real, warned: bool)
    requires s != [] && total == Sum(s) && sq == SumSquares(s) && counter == |s|
    ensures avg == Mean(s) && variance == Variance(s) && variance >= 0.0 && !warned
  {
    avg := total / counter as real;
    warned := false;
    variance := 0.0;
    if counter >= 2 {
      VarianceIs(s, counter as real, total, sq, avg, Spread(s, avg));
      if avg * avg > sq / counter as real {
        warned := true;
        variance := 0.0;
      } else {
        variance := sq / counter as real - avg * avg;
      }
    }
  }

  lemma {:induction false} MaxMinStep(s: seq<real>, x: real, max: real, min: real)
    requires if s == [] then max == min == x else IsMax(max, s) && IsMin(min, s)
    ensures IsMax(if x > max then x else max, s + [x]) && IsMin(if x < min then x else min, s + [x])
  {
    var more := s + [x];
    assert more[|s|] == x;
    if s != [] {
      var i :| 0 <= i < |s| && s[i] == max;
      var j :| 0 <= j < |s| && s[j] == min;
      assert more[i] == max && more[j] == min;
    }
  }

  /** All rows: the values do not depend on anything but the samples. */
  method Accumulate(rows: seq<Option<real>>, ghost samples: seq<real>) returns (a: Accumulator, warned: bool)
    requires samples == Present(rows)
    ensures fresh(a) && a.Summarises(samples) && !warned
  {
    a := new Accumulator();
    warned := false;
    for i := 0 to |rows|
      invariant a.Summarises(Present(rows[..i])) && !warned && fresh(a)
    {
      assert rows[..i + 1][..i] == rows[..i];
      match rows[i] {
        case None => assert Present(rows[..i + 1]) == Present(rows[..i]);
        case Some(x) =>
          var w := a.Update(x, Present(rows[..i]));
          warned := warned || w;
      }
    }
    assert rows[..|rows|] == rows;
  }

  /** The samples of the rows that have the variable. */
  function Present(rows: seq<Option<real>>): seq<real> {
    if rows == [] then []
    else Present(rows[..|rows| - 1]) + match rows[|rows| - 1] case None => [] case Some(x) => [x]
  }

  // ---------------------------------------------------------------------------------------------
  // The order of the rows does not matter

  lemma {:induction false} Extract(f: real -> real, s: seq<real>, i: nat)
    requires i < |s|
    ensures SumOf(f, s) == SumOf(f, s[..i] + s[i + 1..]) + f(s[i])
    decreases |s|
  {
    var rest := s[..i] + s[i + 1..];
    var n := |s| - 1;
    if i == n {
      assert rest == s[..n];
    } else {
      Extract(f, s[..n], i);
      assert rest[..|rest| - 1] == s[..n][..i] + s[..n][i + 1..] && rest[|rest| - 1] == s[n];
    }
  }

  lemma {:induction false} Without(t: seq<real>, i: nat)
    requires i < |t|
    ensures multiset(t[..i] + t[i + 1..]) == multiset(t) - multiset{t[i]}
  {
    assert t == t[..i] + [t[i]] + t[i + 1..];
  }

  lemma {:induction false} SumOfPermutation(f: real -> real, s: seq<real>, t: seq<real>)
    requires multiset(s) == multiset(t)
    ensures |s| == |t| && SumOf(f, s) == SumOf(f, t)
    decreases |s|
  {
    assert |s| == |multiset(s)| == |multiset(t)| == |t|;
    if s != [] {
      var n := |s| - 1;
      var x := s[n];
      assert x in multiset(s);
      assert x in multiset(t);
      var i :| 0 <= i < |t| && t[i] == x;
      Extract(f, t, i);
      Without(t, i);
      Without(s, n);
      assert s[..n] + s[n + 1..] == s[..n];
      SumOfPermutation(f, s[..n], t[..i] + t[i + 1..]);
    }
  }

  lemma {:induction false} SameExtremes(s: seq<real>, t: seq<real>, m: real)
    requires multiset(s) == multiset(t)
    ensures IsMax(m, s) ==> IsMax(m, t)
    ensures IsMin(m, s) ==> IsMin(m, t)
  {
    assert forall x :: x in s <==> x in multiset(s);
    assert forall x :: x in t <==> x in multiset(t);
    assert forall i :: 0 <= i < |t| ==> t[i] in s;
  }

  /** Whatever summarises a list of samples summarises every reordering of it. */
  lemma {:induction false} OrderIrrelevant(a: Accumulator, s: seq<real>, t: seq<real>)
    requires a.Summarises(s) && multiset(s) == multiset(t)
    ensures a.Summarises(t)
  {
    SumOfPermutation(Same, s, t);
    SumOfPermutation(Square, s, t);
    if s != [] {
      SumOfPermutation(SquaredFrom(Mean(s)), s, t);
      SameExtremes(s, t, a.max);
      SameExtremes(s, t, a.min);
    }
  }

  // ---------------------------------------------------------------------------------------------
  // The client

  /** The largest of the samples, or 0. */
  predicate IsPeak(max: real, s: seq<real>, n: nat)
    requires n <= |s|
  {
    && max >= 0.0 && (forall i :: 0 <= i < n ==> s[i] <= max)
    && (max == 0.0 || exists i :: 0 <= i < n && s[i] == max)
  }

  lemma {:induction false} PrefixStep(f: real -> real, s: seq<real>, i: nat)
    requires i < |s|
    ensures SumOf(f, s[..i + 1]) == SumOf(f, s[..i]) + f(s[i])
  {
    assert s[..i + 1][..i] == s[..i];
  }

  /** The latencies of the passes: mean, maximum (at least 0) and sample variance, from running sums. */
  method Latencies(samples: seq<real>) returns (mean: real, max: real, variance: real)
    ensures mean == if samples == [] then 0.0 else Mean(samples)
    ensures IsPeak(max, samples, |samples|)
    ensures variance == SampleVariance(samples) >= 0.0
  {
    var npass, ex, ex2 := 0, 0.0, 0.0;
    max := 0.0;
    for i := 0 to |samples|
      invariant npass == i && ex == Sum(samples[..i]) && ex2 == SumSquares(samples[..i])
      invariant IsPeak(max, samples, i)
    {
      var en := samples[i];
      PrefixStep(Same, samples, i);
      PrefixStep(Square, samples, i);
      ex := ex + en;
      ex2 := ex2 + en * en;
      if en > max { max := en; }
      npass := npass + 1;
    }
    assert samples[..|samples|] == samples;
    mean, variance := Latency(npass, ex, ex2, samples);
  }

  method Latency(npass: nat, ex: real, ex2: real, ghost samples: seq<real>) returns (mean: real, variance: real)
    requires npass == |samples| && ex == Sum(samples) && ex2 == SumSquares(samples)
    ensures mean == if samples == [] then 0.0 else Mean(samples)
    ensures variance == SampleVariance(samples) >= 0.0
  {
    mean, variance := 0.0, 0.0;
    if npass > 0 {
      mean := ex / npass as real;
      if npass > 1 {
        SampleVarianceIs(samples, npass as real, ex, ex2, mean, Spread(samples, mean));
        variance := (ex2 - (ex * ex / npass as real)) / (npass - 1) as real;
      }
    }
  }

  function SampleVariance(s: seq<real>): real {
    if |s| > 1 then Spread(s, Mean(s)) / (|s| - 1) as real else 0.0
  }

  lemma {:induction false} RateStep(k: real, pause: real)
    ensures (k + 1.0) * pause == k * pause + pause
  {
  }

  /** When the message times of k passes are over. */
  function Due(start: real, pause: real, k: nat): real {
    start + k as real * pause
  }

  lemma {:induction false} DueStep(start: real, pause: real, k: nat)
    ensures Due(start, pause, k + 1) == Due(start, pause, k) + pause && Due(start, pause, 0) == start
  {
    RateStep(k as real, pause);
  }

  /** When pass k began. */
  function Began(ends: seq<real>, start: real, k: nat): real
    requires k <= |ends|
  {
    if k == 0 then start else ends[k - 1]
  }

  /** A pass ends when it has taken its time and its message time is over, and no later. */
  predicate PassOk(ends: seq<real>, start: real, pause: real, duration: real, k: nat)
    requires k < |ends|
  {
    && ends[k] >= Due(start, pause, k + 1) && ends[k] >= Began(ends, start, k) + duration
    && (ends[k] == Due(start, pause, k + 1) || ends[k] == Began(ends, start, k) + duration)
  }

  /** Pacing: no pass ends before its message time is over, so the data rate is never exceeded. The passes take the
      given times; sleeping ends when it should. */
  method Pace(size: nat, rate: real, start: real, durations: seq<real>) returns (ends: seq<real>)
    requires rate > 0.0 && forall i :: 0 <= i < |durations| ==> durations[i] >= 0.0
    ensures |ends| == |durations|
    ensures forall k :: 0 <= k < |ends| ==> PassOk(ends, start, size as real / rate, durations[k], k)
  {
    ends := [];
    var starttime, now := start, start;
    var pause := size as real / rate;
    DueStep(start, pause, 0);
    for k := 0 to |durations|
      invariant |ends| == k && now == Began(ends, start, k)
      invariant starttime == Due(start, pause, k)
      invariant forall j :: 0 <= j < k ==> PassOk(ends, start, pause, durations[j], j)
    {
      ghost var before := ends;
      now := now + durations[k];
      DueStep(start, pause, k);
      starttime := starttime + pause;
      if now < starttime { now := starttime; }
      ends := ends + [now];
      forall j | 0 <= j <= k ensures PassOk(ends, start, pause, durations[j], j) {
        if j < k { PassStays(before, now, start, pause, durations[j], j); }
      }
    }
  }

  lemma {:induction false} PassStays(ends: seq<real>, now: real, start: real, pause: real, duration: real, k: nat)
    requires k < |ends| && PassOk(ends, start, pause, duration, k)
    ensures PassOk(ends + [now], start, pause, duration, k)
  {
  }

  /** What has been sent by the end of a pass is at most the rate times the time. */
  lemma {:induction false} RateKept(size: nat, rate: real, start: real, k: nat, end: real)
    requires rate > 0.0 && end >= Due(start, size as real / rate, k)
    ensures k as real * size as real <= rate * (end - start)
  {
    var pause := size as real / rate;
    assert pause * rate == size as real;
    var n := k as real;
    assert n * size as real == (n * pause) * rate by { assert n * (pause * rate) == (n * pause) * rate; }
    var late := end - start - n * pause;
    assert rate * (end - start) == rate * (n * pause) + rate * late by { Distribute(rate, n * pause, late); }
    assert rate * late >= 0.0;
  }

  // ---------------------------------------------------------------------------------------------
  // Start and end times

  /** A row's X_start, X_end and X_elapsed_time, if it has them. */
  datatype Row = Row(start: Option<real>, end: Option<real>, elapsed: Option<real>)

  /** The summary entries about X: first_ and last_ of both times, X_start, X_end and X_elapsed_time. */
  datatype Times = Times(firstStart: Option<real>, lastStart: Option<real>, firstEnd: Option<real>, lastEnd: Option<real>,
                         start: Option<real>, end: Option<real>, elapsed: Option<real>)

  predicate Is(o: Option<real>, s: seq<real>, max: bool) {
    if s == [] then o.None? else o.Some? && if max then IsMax(o.value, s) else IsMin(o.value, s)
  }

  /** The elapsed time is from the earliest start to the latest end, once both are known. */
  predicate Elapsed(t: Times) {
    && t.start == t.firstStart && t.end == t.lastEnd
    && t.elapsed == match (t.firstStart, t.lastEnd) case (Some(a), Some(b)) => Some(b - a) case _ => None
  }

  /** The entries after the given starts and ends. */
  predicate TimesOf(t: Times, starts: seq<real>, ends: seq<real>) {
    && Is(t.firstStart, starts, false) && Is(t.lastStart, starts, true)
    && Is(t.firstEnd, ends, false) && Is(t.lastEnd, ends, true)
    && Elapsed(t)
  }

  lemma {:induction false} ExtremeStep(o: Option<real>, s: seq<real>, x: real, max: bool)
    requires Is(o, s, max)
    ensures Is(Some(if o.None? || (if max then x > o.value else x < o.value) then x else o.value), s + [x], max)
  {
    var more := s + [x];
    assert more[|s|] == x;
    if s != [] {
      var i :| 0 <= i < |s| && s[i] == o.value;
      assert more[i] == o.value;
    }
  }

  /** The report's summary of one pair of times. */
  class TimeSummary {
    var times: Times

    constructor ()
      ensures times == Times(None, None, None, None, None, None, None)
    {
      times := Times(None, None, None, None, None, None, None);
    }

    /** __update_timeline_val() for X_start; a row without it changes nothing. */
    method UpdateStart(row: Row, ghost starts: seq<real>, ghost ends: seq<real>) returns (r: Row)
      requires TimesOf(times, starts, ends)
      modifies this
      ensures TimesOf(times, starts + (if row.start.Some? then [row.start.value] else []), ends)
      ensures r == Completed(row, row.start.Some?)
    {
      r := row;
      match row.start {
        case None => assert starts + [] == starts;
        case Some(x) =>
          r := Complete(row);
          ExtremeStep(times.firstStart, starts, x, false);
          ExtremeStep(times.lastStart, starts, x, true);
          if times.firstStart.None? || x < times.firstStart.value {
            times := times.(firstStart := Some(x), start := Some(x));
          }
          if times.lastStart.None? || x > times.lastStart.value {
            times := times.(lastStart := Some(x));
          }
          if times.lastEnd.Some? && times.firstStart.Some? {
            times := times.(elapsed := Some(times.lastEnd.value - times.firstStart.value));
          }
      }
    }

    /** __update_timeline_val() for X_end. */
    method UpdateEnd(row: Row, ghost starts: seq<real>, ghost ends: seq<real>) returns (r: Row)
      requires TimesOf(times, starts, ends)
      modifies this
      ensures TimesOf(times, starts, ends + (if row.end.Some? then [row.end.value] else []))
      ensures r == Completed(row, row.end.Some?)
    {
      r := row;
      match row.end {
        case None => assert ends + [] == ends;
        case Some(x) =>
          r := Complete(row);
          ExtremeStep(times.firstEnd, ends, x, false);
          ExtremeStep(times.lastEnd, ends, x, true);
          if times.firstEnd.None? || x < times.firstEnd.value {
            times := times.(firstEnd := Some(x));
          }
          if times.lastEnd.None? || x > times.lastEnd.value {
            times := times.(lastEnd := Some(x), end := Some(x));
          }
          if times.lastEnd.Some? && times.firstStart.Some? {
            times := times.(elapsed := Some(times.lastEnd.value - times.firstStart.value));
          }
      }
    }
  }

  /** The row's own elapsed time is filled in if it is missing and both times are there. */
  function Completed(row: Row, has: bool): Row {
    if has && row.elapsed.None? && row.start.Some? && row.end.Some?
    then row.(elapsed := Some(row.end.value - row.start.value)) else row
  }

  method Complete(row: Row) returns (r: Row)
    ensures r == Completed(row, true)
  {
    r := row;
    if row.elapsed.None? && row.start.Some? && row.end.Some? {
      r := row.(elapsed := Some(row.end.value - row.start.value));
    }
  }

  function Starts(rows: seq<Row>): seq<real> {
    if rows == [] then []
    else Starts(rows[..|rows| - 1]) + if rows[|rows| - 1].start.Some? then [rows[|rows| - 1].start.value] else []
  }

  function Ends(rows: seq<Row>): seq<real> {
    if rows == [] then []
    else Ends(rows[..|rows| - 1]) + if rows[|rows| - 1].end.Some? then [rows[|rows| - 1].end.value] else []
  }

  /** A row after its times were looked at: an elapsed time it had stays; one it lacked leads from its start to its end,
      if it has both; nothing else changes. */
  predicate RowDone(before: Row, after: Row) {
    && after.start == before.start && after.end == before.end
    && (before.elapsed.Some? || before.start.None? || before.end.None? ==> after.elapsed == before.elapsed)
    && (before.elapsed.None? && before.start.Some? && before.end.Some? ==>
          after.elapsed.Some? && before.start.value + after.elapsed.value == before.end.value)
  }

  lemma {:induction false} CompletedTwice(row: Row)
    ensures RowDone(row, Completed(Completed(row, row.start.Some?), row.end.Some?))
  {
  }

  /** All rows: earliest and latest of both times, an elapsed time that is right after every single update, and the rows'
      own elapsed times. */
  method SummariseTimes(rows: seq<Row>) returns (t: TimeSummary, out: seq<Row>)
    ensures fresh(t) && TimesOf(t.times, Starts(rows), Ends(rows))
    ensures |out| == |rows| && forall i :: 0 <= i < |rows| ==> RowDone(rows[i], out[i])
  {
    t := new TimeSummary();
    out := [];
    for i := 0 to |rows|
      invariant fresh(t) && TimesOf(t.times, Starts(rows[..i]), Ends(rows[..i]))
      invariant |out| == i && forall k :: 0 <= k < i ==> RowDone(rows[k], out[k])
    {
      assert rows[..i + 1][..i] == rows[..i];
      var row := t.UpdateStart(rows[i], Starts(rows[..i]), Ends(rows[..i]));
      row := t.UpdateEnd(row, Starts(rows[..i + 1]), Ends(rows[..i]));
      CompletedTwice(rows[i]);
      out := out + [row];
    }
    assert rows[..|rows|] == rows;
  }
}

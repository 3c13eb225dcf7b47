/** The memory timeline (memory_reporter.__build_timeline): what is to be computed. */
module Timeline {
  import opened Basics

  // The levels in force at a time are defined case by case; the code computes them as a sweep over a map of
  // differences, see timeline_sweep.dfy. Times are seconds since the first pod started.

  /** One case as the workers report it; `stages` are alloc_time and prefree_time, which the code reads
      only if the report also has a prealloc_time. */
  datatype Report = Report(start: real, end: real, stages: Option<(real, real)>, pages: int, size: int)

  /** A case relative to the start of the run. */
  datatype Case = Case(start: real, alloc: real, prefree: real, end: real, size: int, rate: real)

  /** Memory requested, memory in use, jobs running and work rate; also a change of these. */
  datatype Level = Level(request: int, inUse: int, jobs: int, rate: real)

  function Zero(): Level {
    Level(0, 0, 0, 0.0)
  }

  function Add(a: Level, b: Level): Level {
    Level(a.request + b.request, a.inUse + b.inUse, a.jobs + b.jobs, a.rate + b.rate)
  }

  /** The stages happen in order, not before the run, and the working stage takes time. */
  predicate Ordered(c: Case) {
    0.0 <= c.start <= c.alloc < c.prefree <= c.end
  }

  predicate AllOrdered(cases: seq<Case>) {
    forall i :: 0 <= i < |cases| ==> Ordered(cases[i])
  }

  function Times(c: Case): set<real> {
    {c.start, c.alloc, c.prefree, c.end}
  }

  function AllTimes(cases: seq<Case>): set<real> {
    if cases == [] then {} else AllTimes(cases[..|cases| - 1]) + Times(cases[|cases| - 1])
  }

  /** What one case contributes at time t: it requests memory from start until it begins to free it, holds memory
      from the end of the allocation to its own end, and works in between. */
  function At(c: Case, t: real): Level {
    Level(if c.start <= t < c.prefree then c.size else 0,
          if c.alloc <= t < c.end then c.size else 0,
          if c.alloc <= t < c.prefree then 1 else 0,
          if c.alloc <= t < c.prefree then c.rate else 0.0)
  }

  function SumTo(levels: seq<Level>, n: nat): Level
    requires n <= |levels|
  {
    if n == 0 then Zero() else Add(SumTo(levels, n - 1), levels[n - 1])
  }

  function Sum(levels: seq<Level>): Level {
    SumTo(levels, |levels|)
  }

  /** The level at time t: the sum over the cases that cover t. */
  function LevelAt(cases: seq<Case>, t: real): Level {
    Sum(seq(|cases|, i requires 0 <= i < |cases| => At(cases[i], t)))
  }

  /** What one case enters into the difference map at time t. */
  function JumpOf(c: Case, t: real): Level {
    Level((if c.start == t then c.size else 0) - (if c.prefree == t then c.size else 0),
          (if c.alloc == t then c.size else 0) - (if c.end == t then c.size else 0),
          (if c.alloc == t then 1 else 0) - (if c.prefree == t then 1 else 0),
          (if c.alloc == t then c.rate else 0.0) - (if c.prefree == t then c.rate else 0.0))
  }

  function JumpAt(cases: seq<Case>, t: real): Level {
    Sum(seq(|cases|, i requires 0 <= i < |cases| => JumpOf(cases[i], t)))
  }

  predicate IsSum(a: Level, b: Level, c: Level) { a == Add(b, c) }

  predicate IsZero(a: Level) { a == Zero() }

  lemma {:induction false} SumAdds(a: seq<Level>, b: seq<Level>, c: seq<Level>, n: nat)
    requires |a| == |b| == |c| >= n && forall i :: 0 <= i < |a| ==> IsSum(a[i], b[i], c[i])
    ensures SumTo(a, n) == Add(SumTo(b, n), SumTo(c, n))
  {
    if n > 0 {
      SumAdds(a, b, c, n - 1);
      SumOneMore(a, b, c, n - 1);
    }
  }

  lemma {:induction false} SumOneMore(a: seq<Level>, b: seq<Level>, c: seq<Level>, n: nat)
    requires |a| == |b| == |c| > n && IsSum(a[n], b[n], c[n])
    requires SumTo(a, n) == Add(SumTo(b, n), SumTo(c, n))
    ensures SumTo(a, n + 1) == Add(SumTo(b, n + 1), SumTo(c, n + 1))
  {
    AddSwap(SumTo(b, n), SumTo(c, n), b[n], c[n]);
  }

  lemma {:induction false} AddSwap(a: Level, b: Level, c: Level, d: Level)
    ensures Add(Add(a, b), Add(c, d)) == Add(Add(a, c), Add(b, d))
  {
  }

  lemma {:induction false} SumZero(a: seq<Level>, n: nat)
    requires n <= |a| && forall i :: 0 <= i < |a| ==> IsZero(a[i])
    ensures SumTo(a, n) == Zero()
  {
    if n > 0 { SumZero(a, n - 1); }
  }

  lemma {:induction false} SumPrefix(a: seq<Level>, b: Level, n: nat)
    requires n <= |a|
    ensures SumTo(a + [b], n) == SumTo(a, n)
  {
    if n > 0 { SumPrefix(a, b, n - 1); }
  }

  lemma {:induction false} SumAppend(a: seq<Level>, b: Level)
    ensures Sum(a + [b]) == Add(Sum(a), b)
  {
    SumPrefix(a, b, |a|);
  }

  predicate NoneBetween(c: Case, t0: real, t1: real) {
    && (c.start <= t0 || t1 <= c.start) && (c.alloc <= t0 || t1 <= c.alloc)
    && (c.prefree <= t0 || t1 <= c.prefree) && (c.end <= t0 || t1 <= c.end)
  }

  lemma {:induction false} AtJumps(c: Case, t0: real, t1: real)
    requires Ordered(c) && t0 < t1 && NoneBetween(c, t0, t1)
    ensures At(c, t1) == Add(At(c, t0), JumpOf(c, t1))
  {
  }

  /** Between two times with no case time strictly between them the level changes by the jump at the second. */
  lemma {:induction false} LevelJumps(cases: seq<Case>, t0: real, t1: real)
    requires AllOrdered(cases) && t0 < t1 && forall i :: 0 <= i < |cases| ==> NoneBetween(cases[i], t0, t1)
    ensures LevelAt(cases, t1) == Add(LevelAt(cases, t0), JumpAt(cases, t1))
  {
    var a := seq(|cases|, i requires 0 <= i < |cases| => At(cases[i], t1));
    var b := seq(|cases|, i requires 0 <= i < |cases| => At(cases[i], t0));
    var c := seq(|cases|, i requires 0 <= i < |cases| => JumpOf(cases[i], t1));
    forall i | 0 <= i < |cases| ensures IsSum(a[i], b[i], c[i]) {
      AtJumps(cases[i], t0, t1);
    }
    SumAdds(a, b, c, |cases|);
  }

  lemma {:induction false} AtFirst(c: Case, t: real)
    requires Ordered(c) && t <= c.start
    ensures At(c, t) == JumpOf(c, t)
  {
  }

  lemma {:induction false} AtLast(c: Case, t: real)
    requires Ordered(c) && c.end <= t
    ensures At(c, t) == Zero()
  {
  }

  /** At a time before or at all case times the level is the jump; it is zero once all case times are past. */
  lemma {:induction false} LevelFirst(cases: seq<Case>, t: real)
    requires AllOrdered(cases) && forall i :: 0 <= i < |cases| ==> t <= cases[i].start
    ensures LevelAt(cases, t) == JumpAt(cases, t)
  {
    forall i | 0 <= i < |cases| ensures At(cases[i], t) == JumpOf(cases[i], t) {
      AtFirst(cases[i], t);
    }
    assert seq(|cases|, i requires 0 <= i < |cases| => At(cases[i], t))
        == seq(|cases|, i requires 0 <= i < |cases| => JumpOf(cases[i], t));
  }

  lemma {:induction false} LevelLast(cases: seq<Case>, t: real)
    requires AllOrdered(cases) && forall i :: 0 <= i < |cases| ==> cases[i].end <= t
    ensures LevelAt(cases, t) == Zero()
  {
    forall i | 0 <= i < |cases| ensures IsZero(At(cases[i], t)) {
      AtLast(cases[i], t);
    }
    SumZero(seq(|cases|, i requires 0 <= i < |cases| => At(cases[i], t)), |cases|);
  }

  // ---------------------------------------------------------------------------------------------
  // Buckets

  /** int() */
  function Trunc(x: real): int {
    if x >= 0.0 then x.Floor else -((-x).Floor)
  }

  /** The --dense-timeline step, if any; the constructor refuses one that is not positive. */
  type Dense = Option<real>

  /** timeint() and inttime(). */
  function TimeInt(dense: Dense, x: real): real
    requires dense.Some? ==> dense.value > 0.0
  {
    if dense.Some? then x / dense.value else x
  }

  predicate Whole(x: real) {
    x == x.Floor as real
  }

  function IntTime(dense: Dense, x: real): real {
    match dense
    case None => x
    case Some(step) =>
      if !Whole(step) then x * step else Fudged(x, step) as real
  }

  function Fudged(x: real, step: real): int {
    Trunc((x + 0.000000001) * step)
  }

  /** The steps for which inttime() of a bucket number is the start of the bucket; see BucketStartExactly. */
  predicate StepOk(dense: Dense) {
    dense.Some? ==> dense.value > 0.0 && (Whole(dense.value) ==> dense.value < 1000000000.0)
  }

  /** The bucket that time x falls into, and the time printed for bucket b. */
  function Bucket(dense: Dense, x: real): int
    requires StepOk(dense)
  {
    Trunc(TimeInt(dense, x))
  }

  function Start(dense: Dense, b: int): real {
    IntTime(dense, b as real)
  }

  lemma {:induction false} DivMonotone(x: real, y: real, s: real)
    requires s > 0.0 && x <= y
    ensures x / s <= y / s
  {
    var p, q := x / s, y / s;
    assert p * s == x && q * s == y;
    assert (q - p) * s == y - x;
  }

  lemma {:induction false} BucketMonotone(dense: Dense, x: real, y: real)
    requires StepOk(dense) && 0.0 <= x <= y
    ensures 0 <= Bucket(dense, x) <= Bucket(dense, y)
  {
    if dense.Some? {
      DivMonotone(x, y, dense.value);
      DivMonotone(0.0, x, dense.value);
    }
  }

  lemma {:induction false} MulExact(b: real, s: real)
    requires s > 0.0
    ensures b * s / s == b
  {
  }

  lemma {:induction false} CastProduct(b: nat, n: int)
    ensures (b * n) as real == b as real * n as real
  {
    if b > 0 {
      CastProduct(b - 1, n);
      assert (b * n) as real == ((b - 1) * n) as real + n as real;
    }
  }

  /** Bucket b starts at b steps, and the start of bucket b falls into bucket b. */
  lemma {:induction false} StartExact(dense: Dense, b: int)
    requires StepOk(dense) && b >= 0
    ensures dense.Some? ==> Start(dense, b) == b as real * dense.value
    ensures dense.None? ==> Start(dense, b) == b as real
    ensures Start(dense, b) >= 0.0 && Bucket(dense, Start(dense, b)) == b
  {
    if dense.Some? {
      var step := dense.value;
      assert dense == Some(step);
      ScaledStart(b, step);
      MulExact(b as real, step);
      assert TimeInt(dense, Start(dense, b)) == b as real;
    } else {
      assert TimeInt(dense, Start(dense, b)) == b as real;
    }
  }

  lemma {:induction false} BucketOfStep(step: real, x: real, b: int, lo: real, hi: real)
    requires StepOk(Some(step)) && x >= 0.0 && lo == b as real * step && hi == (b as real + 1.0) * step
    ensures Bucket(Some(step), x) == b <==> lo <= x < hi
  {
    QuotientBetween(x, step, b as real);
    TruncIs(x / step, b);
  }

  /** Bucket b holds the times from its start to below the start of the next. */
  lemma {:induction false} BucketExactly(dense: Dense, x: real, b: int)
    requires StepOk(dense) && x >= 0.0 && b >= 0
    ensures Bucket(dense, x) == b <==> Start(dense, b) <= x < Start(dense, b + 1)
  {
    BucketStarts(dense, b);
    BucketStarts(dense, b + 1);
    assert (b + 1) as real == b as real + 1.0;
    if dense.Some? {
      BucketOfStep(dense.value, x, b, Start(dense, b), Start(dense, b + 1));
    } else {
      TruncIs(x, b);
    }
  }

  lemma {:induction false} BucketStarts(dense: Dense, b: int)
    requires StepOk(dense) && b >= 0
    ensures Start(dense, b) == if dense.Some? then b as real * dense.value else b as real
  {
    StartExact(dense, b);
  }

  lemma {:induction false} TruncIs(x: real, b: int)
    requires x >= 0.0
    ensures Trunc(x) == b <==> b as real <= x < b as real + 1.0
  {
  }

  lemma {:induction false} QuotientBetween(x: real, step: real, b: real)
    requires step > 0.0 && x >= 0.0
    ensures x / step >= 0.0
    ensures b <= x / step < b + 1.0 <==> b * step <= x < (b + 1.0) * step
  {
    var q := x / step;
    assert q * step == x;
    assert (q - b) * step == x - b * step;
    assert (b + 1.0 - q) * step == (b + 1.0) * step - x;
    Sign(q - b, step);
    Sign(b + 1.0 - q, step);
    Sign(q, step);
  }

  lemma {:induction false} Sign(x: real, s: real)
    requires s > 0.0
    ensures x >= 0.0 <==> x * s >= 0.0
    ensures x > 0.0 <==> x * s > 0.0
  {
  }

  lemma {:induction false} ProductNotNegative(x: real, y: real)
    requires x >= 0.0 && y >= 0.0
    ensures x * y >= 0.0
  {
  }

  lemma {:induction false} WholeProduct(b: nat, step: real) returns (product: nat)
    requires Whole(step) && step > 0.0
    ensures product as real == b as real * step
  {
    CastProduct(b, step.Floor);
    ProductNotNegative(b as real, step);
    var p := b * step.Floor;
    assert p as real == b as real * step.Floor as real == b as real * step >= 0.0;
    product := p;
  }

  lemma {:induction false} ScaledStart(b: nat, step: real)
    requires StepOk(Some(step))
    ensures Start(Some(step), b) == b as real * step >= 0.0
  {
    ProductNotNegative(b as real, step);
    if Whole(step) {
      var product := WholeProduct(b, step);
      SmallFudge(product, b as real, step);
      IntTimeWhole(step, b as real);
    }
  }

  lemma {:induction false} IntTimeWhole(step: real, x: real)
    requires Whole(step)
    ensures IntTime(Some(step), x) == Fudged(x, step) as real
  {
  }

  lemma {:induction false} SmallFudge(product: nat, b: real, step: real)
    requires 0.0 < step < 1000000000.0 && product as real == b * step
    ensures Fudged(b, step) == product
  {
    assert (b + 0.000000001) * step == product as real + 0.000000001 * step;
    assert 0.0 < 0.000000001 * step < 1.0;
  }

  /** For a whole step of 10^9 seconds or more, the fudge in inttime() moves the bucket starts. */
  lemma {:induction false} BucketStartExactly(step: real)
    requires step > 0.0
    ensures (forall b :: b >= 0 ==> Start(Some(step), b) == b as real * step) <==> StepOk(Some(step))
  {
    if StepOk(Some(step)) {
      forall b | b >= 0 ensures Start(Some(step), b) == b as real * step {
        StartExact(Some(step), b);
      }
    } else {
      assert 0.000000001 * step >= 1.0;
      assert Start(Some(step), 0) == Fudged(0.0, step) as real != 0.0 * step;
    }
  }

  lemma {:induction false} StartMonotone(dense: Dense, a: int, b: int)
    requires StepOk(dense) && 0 <= a < b
    ensures Start(dense, a) < Start(dense, b)
  {
    StartExact(dense, a);
    StartExact(dense, b);
    if dense.Some? {
      var x, y, s := a as real, b as real, dense.value;
      assert (y - x) * s > 0.0;
      assert (y - x) * s == y * s - x * s;
    }
  }

  /** A case with its times replaced by bucket numbers. */
  function Quantised(dense: Dense, c: Case): Case
    requires StepOk(dense)
  {
    c.(start := Bucket(dense, c.start) as real, alloc := Bucket(dense, c.alloc) as real,
       prefree := Bucket(dense, c.prefree) as real, end := Bucket(dense, c.end) as real)
  }

  function AllQuantised(dense: Dense, cases: seq<Case>): seq<Case>
    requires StepOk(dense)
  {
    seq(|cases|, i requires 0 <= i < |cases| => Quantised(dense, cases[i]))
  }

  /** The level to be shown for bucket b: the cases that cover b when all times are rounded down to buckets. */
  function BucketLevel(dense: Dense, cases: seq<Case>, b: int): Level
    requires StepOk(dense)
  {
    LevelAt(AllQuantised(dense, cases), b as real)
  }

  predicate Separates(dense: Dense, c: Case, t: real, b: int)
    requires StepOk(dense)
  {
    && (c.start <= t <==> Bucket(dense, c.start) <= b) && (c.alloc <= t <==> Bucket(dense, c.alloc) <= b)
    && (c.prefree <= t <==> Bucket(dense, c.prefree) <= b) && (c.end <= t <==> Bucket(dense, c.end) <= b)
  }

  /** The level at time t is the one of bucket b if t separates the case times as bucket b does. */
  lemma {:induction false} BucketOfLevel(dense: Dense, cases: seq<Case>, t: real, b: int)
    requires StepOk(dense)
    requires forall i :: 0 <= i < |cases| ==> Separates(dense, cases[i], t, b)
    ensures LevelAt(cases, t) == BucketLevel(dense, cases, b)
  {
    var q := AllQuantised(dense, cases);
    forall i | 0 <= i < |cases| ensures At(cases[i], t) == At(q[i], b as real) {
      SeparatedAt(dense, cases[i], t, b);
    }
    assert seq(|cases|, i requires 0 <= i < |cases| => At(cases[i], t))
        == seq(|q|, i requires 0 <= i < |q| => At(q[i], b as real));
  }

  lemma {:induction false} SeparatedAt(dense: Dense, c: Case, t: real, b: int)
    requires StepOk(dense) && Separates(dense, c, t, b)
    ensures At(c, t) == At(Quantised(dense, c), b as real)
  {
  }
}

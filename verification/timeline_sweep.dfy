/** The memory timeline (memory_reporter.__build_timeline): how it is computed. */
module TimelineSweep {
  import opened Basics
  import opened Timeline

  // ---------------------------------------------------------------------------------------------
  // The map of differences

  /** The results of one worker process, with the node its pod ran on. */
  datatype WorkerResult = WorkerResult(node: string, cases: seq<Report>)

  /** A report relative to the first pod start; without stages the case works from start to end. */
  function Resolve(r: Report, base: real): Case
    requires Working(r) != 0.0
  {
    var alloc := if r.stages.Some? then r.stages.value.0 - base else r.start - base;
    var prefree := if r.stages.Some? then r.stages.value.1 - base else r.end - base;
    Case(r.start - base, alloc, prefree, r.end - base, r.size, r.pages as real / (prefree - alloc))
  }

  function Working(r: Report): real {
    if r.stages.Some? then r.stages.value.1 - r.stages.value.0 else r.end - r.start
  }

  predicate Usable(r: Report, base: real) {
    Working(r) != 0.0 && Ordered(Resolve(r, base))
  }

  predicate AllUsable(results: seq<WorkerResult>, base: real) {
    forall i, j :: 0 <= i < |results| && 0 <= j < |results[i].cases| ==> Usable(results[i].cases[j], base)
  }

  function ResolveAll(reports: seq<Report>, base: real): (cases: seq<Case>)
    requires forall j :: 0 <= j < |reports| ==> Usable(reports[j], base)
    ensures |cases| == |reports| && AllOrdered(cases)
  {
    seq(|reports|, j requires 0 <= j < |reports| && Usable(reports[j], base) => Resolve(reports[j], base))
  }

  /** All cases that ran on a node, in report order. */
  function CasesOf(results: seq<WorkerResult>, base: real, node: string): (cases: seq<Case>)
    requires AllUsable(results, base)
    ensures AllOrdered(cases)
  {
    if results == [] then []
    else
      var last := results[|results| - 1];
      CasesOf(results[..|results| - 1], base, node) + if last.node == node then ResolveAll(last.cases, base) else []
  }

  predicate HasTime(cases: seq<Case>, t: real) {
    exists i :: 0 <= i < |cases| && t in Times(cases[i])
  }

  /** The difference map of a list of cases: an entry for time 0 and for every case time, and in it the jump. */
  ghost predicate IsDifferenceMap(m: map<real, Level>, cases: seq<Case>) {
    && (forall t :: t in m <==> t == 0.0 || HasTime(cases, t))
    && (forall t :: t in m ==> m[t] == JumpAt(cases, t))
  }

  function EntryOf(m: map<real, Level>, t: real): Level {
    if t in m then m[t] else Zero()
  }

  function Bump(m: map<real, Level>, t: real, change: Level): map<real, Level> {
    m[t := Add(EntryOf(m, t), change)]
  }

  /** The four places a case changes: begins to allocate, begins to work, begins to free, ends. */
  function Entered(m: map<real, Level>, c: Case): map<real, Level> {
    Bump(Bump(Bump(Bump(m, c.start, Begins(c)), c.alloc, Works(c)), c.prefree, Frees(c)), c.end, Ends(c))
  }

  function Begins(c: Case): Level { Level(c.size, 0, 0, 0.0) }

  function Works(c: Case): Level { Level(0, c.size, 1, c.rate) }

  function Frees(c: Case): Level { Level(-c.size, 0, -1, -c.rate) }

  function Ends(c: Case): Level { Level(0, -c.size, 0, 0.0) }

  function If(here: bool, change: Level): Level {
    if here then change else Zero()
  }

  lemma {:induction false} BumpAt(m: map<real, Level>, t: real, change: Level, x: real)
    ensures EntryOf(Bump(m, t, change), x) == Add(EntryOf(m, x), If(x == t, change))
  {
  }

  function Parts(c: Case, x: real): Level {
    Add(Add(If(x == c.start, Begins(c)), If(x == c.alloc, Works(c))),
        Add(If(x == c.prefree, Frees(c)), If(x == c.end, Ends(c))))
  }

  lemma {:induction false} JumpParts(c: Case, x: real)
    ensures JumpOf(c, x) == Parts(c, x)
  {
  }

  lemma {:induction false} AddFour(e0: Level, e1: Level, e2: Level, e3: Level, e4: Level, a: Level, b: Level, c: Level, d: Level)
    requires e1 == Add(e0, a) && e2 == Add(e1, b) && e3 == Add(e2, c) && e4 == Add(e3, d)
    ensures e4 == Add(e0, Add(Add(a, b), Add(c, d)))
  {
  }

  lemma {:induction false} BumpFour(m: map<real, Level>, t1: real, a: Level, t2: real, b: Level, t3: real, f: Level,
                                    t4: real, d: Level, x: real)
    ensures EntryOf(Bump(Bump(Bump(Bump(m, t1, a), t2, b), t3, f), t4, d), x) ==
            Add(EntryOf(m, x), Add(Add(If(x == t1, a), If(x == t2, b)), Add(If(x == t3, f), If(x == t4, d))))
  {
    var m1 := Bump(m, t1, a);
    var m2 := Bump(m1, t2, b);
    var m3 := Bump(m2, t3, f);
    BumpAt(m, t1, a, x);
    BumpAt(m1, t2, b, x);
    BumpAt(m2, t3, f, x);
    BumpAt(m3, t4, d, x);
    AddFour(EntryOf(m, x), EntryOf(m1, x), EntryOf(m2, x), EntryOf(m3, x), EntryOf(Bump(m3, t4, d), x),
            If(x == t1, a), If(x == t2, b), If(x == t3, f), If(x == t4, d));
  }

  lemma {:induction false} EnteredAt(m: map<real, Level>, c: Case, x: real)
    ensures EntryOf(Entered(m, c), x) == Add(EntryOf(m, x), JumpOf(c, x))
  {
    BumpFour(m, c.start, Begins(c), c.alloc, Works(c), c.prefree, Frees(c), c.end, Ends(c), x);
    JumpParts(c, x);
  }

  /** `m[t].field += change`, once the entry exists. */
  method Change(m: map<real, Level>, t: real, change: Level) returns (n: map<real, Level>)
    requires t in m
    ensures n == Bump(m, t, change)
  {
    var e := m[t];
    n := m[t := Level(e.request + change.request, e.inUse + change.inUse, e.jobs + change.jobs, e.rate + change.rate)];
  }

  /** `if time not in timeline[node]: timeline[node][time] = ...` */
  method Ensure(m: map<real, Level>, t: real) returns (n: map<real, Level>)
    ensures n.Keys == m.Keys + {t} && forall x :: x in n ==> n[x] == EntryOf(m, x)
  {
    n := m;
    if t !in m { n := m[t := Zero()]; }
  }

  method EnsureAll(m: map<real, Level>, c: Case) returns (n: map<real, Level>)
    ensures n.Keys == m.Keys + Times(c) && forall x :: x in n ==> n[x] == EntryOf(m, x)
  {
    n := Ensure(m, c.start);
    n := Ensure(n, c.alloc);
    n := Ensure(n, c.prefree);
    n := Ensure(n, c.end);
  }

  method ChangeAll(m: map<real, Level>, c: Case) returns (n: map<real, Level>)
    requires Times(c) <= m.Keys
    ensures n == Entered(m, c)
  {
    n := Change(m, c.start, Level(c.size, 0, 0, 0.0));
    n := Change(n, c.alloc, Level(0, c.size, 1, c.rate));
    n := Change(n, c.prefree, Level(-c.size, 0, -1, -c.rate));
    n := Change(n, c.end, Level(0, -c.size, 0, 0.0));
  }

  /** Entering one case: first the entries it needs, then its updates. */
  method EnterCase(m: map<real, Level>, c: Case) returns (n: map<real, Level>)
    ensures n.Keys == m.Keys + Times(c)
    ensures forall t :: t in n ==> n[t] == Add(EntryOf(m, t), JumpOf(c, t))
  {
    var e := EnsureAll(m, c);
    n := ChangeAll(e, c);
    EnteredKeys(e, c);
    forall t | t in n ensures n[t] == Add(EntryOf(m, t), JumpOf(c, t)) {
      EnteredAt(e, c, t);
      assert EntryOf(n, t) == n[t] && EntryOf(e, t) == EntryOf(m, t);
    }
  }

  lemma {:induction false} EnteredKeys(m: map<real, Level>, c: Case)
    requires Times(c) <= m.Keys
    ensures Entered(m, c).Keys == m.Keys
  {
  }

  lemma {:induction false} JumpAppend(cases: seq<Case>, c: Case, t: real)
    ensures JumpAt(cases + [c], t) == Add(JumpAt(cases, t), JumpOf(c, t))
  {
    var more := cases + [c];
    var jumps := seq(|cases|, i requires 0 <= i < |cases| => JumpOf(cases[i], t));
    SumAppend(jumps, JumpOf(c, t));
    assert seq(|more|, i requires 0 <= i < |more| => JumpOf(more[i], t)) == jumps + [JumpOf(c, t)];
  }

  lemma {:induction false} NoJump(cases: seq<Case>, t: real)
    requires !HasTime(cases, t)
    ensures JumpAt(cases, t) == Zero()
  {
    forall i | 0 <= i < |cases| ensures IsZero(JumpOf(cases[i], t)) {
      assert t !in Times(cases[i]);
    }
    SumZero(seq(|cases|, i requires 0 <= i < |cases| => JumpOf(cases[i], t)), |cases|);
  }

  lemma {:induction false} EnteredCase(m: map<real, Level>, cases: seq<Case>, c: Case, n: map<real, Level>)
    requires IsDifferenceMap(m, cases)
    requires n.Keys == m.Keys + Times(c)
    requires forall t :: t in n ==> n[t] == Add(EntryOf(m, t), JumpOf(c, t))
    ensures IsDifferenceMap(n, cases + [c])
  {
    var more := cases + [c];
    forall t ensures HasTime(more, t) <==> HasTime(cases, t) || t in Times(c) {
      if HasTime(cases, t) {
        var i :| 0 <= i < |cases| && t in Times(cases[i]);
        assert t in Times(more[i]);
      }
      if t in Times(c) { assert t in Times(more[|cases|]); }
    }
    forall t | t in n ensures n[t] == JumpAt(more, t) {
      JumpAppend(cases, c, t);
      if t !in m { NoJump(cases, t); }
    }
  }

  // ---------------------------------------------------------------------------------------------
  // The sweep over one node

  /** One line of the timeline; `raw` is the event's own `request` entry, which filler lines do not have. */
  datatype Event = Event(time: real, raw: Option<int>, level: Level, max: int)

  predicate Sorted(keys: seq<real>) {
    forall i, j :: 0 <= i < j < |keys| ==> keys[i] < keys[j]
  }

  /** sorted(subtimeline.keys()) */
  method SortKeys(keys: set<real>) returns (sorted: seq<real>)
    ensures Sorted(sorted) && forall t :: t in sorted <==> t in keys
  {
    sorted := [];
    var rest := keys;
    while rest != {}
      invariant Sorted(sorted) && rest <= keys
      invariant forall t :: t in keys <==> t in rest || t in sorted
      invariant forall i, t :: 0 <= i < |sorted| && t in rest ==> sorted[i] < t
      decreases |rest|
    {
      var least := Least(rest);
      sorted, rest := sorted + [least], rest - {least};
    }
  }

  method Least(keys: set<real>) returns (least: real)
    requires keys != {}
    ensures least in keys && forall t :: t in keys ==> least <= t
  {
    ghost var some := PickOne(keys);
    least :| least in keys;
    var rest := keys - {least};
    while rest != {}
      invariant rest <= keys && least in keys
      invariant forall t :: t in keys ==> t in rest || least <= t
      decreases |rest|
    {
      ghost var other := PickOne(rest);
      var t :| t in rest;
      rest := rest - {t};
      if t < least { least := t; }
    }
  }

  /** The keys of a difference map. */
  ghost predicate KeysOf(keys: seq<real>, cases: seq<Case>) {
    Sorted(keys) && AllOrdered(cases) && forall t :: t in keys <==> t == 0.0 || HasTime(cases, t)
  }

  lemma {:induction false} KeyFacts(keys: seq<real>, cases: seq<Case>)
    requires KeysOf(keys, cases)
    ensures keys != [] && keys[0] == 0.0 && forall i :: 0 <= i < |keys| ==> 0.0 <= keys[i]
  {
    assert 0.0 in keys;
    forall i | 0 <= i < |keys| ensures 0.0 <= keys[i] {
      assert keys[i] in keys;
      if keys[i] != 0.0 {
        var j :| 0 <= j < |cases| && keys[i] in Times(cases[j]);
        assert Ordered(cases[j]);
      }
    }
  }

  /** Every case time is a key. */
  lemma {:induction false} TimesAreKeys(keys: seq<real>, cases: seq<Case>, j: nat)
    requires KeysOf(keys, cases) && j < |cases|
    ensures cases[j].start in keys && cases[j].alloc in keys && cases[j].prefree in keys && cases[j].end in keys
  {
    assert cases[j].start in Times(cases[j]) && cases[j].alloc in Times(cases[j]);
    assert cases[j].prefree in Times(cases[j]) && cases[j].end in Times(cases[j]);
  }

  /** No key lies strictly between two neighbours. */
  lemma {:induction false} Neighbours(keys: seq<real>, i: nat, x: real)
    requires Sorted(keys) && 0 < i < |keys| && x in keys
    ensures x <= keys[i - 1] || keys[i] <= x
  {
    var k :| 0 <= k < |keys| && keys[k] == x;
    if k < i - 1 { assert keys[k] < keys[i - 1]; }
    if k > i { assert keys[i] < keys[k]; }
  }

  lemma {:induction false} NoCaseBetween(keys: seq<real>, cases: seq<Case>, i: nat, t: real)
    requires KeysOf(keys, cases) && 0 < i < |keys| && keys[i - 1] < t <= keys[i]
    ensures forall j :: 0 <= j < |cases| ==> NoneBetween(cases[j], keys[i - 1], t)
  {
    forall j | 0 <= j < |cases| ensures NoneBetween(cases[j], keys[i - 1], t) {
      TimesAreKeys(keys, cases, j);
      Neighbours(keys, i, cases[j].start);
      Neighbours(keys, i, cases[j].alloc);
      Neighbours(keys, i, cases[j].prefree);
      Neighbours(keys, i, cases[j].end);
    }
  }

  /** The running totals: the level at a key is the one at the key before plus the entry. */
  lemma {:induction false} NextLevel(m: map<real, Level>, keys: seq<real>, cases: seq<Case>, i: nat)
    requires KeysOf(keys, cases) && IsDifferenceMap(m, cases) && i < |keys|
    ensures keys[i] in m
    ensures LevelAt(cases, keys[i]) == Add(if i == 0 then Zero() else LevelAt(cases, keys[i - 1]), m[keys[i]])
  {
    assert keys[i] in keys;
    if i == 0 {
      KeyFacts(keys, cases);
      forall j | 0 <= j < |cases| ensures keys[0] <= cases[j].start {
        assert Ordered(cases[j]);
      }
      LevelFirst(cases, keys[0]);
    } else {
      NoCaseBetween(keys, cases, i, keys[i]);
      LevelJumps(cases, keys[i - 1], keys[i]);
    }
  }

  /** Between two keys the level is the one of the first. */
  lemma {:induction false} ConstantLevel(keys: seq<real>, cases: seq<Case>, i: nat, t: real)
    requires KeysOf(keys, cases) && i < |keys| && keys[i] <= t && (i + 1 < |keys| ==> t < keys[i + 1])
    ensures LevelAt(cases, t) == LevelAt(cases, keys[i])
  {
    forall j | 0 <= j < |cases| ensures At(cases[j], t) == At(cases[j], keys[i]) {
      TimesAreKeys(keys, cases, j);
      SameSide(keys, i, t, cases[j].start);
      SameSide(keys, i, t, cases[j].alloc);
      SameSide(keys, i, t, cases[j].prefree);
      SameSide(keys, i, t, cases[j].end);
    }
    assert seq(|cases|, j requires 0 <= j < |cases| => At(cases[j], t))
        == seq(|cases|, j requires 0 <= j < |cases| => At(cases[j], keys[i]));
  }

  lemma {:induction false} SameSide(keys: seq<real>, i: nat, t: real, x: real)
    requires Sorted(keys) && i < |keys| && keys[i] <= t && (i + 1 < |keys| ==> t < keys[i + 1]) && x in keys
    ensures x <= t <==> x <= keys[i]
  {
    var k :| 0 <= k < |keys| && keys[k] == x;
    if k > i && k != i + 1 { assert keys[i + 1] < keys[k]; }
    if k < i { assert keys[k] < keys[i]; }
  }

  /** In the buckets from the one of a key up to, not including, the one of the next key, the level to be shown is
      the level at that key. */
  lemma {:induction false} SettledLevel(dense: Dense, keys: seq<real>, cases: seq<Case>, i: nat, b: int)
    requires KeysOf(keys, cases) && StepOk(dense) && i < |keys|
    requires Bucket(dense, keys[i]) <= b && (i + 1 < |keys| ==> b < Bucket(dense, keys[i + 1]))
    ensures LevelAt(cases, keys[i]) == BucketLevel(dense, cases, b)
  {
    forall j | 0 <= j < |cases| ensures Separates(dense, cases[j], keys[i], b) {
      TimesAreKeys(keys, cases, j);
      BucketSide(dense, keys, cases, i, b, cases[j].start);
      BucketSide(dense, keys, cases, i, b, cases[j].alloc);
      BucketSide(dense, keys, cases, i, b, cases[j].prefree);
      BucketSide(dense, keys, cases, i, b, cases[j].end);
    }
    BucketOfLevel(dense, cases, keys[i], b);
  }

  lemma {:induction false} BucketSide(dense: Dense, keys: seq<real>, cases: seq<Case>, i: nat, b: int, x: real)
    requires KeysOf(keys, cases) && StepOk(dense) && i < |keys| && x in keys
    requires Bucket(dense, keys[i]) <= b && (i + 1 < |keys| ==> b < Bucket(dense, keys[i + 1]))
    ensures x <= keys[i] <==> Bucket(dense, x) <= b
  {
    KeyFacts(keys, cases);
    var k :| 0 <= k < |keys| && keys[k] == x;
    if k <= i {
      if k < i { assert keys[k] < keys[i]; }
      BucketMonotone(dense, x, keys[i]);
    } else {
      if k > i + 1 { assert keys[i + 1] < keys[k]; }
      BucketMonotone(dense, keys[i + 1], x);
    }
  }

  // ---------------------------------------------------------------------------------------------
  // The lines of the timeline

  /** The test before filling the buckets between p and n; it compares a time with a bucket number. */
  predicate Gap(dense: Dense, p: int, n: int) {
    dense.Some? && Trunc(Start(dense, n)) > p + 1
  }

  /** Bucket b has a line because of key i: the key falls into it, or it is filled after the key's bucket. */
  predicate ShownAfter(dense: Dense, keys: seq<real>, n: nat, i: int, b: int)
    requires StepOk(dense) && 0 <= i < n <= |keys|
  {
    || Bucket(dense, keys[i]) == b
    || (i + 1 < n && Bucket(dense, keys[i]) < b < Bucket(dense, keys[i + 1])
        && Gap(dense, Bucket(dense, keys[i]), Bucket(dense, keys[i + 1])))
  }

  predicate Shown(dense: Dense, keys: seq<real>, n: nat, b: int)
    requires StepOk(dense) && n <= |keys|
  {
    exists i :: 0 <= i < n && ShownAfter(dense, keys, n, i, b)
  }

  /** m is the highest memory in use up to time t, or the maximum of before if that is higher. */
  ghost predicate Peak(m: int, before: int, cases: seq<Case>, t: real) {
    && m >= before
    && (forall x :: 0.0 <= x <= t ==> LevelAt(cases, x).inUse <= m)
    && (m == before || exists x :: 0.0 <= x <= t && LevelAt(cases, x).inUse == m)
  }

  /** The same for all times up to the end of bucket b. */
  ghost predicate BucketPeak(m: int, before: int, dense: Dense, cases: seq<Case>, b: int)
    requires StepOk(dense)
  {
    && m >= before
    && (forall x :: 0.0 <= x && Bucket(dense, x) <= b ==> LevelAt(cases, x).inUse <= m)
    && (m == before || exists x :: 0.0 <= x && Bucket(dense, x) <= b && LevelAt(cases, x).inUse == m)
  }

  /** A line that shows bucket b as it should. */
  ghost predicate Settled(dense: Dense, cases: seq<Case>, before: int, e: Event, b: int)
    requires StepOk(dense)
  {
    && e.time == Start(dense, b)
    && e.level == BucketLevel(dense, cases, b)
    && BucketPeak(e.max, before, dense, cases, b)
  }

  ghost predicate Increasing(s: seq<int>) {
    forall i, j :: 0 <= i < j < |s| ==> s[i] < s[j]
  }

  /** The timeline of one node: its lines show exactly the buckets they should, in order, each as it should. */
  ghost predicate IsTimeline(dense: Dense, cases: seq<Case>, keys: seq<real>, before: int, events: seq<Event>, bs: seq<int>)
    requires StepOk(dense)
  {
    && |events| == |bs| && Increasing(bs)
    && (forall j :: 0 <= j < |events| ==> Settled(dense, cases, before, events[j], bs[j]))
    && (forall b :: b in bs <==> Shown(dense, keys, |keys|, b))
  }

  /** The state of the sweep after n keys: all lines but the last are final, the last may still be replaced. */
  ghost predicate Swept(dense: Dense, cases: seq<Case>, keys: seq<real>, n: nat, before: int,
                        events: seq<Event>, bs: seq<int>, level: Level, max: int)
    requires StepOk(dense)
  {
    && 0 < n <= |keys|
    && |events| == |bs| > 0 && Increasing(bs)
    && (forall j :: 0 <= j < |events| - 1 ==> Settled(dense, cases, before, events[j], bs[j]))
    && events[|events| - 1].time == Start(dense, bs[|bs| - 1])
    && events[|events| - 1].level == level && events[|events| - 1].max == max
    && bs[|bs| - 1] == Bucket(dense, keys[n - 1])
    && level == LevelAt(cases, keys[n - 1])
    && Peak(max, before, cases, keys[n - 1])
    && (forall b :: b in bs <==> Shown(dense, keys, n, b))
  }

  lemma {:induction false} SettledPeak(dense: Dense, keys: seq<real>, cases: seq<Case>, i: nat, m: int, before: int, b: int)
    requires KeysOf(keys, cases) && StepOk(dense) && i < |keys| && Peak(m, before, cases, keys[i])
    requires Bucket(dense, keys[i]) <= b && (i + 1 < |keys| ==> b < Bucket(dense, keys[i + 1]))
    ensures BucketPeak(m, before, dense, cases, b)
  {
    KeyFacts(keys, cases);
    forall x | 0.0 <= x && Bucket(dense, x) <= b ensures LevelAt(cases, x).inUse <= m {
      if x > keys[i] {
        if i + 1 < |keys| && keys[i + 1] <= x { BucketMonotone(dense, keys[i + 1], x); }
        ConstantLevel(keys, cases, i, x);
        assert LevelAt(cases, keys[i]).inUse <= m;
      }
    }
    if m != before {
      var x :| 0.0 <= x <= keys[i] && LevelAt(cases, x).inUse == m;
      BucketMonotone(dense, x, keys[i]);
    }
  }

  lemma {:induction false} NextPeak(keys: seq<real>, cases: seq<Case>, i: nat, m: int, before: int)
    requires KeysOf(keys, cases) && i < |keys|
    requires if i == 0 then m == before else Peak(m, before, cases, keys[i - 1])
    ensures var now := LevelAt(cases, keys[i]).inUse; Peak(if now > m then now else m, before, cases, keys[i])
  {
    KeyFacts(keys, cases);
    var now := LevelAt(cases, keys[i]).inUse;
    forall x | 0.0 <= x <= keys[i] ensures LevelAt(cases, x).inUse <= if now > m then now else m {
      if i > 0 && keys[i - 1] < x < keys[i] { ConstantLevel(keys, cases, i - 1, x); }
    }
  }

  /** The current line becomes final when the next key falls into a later bucket, and so do the filler lines. */
  lemma {:induction false} SettleLine(dense: Dense, keys: seq<real>, cases: seq<Case>, i: nat, before: int, e: Event, b: int)
    requires KeysOf(keys, cases) && StepOk(dense) && i < |keys|
    requires Bucket(dense, keys[i]) <= b && (i + 1 < |keys| ==> b < Bucket(dense, keys[i + 1]))
    requires e.time == Start(dense, b) && e.level == LevelAt(cases, keys[i]) && Peak(e.max, before, cases, keys[i])
    ensures Settled(dense, cases, before, e, b)
  {
    SettledLevel(dense, keys, cases, i, b);
    SettledPeak(dense, keys, cases, i, e.max, before, b);
  }

  /** Lines for the buckets from `lo` to below `hi` that repeat the line before. */
  function Fillers(dense: Dense, prev: Event, lo: int, hi: int): seq<Event> {
    if hi <= lo then [] else seq(hi - lo, q requires 0 <= q < hi - lo => Event(Start(dense, lo + q), None, prev.level, prev.max))
  }

  function Ints(lo: int, hi: int): (s: seq<int>)
    ensures |s| == if hi <= lo then 0 else hi - lo
    ensures forall q :: 0 <= q < |s| ==> s[q] == lo + q
  {
    if hi <= lo then [] else seq(hi - lo, q requires 0 <= q < hi - lo => lo + q)
  }

  lemma {:induction false} IntsContain(lo: int, hi: int, b: int)
    ensures b in Ints(lo, hi) <==> lo <= b < hi
  {
    if lo <= b < hi { assert Ints(lo, hi)[b - lo] == b; }
  }

  lemma {:induction false} ShownSame(dense: Dense, keys: seq<real>, n: nat, b: int)
    requires StepOk(dense) && 0 < n < |keys| && Bucket(dense, keys[n - 1]) == Bucket(dense, keys[n])
    ensures Shown(dense, keys, n + 1, b) <==> Shown(dense, keys, n, b)
  {
    if Shown(dense, keys, n, b) {
      var i :| 0 <= i < n && ShownAfter(dense, keys, n, i, b);
      assert ShownAfter(dense, keys, n + 1, i, b);
    }
    if Shown(dense, keys, n + 1, b) {
      var i :| 0 <= i < n + 1 && ShownAfter(dense, keys, n + 1, i, b);
      var k := if i == n then n - 1 else i;
      assert ShownAfter(dense, keys, n, k, b);
    }
  }

  lemma {:induction false} ShownNext(dense: Dense, keys: seq<real>, n: nat, b: int)
    requires StepOk(dense) && 0 < n < |keys|
    ensures var p, q := Bucket(dense, keys[n - 1]), Bucket(dense, keys[n]);
            Shown(dense, keys, n + 1, b) <==> Shown(dense, keys, n, b) || b == q || (Gap(dense, p, q) && p < b < q)
  {
    var p, q := Bucket(dense, keys[n - 1]), Bucket(dense, keys[n]);
    if Shown(dense, keys, n, b) {
      var i :| 0 <= i < n && ShownAfter(dense, keys, n, i, b);
      assert ShownAfter(dense, keys, n + 1, i, b);
    }
    if b == q { assert ShownAfter(dense, keys, n + 1, n, b); }
    if Gap(dense, p, q) && p < b < q { assert ShownAfter(dense, keys, n + 1, n - 1, b); }
    if Shown(dense, keys, n + 1, b) {
      var i :| 0 <= i < n + 1 && ShownAfter(dense, keys, n + 1, i, b);
      if i < n - 1 { assert ShownAfter(dense, keys, n, i, b); }
      if i == n - 1 && b == p { assert ShownAfter(dense, keys, n, i, b); }
    }
  }

  /** The next key falls into the bucket of the current line: the line is replaced. */
  lemma {:induction false} Coalesce(dense: Dense, cases: seq<Case>, keys: seq<real>, n: nat, before: int,
                 events: seq<Event>, bs: seq<int>, level: Level, max: int, e: Event)
    requires KeysOf(keys, cases) && StepOk(dense) && Swept(dense, cases, keys, n, before, events, bs, level, max)
    requires n < |keys| && Bucket(dense, keys[n]) == bs[|bs| - 1]
    requires e.time == Start(dense, bs[|bs| - 1]) && e.level == LevelAt(cases, keys[n])
    requires Peak(e.max, before, cases, keys[n])
    ensures Swept(dense, cases, keys, n + 1, before, events[|events| - 1 := e], bs, e.level, e.max)
  {
    forall b ensures b in bs <==> Shown(dense, keys, n + 1, b) {
      ShownSame(dense, keys, n, b);
    }
  }

  /** Where the filler lines before bucket q start: right after p, or not at all. */
  function FillFrom(dense: Dense, p: int, q: int): int {
    if Gap(dense, p, q) then p + 1 else q
  }

  lemma {:induction false} AdvanceLines(dense: Dense, cases: seq<Case>, keys: seq<real>, n: nat, before: int,
                     events: seq<Event>, bs: seq<int>, level: Level, max: int, q: int)
    requires KeysOf(keys, cases) && StepOk(dense) && Swept(dense, cases, keys, n, before, events, bs, level, max)
    requires n < |keys| && Bucket(dense, keys[n]) == q > bs[|bs| - 1]
    ensures var p, last := bs[|bs| - 1], events[|events| - 1]; var lo := FillFrom(dense, p, q);
            && |Fillers(dense, last, lo, q)| == |Ints(lo, q)|
            && (forall j :: 0 <= j < |events| ==> Settled(dense, cases, before, events[j], bs[j]))
            && (forall k :: 0 <= k < |Ints(lo, q)| ==>
                  Settled(dense, cases, before, Fillers(dense, last, lo, q)[k], Ints(lo, q)[k]))
  {
    var p, last := bs[|bs| - 1], events[|events| - 1];
    var lo := FillFrom(dense, p, q);
    SettleLine(dense, keys, cases, n - 1, before, last, p);
    var fill, ints := Fillers(dense, last, lo, q), Ints(lo, q);
    forall k | 0 <= k < |ints| ensures Settled(dense, cases, before, fill[k], ints[k]) {
      SettleLine(dense, keys, cases, n - 1, before, fill[k], lo + k);
    }
  }

  lemma {:induction false} AdvanceBuckets(dense: Dense, keys: seq<real>, n: nat, bs: seq<int>)
    requires StepOk(dense) && 0 < n < |keys| && bs != [] && Increasing(bs)
    requires bs[|bs| - 1] == Bucket(dense, keys[n - 1]) < Bucket(dense, keys[n])
    requires forall b :: b in bs <==> Shown(dense, keys, n, b)
    ensures var p, q := bs[|bs| - 1], Bucket(dense, keys[n]);
            var more := bs + Ints(FillFrom(dense, p, q), q) + [q];
            Increasing(more) && forall b :: b in more <==> Shown(dense, keys, n + 1, b)
  {
    var p, q := bs[|bs| - 1], Bucket(dense, keys[n]);
    var ints := Ints(FillFrom(dense, p, q), q);
    var more := bs + ints + [q];
    assert forall i :: 0 <= i < |bs| ==> bs[i] <= p;
    forall b ensures b in more <==> Shown(dense, keys, n + 1, b) {
      ShownNext(dense, keys, n, b);
      IntsContain(FillFrom(dense, p, q), q, b);
      assert b in more <==> b in bs || b in ints || b == q;
    }
  }

  /** The next key falls into a later bucket: the current line is final, the gap is filled if the test says so. */
  lemma {:induction false} Advance(dense: Dense, cases: seq<Case>, keys: seq<real>, n: nat, before: int,
                events: seq<Event>, bs: seq<int>, level: Level, max: int, e: Event)
    requires KeysOf(keys, cases) && StepOk(dense) && Swept(dense, cases, keys, n, before, events, bs, level, max)
    requires n < |keys| && Bucket(dense, keys[n]) > bs[|bs| - 1]
    requires e.time == Start(dense, Bucket(dense, keys[n])) && e.level == LevelAt(cases, keys[n])
    requires Peak(e.max, before, cases, keys[n])
    ensures var p, q := bs[|bs| - 1], Bucket(dense, keys[n]);
            var lo := FillFrom(dense, p, q);
            Swept(dense, cases, keys, n + 1, before, events + Fillers(dense, events[|events| - 1], lo, q) + [e],
                  bs + Ints(lo, q) + [q], e.level, e.max)
  {
    var q := Bucket(dense, keys[n]);
    AdvanceLines(dense, cases, keys, n, before, events, bs, level, max, q);
    AdvanceBuckets(dense, keys, n, bs);
    var lo := FillFrom(dense, bs[|bs| - 1], q);
    LinesAppend(dense, cases, before, events, bs, Fillers(dense, events[|events| - 1], lo, q), Ints(lo, q), e, q);
  }

  lemma {:induction false} LinesAppend(dense: Dense, cases: seq<Case>, before: int, events: seq<Event>, bs: seq<int>,
                    fill: seq<Event>, ints: seq<int>, e: Event, q: int)
    requires StepOk(dense) && |events| == |bs| && |fill| == |ints|
    requires forall j :: 0 <= j < |events| ==> Settled(dense, cases, before, events[j], bs[j])
    requires forall j :: 0 <= j < |fill| ==> Settled(dense, cases, before, fill[j], ints[j])
    ensures var all, marks := events + fill + [e], bs + ints + [q];
            && |all| == |marks| > 0 && all[|all| - 1] == e && marks[|marks| - 1] == q
            && forall j :: 0 <= j < |all| - 1 ==> Settled(dense, cases, before, all[j], marks[j])
  {
  }

  /** After the last key the current line is final too. */
  lemma {:induction false} Finish(dense: Dense, cases: seq<Case>, keys: seq<real>, before: int,
               events: seq<Event>, bs: seq<int>, level: Level, max: int)
    requires KeysOf(keys, cases) && StepOk(dense)
    requires Swept(dense, cases, keys, |keys|, before, events, bs, level, max)
    ensures IsTimeline(dense, cases, keys, before, events, bs)
    ensures level == Zero()
  {
    var n := |keys|;
    SettleLine(dense, keys, cases, n - 1, before, events[|events| - 1], bs[|bs| - 1]);
    forall j | 0 <= j < |cases| ensures cases[j].end <= keys[n - 1] {
      TimesAreKeys(keys, cases, j);
      var k :| 0 <= k < |keys| && keys[k] == cases[j].end;
      if k < n - 1 { assert keys[k] < keys[n - 1]; }
    }
    LevelLast(cases, keys[n - 1]);
  }

  // ---------------------------------------------------------------------------------------------
  // The change that a line shows

  /** Of the first n keys, key i is the last one in bucket b. */
  ghost predicate LastIn(dense: Dense, keys: seq<real>, n: nat, i: int, b: int)
    requires StepOk(dense) && n <= |keys|
  {
    0 <= i < n && Bucket(dense, keys[i]) == b && (i + 1 < n ==> Bucket(dense, keys[i + 1]) > b)
  }

  /** A line shows by how much the requests change at the last key in its bucket; a filler line shows no change, as there
      is no key in its bucket. */
  ghost predicate ChangeOk(dense: Dense, keys: seq<real>, cases: seq<Case>, n: nat, e: Event, b: int)
    requires StepOk(dense) && n <= |keys|
  {
    match e.raw
    case Some(change) => exists i :: LastIn(dense, keys, n, i, b) && change == JumpAt(cases, keys[i]).request
    case None => forall i :: 0 <= i < n ==> Bucket(dense, keys[i]) != b
  }

  ghost predicate ChangesOk(dense: Dense, keys: seq<real>, cases: seq<Case>, n: nat, events: seq<Event>, bs: seq<int>)
    requires StepOk(dense) && n <= |keys|
  {
    |events| == |bs| && forall j :: 0 <= j < |events| ==> ChangeOk(dense, keys, cases, n, events[j], bs[j])
  }

  lemma {:induction false} ChangeLater(dense: Dense, keys: seq<real>, cases: seq<Case>, n: nat, e: Event, b: int)
    requires StepOk(dense) && n < |keys| && ChangeOk(dense, keys, cases, n, e, b) && b < Bucket(dense, keys[n])
    ensures ChangeOk(dense, keys, cases, n + 1, e, b)
  {
    if e.raw.Some? {
      var i :| LastIn(dense, keys, n, i, b) && e.raw.value == JumpAt(cases, keys[i]).request;
      assert LastIn(dense, keys, n + 1, i, b);
    }
  }

  lemma {:induction false} ChangeNow(dense: Dense, keys: seq<real>, cases: seq<Case>, n: nat, e: Event)
    requires StepOk(dense) && n < |keys| && e.raw == Some(JumpAt(cases, keys[n]).request)
    ensures ChangeOk(dense, keys, cases, n + 1, e, Bucket(dense, keys[n]))
  {
    assert LastIn(dense, keys, n + 1, n, Bucket(dense, keys[n]));
  }

  lemma {:induction false} ChangesCoalesce(dense: Dense, keys: seq<real>, cases: seq<Case>, n: nat, events: seq<Event>,
                                           bs: seq<int>, e: Event)
    requires StepOk(dense) && n < |keys| && ChangesOk(dense, keys, cases, n, events, bs) && Increasing(bs) && bs != []
    requires Bucket(dense, keys[n]) == bs[|bs| - 1] && e.raw == Some(JumpAt(cases, keys[n]).request)
    ensures ChangesOk(dense, keys, cases, n + 1, events[|events| - 1 := e], bs)
  {
    ChangeNow(dense, keys, cases, n, e);
    forall j | 0 <= j < |events| - 1 ensures ChangeOk(dense, keys, cases, n + 1, events[j], bs[j]) {
      ChangeLater(dense, keys, cases, n, events[j], bs[j]);
    }
  }

  lemma {:induction false} FillersChangeNothing(dense: Dense, keys: seq<real>, cases: seq<Case>, n: nat, prev: Event, lo: int,
                                                hi: int)
    requires StepOk(dense) && KeysOf(keys, cases) && 0 < n < |keys|
    requires Bucket(dense, keys[n - 1]) < lo && hi == Bucket(dense, keys[n])
    ensures ChangesOk(dense, keys, cases, n + 1, Fillers(dense, prev, lo, hi), Ints(lo, hi))
  {
    var fill, ints := Fillers(dense, prev, lo, hi), Ints(lo, hi);
    forall j, i | 0 <= j < |fill| && 0 <= i < n + 1 ensures Bucket(dense, keys[i]) != ints[j] {
      if i < n { OrderedBuckets(dense, keys, cases, i, n - 1); }
    }
  }

  lemma {:induction false} ChangesAppend(dense: Dense, keys: seq<real>, cases: seq<Case>, n: nat, a: seq<Event>, x: seq<int>,
                                         b: seq<Event>, y: seq<int>)
    requires StepOk(dense) && n <= |keys| && ChangesOk(dense, keys, cases, n, a, x) && ChangesOk(dense, keys, cases, n, b, y)
    ensures ChangesOk(dense, keys, cases, n, a + b, x + y)
  {
  }

  lemma {:induction false} OldChanges(dense: Dense, keys: seq<real>, cases: seq<Case>, n: nat, events: seq<Event>, bs: seq<int>)
    requires StepOk(dense) && n < |keys| && ChangesOk(dense, keys, cases, n, events, bs) && Increasing(bs) && bs != []
    requires bs[|bs| - 1] < Bucket(dense, keys[n])
    ensures ChangesOk(dense, keys, cases, n + 1, events, bs)
  {
    forall j | 0 <= j < |events| ensures ChangeOk(dense, keys, cases, n + 1, events[j], bs[j]) {
      assert bs[j] <= bs[|bs| - 1];
      ChangeLater(dense, keys, cases, n, events[j], bs[j]);
    }
  }

  lemma {:induction false} ChangesAdvance(dense: Dense, keys: seq<real>, cases: seq<Case>, n: nat, events: seq<Event>,
                                          bs: seq<int>, e: Event, lo: int)
    requires StepOk(dense) && KeysOf(keys, cases) && 0 < n < |keys|
    requires ChangesOk(dense, keys, cases, n, events, bs) && Increasing(bs) && bs != []
    requires bs[|bs| - 1] == Bucket(dense, keys[n - 1]) < Bucket(dense, keys[n]) && Bucket(dense, keys[n - 1]) < lo
    requires e.raw == Some(JumpAt(cases, keys[n]).request)
    ensures var q := Bucket(dense, keys[n]);
            ChangesOk(dense, keys, cases, n + 1, events + Fillers(dense, events[|events| - 1], lo, q) + [e], bs + Ints(lo, q) + [q])
  {
    var q, last := Bucket(dense, keys[n]), events[|events| - 1];
    OldChanges(dense, keys, cases, n, events, bs);
    FillersChangeNothing(dense, keys, cases, n, last, lo, q);
    ChangesAppend(dense, keys, cases, n + 1, events, bs, Fillers(dense, last, lo, q), Ints(lo, q));
    ChangeNow(dense, keys, cases, n, e);
    ChangesAppend(dense, keys, cases, n + 1, events + Fillers(dense, last, lo, q), bs + Ints(lo, q), [e], [q]);
  }

  // ---------------------------------------------------------------------------------------------
  // The code

  /** The filler loop. */
  method FillGap(dense: Dense, events: seq<Event>, lo: int, hi: int) returns (filled: seq<Event>)
    requires events != []
    ensures filled == events + Fillers(dense, events[|events| - 1], lo, hi)
  {
    filled := events;
    var prev := events[|events| - 1];
    var i := lo;
    while i < hi
      invariant lo <= i && (if lo <= hi then i <= hi else i == lo)
      invariant filled == events + Fillers(dense, prev, lo, i)
    {
      assert Fillers(dense, prev, lo, i + 1) == Fillers(dense, prev, lo, i) + [Event(Start(dense, i), None, prev.level, prev.max)];
      filled := filled + [Event(Start(dense, i), None, prev.level, prev.max)];
      i := i + 1;
    }
    assert Fillers(dense, prev, lo, hi) == Fillers(dense, prev, lo, i);
  }

  /** Adding a line for bucket q behind one for bucket p: fill the gap if there is one, then replace a line with the
      same time or append. */
  method AddLine(dense: Dense, events: seq<Event>, e: Event, ghost p: int, ghost q: int) returns (more: seq<Event>)
    requires StepOk(dense) && events != [] && 0 <= p <= q
    requires events[|events| - 1].time == Start(dense, p) && e.time == Start(dense, q)
    ensures more == if p == q then events[|events| - 1 := e]
                    else events + Fillers(dense, events[|events| - 1], FillFrom(dense, p, q), q) + [e]
  {
    more := events;
    var last := events[|events| - 1];
    StartExact(dense, p);
    StartExact(dense, q);
    if dense.Some? && Trunc(e.time) > Trunc(TimeInt(dense, last.time)) + 1 {
      more := FillGap(dense, events, Trunc(TimeInt(dense, last.time)) + 1, Trunc(TimeInt(dense, e.time)));
    }
    ghost var fill := Fillers(dense, last, FillFrom(dense, p, q), q);
    assert Trunc(TimeInt(dense, last.time)) == p && Trunc(TimeInt(dense, e.time)) == q;
    if Gap(dense, p, q) {
      assert more == events + Fillers(dense, last, p + 1, q);
    } else {
      assert more == events && fill == [] && events + fill == events;
    }
    if p == q {
      assert fill == [];
    } else {
      StartMonotone(dense, p, q);
      if fill != [] { StartMonotone(dense, q - 1, q); }
    }
    if e.time == more[|more| - 1].time {
      more := more[|more| - 1 := e];
    } else {
      more := more + [e];
    }
  }

  lemma {:induction false} LastBucket(keys: seq<real>, n: nat, dense: Dense, cases: seq<Case>)
    requires KeysOf(keys, cases) && StepOk(dense) && n < |keys|
    ensures 0 <= Bucket(dense, keys[n])
    ensures n > 0 ==> Bucket(dense, keys[n - 1]) <= Bucket(dense, keys[n])
  {
    KeyFacts(keys, cases);
    BucketMonotone(dense, 0.0, keys[n]);
    if n > 0 { BucketMonotone(dense, keys[n - 1], keys[n]); }
  }

  lemma {:induction false} KeyChanges(dense: Dense, cases: seq<Case>, keys: seq<real>, n: nat, events: seq<Event>, bs: seq<int>,
                                      e: Event, p: int, q: int)
    requires StepOk(dense) && KeysOf(keys, cases) && 0 < n < |keys| && p == Bucket(dense, keys[n - 1]) <= q == Bucket(dense, keys[n])
    requires ChangesOk(dense, keys, cases, n, events, bs) && Increasing(bs) && bs != [] && bs[|bs| - 1] == p
    requires e.raw == Some(JumpAt(cases, keys[n]).request)
    ensures p == q ==> ChangesOk(dense, keys, cases, n + 1, events[|events| - 1 := e], bs)
    ensures p < q ==>
              ChangesOk(dense, keys, cases, n + 1, events + Fillers(dense, events[|events| - 1], FillFrom(dense, p, q), q) + [e],
                        bs + Ints(FillFrom(dense, p, q), q) + [q])
  {
    if p == q {
      ChangesCoalesce(dense, keys, cases, n, events, bs, e);
    } else {
      ChangesAdvance(dense, keys, cases, n, events, bs, e, FillFrom(dense, p, q));
    }
  }

  /** One key more. */
  lemma {:induction false} OneKey(dense: Dense, cases: seq<Case>, keys: seq<real>, n: nat, before: int, events: seq<Event>, bs: seq<int>,
               level: Level, max: int, e: Event, more: seq<Event>) returns (bs': seq<int>)
    requires KeysOf(keys, cases) && StepOk(dense) && Swept(dense, cases, keys, n, before, events, bs, level, max)
    requires n < |keys| && e.time == Start(dense, Bucket(dense, keys[n])) && e.level == LevelAt(cases, keys[n])
    requires Peak(e.max, before, cases, keys[n])
    requires var p, q := Bucket(dense, keys[n - 1]), Bucket(dense, keys[n]);
             more == if p == q then events[|events| - 1 := e]
                     else events + Fillers(dense, events[|events| - 1], FillFrom(dense, p, q), q) + [e]
    requires ChangesOk(dense, keys, cases, n, events, bs) && e.raw == Some(JumpAt(cases, keys[n]).request)
    ensures Swept(dense, cases, keys, n + 1, before, more, bs', e.level, e.max)
    ensures ChangesOk(dense, keys, cases, n + 1, more, bs')
  {
    LastBucket(keys, n, dense, cases);
    var p, q := Bucket(dense, keys[n - 1]), Bucket(dense, keys[n]);
    KeyChanges(dense, cases, keys, n, events, bs, e, p, q);
    if p == q {
      Coalesce(dense, cases, keys, n, before, events, bs, level, max, e);
      bs' := bs;
    } else {
      Advance(dense, cases, keys, n, before, events, bs, level, max, e);
      bs' := bs + Ints(FillFrom(dense, p, q), q) + [q];
    }
  }

  /** What holds after the first n keys. */
  ghost predicate SweptSoFar(dense: Dense, cases: seq<Case>, keys: seq<real>, n: nat, peak: int,
                             events: seq<Event>, bs: seq<int>, level: Level, max: int)
    requires StepOk(dense) && n <= |keys|
  {
    if n == 0 then events == [] && bs == [] && level == Zero() && max == peak
    else Swept(dense, cases, keys, n, peak, events, bs, level, max) && ChangesOk(dense, keys, cases, n, events, bs)
  }

  lemma {:induction false} SweptLevel(dense: Dense, m: map<real, Level>, keys: seq<real>, cases: seq<Case>, n: nat, peak: int,
                                      events: seq<Event>, bs: seq<int>, level: Level, max: int)
    requires StepOk(dense) && KeysOf(keys, cases) && IsDifferenceMap(m, cases) && n < |keys|
    requires SweptSoFar(dense, cases, keys, n, peak, events, bs, level, max)
    ensures keys[n] in m && LevelAt(cases, keys[n]) == Add(level, m[keys[n]]) && m[keys[n]] == JumpAt(cases, keys[n])
  {
    NextLevel(m, keys, cases, n);
  }

  /** One time in the sweep: the totals and the maximum, */
  method SweepTime(dense: Dense, times: seq<real>, n: nat, change: Level, peak: int, ghost cases: seq<Case>,
                   lines: seq<Event>, before: Level, high: int, ghost marks: seq<int>)
    returns (events: seq<Event>, level: Level, max: int, ghost bs: seq<int>)
    requires StepOk(dense) && KeysOf(times, cases) && n < |times|
    requires SweptSoFar(dense, cases, times, n, peak, lines, marks, before, high)
    requires LevelAt(cases, times[n]) == Add(before, change) && change == JumpAt(cases, times[n])
    ensures SweptSoFar(dense, cases, times, n + 1, peak, events, bs, level, max)
  {
    NextPeak(times, cases, n, high, peak);
    level, max := Add(before, change), high;
    if level.inUse > max { max := level.inUse; }
    var event := Event(IntTime(dense, Trunc(TimeInt(dense, times[n])) as real), Some(change.request), level, max);
    events, bs := SweepLine(dense, times, n, peak, cases, lines, before, high, marks, event);
  }

  /** and the line. */
  method SweepLine(dense: Dense, ghost keys: seq<real>, ghost n: nat, ghost peak: int, ghost cases: seq<Case>,
                   lines: seq<Event>, ghost before: Level, ghost high: int, ghost marks: seq<int>, event: Event)
    returns (events: seq<Event>, ghost bs: seq<int>)
    requires StepOk(dense) && KeysOf(keys, cases) && n < |keys|
    requires SweptSoFar(dense, cases, keys, n, peak, lines, marks, before, high)
    requires event.time == Start(dense, Bucket(dense, keys[n])) && event.level == LevelAt(cases, keys[n])
    requires event.raw == Some(JumpAt(cases, keys[n]).request) && Peak(event.max, peak, cases, keys[n])
    ensures SweptSoFar(dense, cases, keys, n + 1, peak, events, bs, event.level, event.max)
  {
    LastBucket(keys, n, dense, cases);
    if |lines| == 0 {
      events, bs := [event], [Bucket(dense, keys[0])];
      FirstLine(dense, cases, keys, peak, event);
      ChangeNow(dense, keys, cases, 0, event);
    } else {
      LastBucket(keys, n - 1, dense, cases);
      events := AddLine(dense, lines, event, Bucket(dense, keys[n - 1]), Bucket(dense, keys[n]));
      bs := OneKey(dense, cases, keys, n, peak, lines, marks, before, high, event, events);
    }
  }

  /** All times of a node in order. */
  method SweepTimes(dense: Dense, m: map<real, Level>, times: seq<real>, before: Level, peak: int, ghost cases: seq<Case>)
    returns (events: seq<Event>, level: Level, max: int, ghost bs: seq<int>)
    requires StepOk(dense) && KeysOf(times, cases) && IsDifferenceMap(m, cases) && before == Zero()
    ensures SweptSoFar(dense, cases, times, |times|, peak, events, bs, level, max)
  {
    events, bs := [], [];
    level, max := before, peak;
    for n := 0 to |times|
      invariant SweptSoFar(dense, cases, times, n, peak, events, bs, level, max)
    {
      SweptLevel(dense, m, times, cases, n, peak, events, bs, level, max);
      events, level, max, bs := SweepTime(dense, times, n, m[times[n]], peak, cases, events, level, max, bs);
    }
  }

  /** The sweep over the sorted times of one node, with the totals and the maximum the sweep over the nodes before
      has left. The totals come back to zero. */
  method SweepNode(dense: Dense, m: map<real, Level>, before: Level, peak: int, ghost cases: seq<Case>)
    returns (events: seq<Event>, level: Level, max: int, ghost keys: seq<real>, ghost bs: seq<int>)
    requires StepOk(dense) && AllOrdered(cases) && IsDifferenceMap(m, cases) && before == Zero()
    ensures KeysOf(keys, cases) && IsTimeline(dense, cases, keys, peak, events, bs)
    ensures ChangesOk(dense, keys, cases, |keys|, events, bs)
    ensures level == Zero() && keys != [] && Peak(max, peak, cases, keys[|keys| - 1])
  {
    var times := SortKeys(m.Keys);
    keys := times;
    KeyFacts(keys, cases);
    events, level, max, bs := SweepTimes(dense, m, times, before, peak, cases);
    Finish(dense, cases, keys, peak, events, bs, level, max);
  }

  lemma {:induction false} FirstLine(dense: Dense, cases: seq<Case>, keys: seq<real>, before: int, e: Event)
    requires KeysOf(keys, cases) && StepOk(dense) && |keys| > 0
    requires e.time == Start(dense, Bucket(dense, keys[0])) && e.level == LevelAt(cases, keys[0])
    requires Peak(e.max, before, cases, keys[0])
    ensures Swept(dense, cases, keys, 1, before, [e], [Bucket(dense, keys[0])], e.level, e.max)
  {
    forall b ensures b in [Bucket(dense, keys[0])] <==> Shown(dense, keys, 1, b) {
      if b == Bucket(dense, keys[0]) { assert ShownAfter(dense, keys, 1, 0, b); }
    }
  }

  // ---------------------------------------------------------------------------------------------
  // The whole report

  /** The nodes in order of appearance. */
  function NodeList(results: seq<WorkerResult>): seq<string> {
    if results == [] then []
    else
      var before := NodeList(results[..|results| - 1]);
      var node := results[|results| - 1].node;
      if node in before then before else before + [node]
  }

  lemma {:induction false} NodeListOk(results: seq<WorkerResult>)
    ensures Distinct(NodeList(results))
    ensures forall i :: 0 <= i < |results| ==> results[i].node in NodeList(results)
    ensures forall v :: v in NodeList(results) ==> exists i :: 0 <= i < |results| && results[i].node == v
  {
    if results != [] {
      var n := |results| - 1;
      var before := results[..n];
      NodeListOk(before);
      forall i | 0 <= i < |results| ensures results[i].node in NodeList(results) {
        if i < n { assert before[i] == results[i]; }
      }
      forall v | v in NodeList(results) ensures exists i :: 0 <= i < |results| && results[i].node == v {
        if v in NodeList(before) {
          var i :| 0 <= i < |before| && before[i].node == v;
          assert results[i].node == v;
        } else {
          assert results[n].node == v;
        }
      }
    }
  }

  /** In order of appearance: the first result of a node comes before any result of a later node of the list. */
  lemma {:induction false} NodesInOrder(results: seq<WorkerResult>, i: nat, j: nat) returns (p: nat)
    requires i < j < |NodeList(results)|
    ensures p < |results| && results[p].node == NodeList(results)[i]
    ensures forall q :: 0 <= q <= p ==> results[q].node != NodeList(results)[j]
  {
    var front := results[..|results| - 1];
    var before := NodeList(front);
    NodeListOk(front);
    if j < |before| {
      p := NodesInOrder(front, i, j);
      assert forall q :: 0 <= q <= p ==> results[q] == front[q];
    } else {
      assert before[i] in before;
      p :| 0 <= p < |front| && front[p].node == before[i];
      assert forall q :: 0 <= q <= p ==> results[q] == front[q] && front[q].node in before;
    }
  }

  ghost predicate MapsOk(results: seq<WorkerResult>, base: real, maps: map<string, map<real, Level>>)
    requires AllUsable(results, base)
  {
    && (forall v :: v in maps <==> v in NodeList(results))
    && (forall v :: v in maps ==> IsDifferenceMap(maps[v], CasesOf(results, base, v)))
  }

  lemma {:induction false} NodeListStep(results: seq<WorkerResult>, i: nat)
    requires i < |results|
    ensures NodeList(results[..i + 1]) ==
      NodeList(results[..i]) + if results[i].node in NodeList(results[..i]) then [] else [results[i].node]
  {
    var more := results[..i + 1];
    assert more[..i] == results[..i] && more[i] == results[i];
  }

  lemma {:induction false} CasesStep(results: seq<WorkerResult>, base: real, i: nat, node: string)
    requires AllUsable(results, base) && i < |results|
    ensures CasesOf(results[..i + 1], base, node) ==
      CasesOf(results[..i], base, node) + if results[i].node == node then ResolveAll(results[i].cases, base) else []
  {
    var more := results[..i + 1];
    assert more[..i] == results[..i] && more[i] == results[i];
  }

  lemma {:induction false} MapsStep(results: seq<WorkerResult>, base: real, i: nat, maps: map<string, map<real, Level>>, m: map<real, Level>)
    requires AllUsable(results, base) && i < |results| && MapsOk(results[..i], base, maps)
    requires IsDifferenceMap(m, CasesOf(results[..i], base, results[i].node) + ResolveAll(results[i].cases, base))
    ensures MapsOk(results[..i + 1], base, maps[results[i].node := m])
  {
    NodeListStep(results, i);
    var after := maps[results[i].node := m];
    forall v | v in after ensures IsDifferenceMap(after[v], CasesOf(results[..i + 1], base, v)) {
      CasesStep(results, base, i, v);
      if v != results[i].node {
        assert CasesOf(results[..i + 1], base, v) == CasesOf(results[..i], base, v);
      }
    }
  }

  /** The building loops: the nodes in order of appearance, and a difference map for each. */
  method BuildMaps(results: seq<WorkerResult>, base: real) returns (nodes: seq<string>, maps: map<string, map<real, Level>>)
    requires AllUsable(results, base)
    ensures nodes == NodeList(results) && MapsOk(results, base, maps)
  {
    nodes, maps := [], map[];
    for i := 0 to |results|
      invariant nodes == NodeList(results[..i]) && MapsOk(results[..i], base, maps)
    {
      var r := results[i];
      var m;
      if r.node in maps {
        m := maps[r.node];
      } else {
        nodes := nodes + [r.node];
        m := map[0.0 := Zero()];
        FreshNode(results[..i], base, r.node);
      }
      m := EnterResult(m, r.cases, base, CasesOf(results[..i], base, r.node));
      NodeListStep(results, i);
      MapsStep(results, base, i, maps, m);
      maps := maps[r.node := m];
    }
    assert results[..|results|] == results;
  }

  lemma {:induction false} FreshNode(results: seq<WorkerResult>, base: real, node: string)
    requires AllUsable(results, base) && node !in NodeList(results)
    ensures IsDifferenceMap(map[0.0 := Zero()], CasesOf(results, base, node))
  {
    NodeListOk(results);
    NoCases(results, base, node);
    NoJump([], 0.0);
  }

  lemma {:induction false} NoCases(results: seq<WorkerResult>, base: real, node: string)
    requires AllUsable(results, base) && forall k :: 0 <= k < |results| ==> results[k].node != node
    ensures CasesOf(results, base, node) == []
  {
    if results != [] { NoCases(results[..|results| - 1], base, node); }
  }

  method EnterResult(m: map<real, Level>, reports: seq<Report>, base: real, ghost cases: seq<Case>)
    returns (n: map<real, Level>)
    requires forall j :: 0 <= j < |reports| ==> Usable(reports[j], base)
    requires IsDifferenceMap(m, cases)
    ensures IsDifferenceMap(n, cases + ResolveAll(reports, base))
  {
    n := m;
    ghost var all := ResolveAll(reports, base);
    assert cases + all[..0] == cases;
    for j := 0 to |reports|
      invariant IsDifferenceMap(n, cases + all[..j])
    {
      var c := Resolve(reports[j], base);
      ghost var before := n;
      n := EnterCase(n, c);
      EnteredCase(before, cases + all[..j], c, n);
      assert (cases + all[..j]) + [c] == cases + all[..j + 1];
    }
    assert all[..|reports|] == all;
  }

  /** What is known about one node's lines: the keys of its difference map and the buckets of its lines. */
  ghost predicate NodeTimeline(dense: Dense, cases: seq<Case>, before: int, after: int, events: seq<Event>)
    requires StepOk(dense)
  {
    exists keys, bs :: TimelineOver(dense, cases, before, after, events, keys, bs)
  }

  ghost predicate TimelineOver(dense: Dense, cases: seq<Case>, before: int, after: int, events: seq<Event>,
                               keys: seq<real>, bs: seq<int>)
    requires StepOk(dense)
  {
    && KeysOf(keys, cases) && keys != []
    && IsTimeline(dense, cases, keys, before, events, bs)
    && ChangesOk(dense, keys, cases, |keys|, events, bs)
    && Peak(after, before, cases, keys[|keys| - 1])
  }

  ghost predicate NodesDone(results: seq<WorkerResult>, base: real, dense: Dense, n: nat, nodes: seq<string>,
                            events: map<string, seq<Event>>, peaks: seq<int>)
    requires AllUsable(results, base) && StepOk(dense) && n <= |nodes|
  {
    && |peaks| == n + 1 && peaks[0] == 0
    && (forall k :: 0 <= k < n ==>
          nodes[k] in events &&
          NodeTimeline(dense, CasesOf(results, base, nodes[k]), peaks[k], peaks[k + 1], events[nodes[k]]))
  }

  lemma {:induction false} NodeDone(results: seq<WorkerResult>, base: real, dense: Dense, n: nat, nodes: seq<string>,
                 events: map<string, seq<Event>>, peaks: seq<int>, lines: seq<Event>, max: int)
    requires AllUsable(results, base) && StepOk(dense) && n < |nodes| && Distinct(nodes)
    requires NodesDone(results, base, dense, n, nodes, events, peaks)
    requires NodeTimeline(dense, CasesOf(results, base, nodes[n]), peaks[n], max, lines)
    ensures NodesDone(results, base, dense, n + 1, nodes, events[nodes[n] := lines], peaks + [max])
  {
    forall k | 0 <= k < n ensures nodes[k] != nodes[n] && (peaks + [max])[k + 1] == peaks[k + 1] {}
  }

  /** __build_timeline(): one timeline per node, exact for each although the totals are never reset; the maximum of
      a node starts from the peak of the nodes before it. */
  method BuildTimeline(results: seq<WorkerResult>, base: real, dense: Dense)
    returns (nodes: seq<string>, events: map<string, seq<Event>>, peaks: seq<int>)
    requires AllUsable(results, base) && StepOk(dense)
    ensures nodes == NodeList(results)
    ensures NodesDone(results, base, dense, |nodes|, nodes, events, peaks)
  {
    var maps;
    nodes, maps := BuildMaps(results, base);
    NodeListOk(results);
    events, peaks := map[], [0];
    var level, max := Zero(), 0;
    for k := 0 to |nodes|
      invariant level == Zero() && NodesDone(results, base, dense, k, nodes, events, peaks) && max == peaks[k]
    {
      assert nodes[k] in nodes;
      ghost var cases := CasesOf(results, base, nodes[k]);
      var lines;
      ghost var keys, bs;
      lines, level, max, keys, bs := SweepNode(dense, maps[nodes[k]], level, max, cases);
      assert TimelineOver(dense, cases, peaks[k], max, lines, keys, bs);
      NodeDone(results, base, dense, k, nodes, events, peaks, lines, max);
      events := events[nodes[k] := lines];
      peaks := peaks + [max];
    }
  }

  // ---------------------------------------------------------------------------------------------
  // Which buckets have a line

  /** The test passes wherever neighbouring times are more than one bucket apart. */
  predicate JumpsFilled(dense: Dense, keys: seq<real>)
    requires StepOk(dense)
  {
    forall i :: 0 < i < |keys| ==> JumpFilled(dense, keys[i - 1], keys[i])
  }

  predicate JumpFilled(dense: Dense, x: real, y: real)
    requires StepOk(dense)
  {
    Bucket(dense, y) <= Bucket(dense, x) + 1 || Gap(dense, Bucket(dense, x), Bucket(dense, y))
  }

  /** A bucket skipped between two neighbouring keys has no line. */
  lemma {:induction false} SkippedBucket(dense: Dense, keys: seq<real>, cases: seq<Case>, i: nat)
    requires StepOk(dense) && KeysOf(keys, cases) && 0 < i < |keys| && !JumpFilled(dense, keys[i - 1], keys[i])
    ensures var b := Bucket(dense, keys[i - 1]) + 1;
            0 <= b <= Bucket(dense, keys[|keys| - 1]) && !Shown(dense, keys, |keys|, b)
  {
    var n := |keys|;
    var b := Bucket(dense, keys[i - 1]) + 1;
    LastBucket(keys, i - 1, dense, cases);
    OrderedBuckets(dense, keys, cases, i, n - 1);
    forall k | 0 <= k < n ensures !ShownAfter(dense, keys, n, k, b) {
      if k < i - 1 {
        OrderedBuckets(dense, keys, cases, k, i - 1);
        OrderedBuckets(dense, keys, cases, k + 1, i - 1);
      } else if k >= i {
        OrderedBuckets(dense, keys, cases, i, k);
      }
    }
  }

  lemma {:induction false} FilledBucket(dense: Dense, keys: seq<real>, cases: seq<Case>, b: int)
    requires StepOk(dense) && KeysOf(keys, cases) && keys != [] && JumpsFilled(dense, keys)
    requires 0 <= b <= Bucket(dense, keys[|keys| - 1])
    ensures Shown(dense, keys, |keys|, b)
  {
    KeyFacts(keys, cases);
    BucketAtZero(dense);
    var i := LastNotAbove(dense, keys, cases, b);
    if i + 1 < |keys| { assert JumpFilled(dense, keys[i + 1 - 1], keys[i + 1]); }
    assert ShownAfter(dense, keys, |keys|, i, b);
  }

  /** Every bucket from 0 to the last one has a line exactly if the test passes at every jump over buckets. */
  lemma {:induction false} EveryBucketIff(dense: Dense, keys: seq<real>, cases: seq<Case>)
    requires StepOk(dense) && KeysOf(keys, cases) && keys != []
    ensures (forall b :: 0 <= b <= Bucket(dense, keys[|keys| - 1]) ==> Shown(dense, keys, |keys|, b))
       <==> JumpsFilled(dense, keys)
  {
    if JumpsFilled(dense, keys) {
      forall b | 0 <= b <= Bucket(dense, keys[|keys| - 1]) ensures Shown(dense, keys, |keys|, b) {
        FilledBucket(dense, keys, cases, b);
      }
    } else {
      var i :| 0 < i < |keys| && !JumpFilled(dense, keys[i - 1], keys[i]);
      SkippedBucket(dense, keys, cases, i);
    }
  }

  lemma {:induction false} BucketAtZero(dense: Dense)
    requires StepOk(dense)
    ensures Bucket(dense, 0.0) == 0
  {
    if dense.Some? { assert 0.0 / dense.value == 0.0; }
  }

  lemma {:induction false} OrderedBuckets(dense: Dense, keys: seq<real>, cases: seq<Case>, i: nat, j: nat)
    requires StepOk(dense) && KeysOf(keys, cases) && i <= j < |keys|
    ensures Bucket(dense, keys[i]) <= Bucket(dense, keys[j])
  {
    KeyFacts(keys, cases);
    if i < j { assert keys[i] < keys[j]; }
    BucketMonotone(dense, keys[i], keys[j]);
  }

  lemma {:induction false} LastNotAbove(dense: Dense, keys: seq<real>, cases: seq<Case>, b: int) returns (i: nat)
    requires StepOk(dense) && KeysOf(keys, cases) && keys != [] && Bucket(dense, keys[0]) <= b
    ensures i < |keys| && Bucket(dense, keys[i]) <= b && (i + 1 < |keys| ==> b < Bucket(dense, keys[i + 1]))
  {
    i := 0;
    while i + 1 < |keys| && Bucket(dense, keys[i + 1]) <= b
      invariant i < |keys| && Bucket(dense, keys[i]) <= b
    {
      i := i + 1;
    }
  }

  /** With a step of at least one second, the test always passes where there is a gap. */
  lemma {:induction false} StepsFromOne(step: real, p: int, q: int)
    requires StepOk(Some(step)) && step >= 1.0 && 0 <= p && p + 1 < q
    ensures Gap(Some(step), p, q)
  {
    StartExact(Some(step), q);
    TimesAtLeast(q as real, step);
    TruncAtLeast(Start(Some(step), q), q);
  }

  lemma {:induction false} TimesAtLeast(q: real, s: real)
    requires q >= 0.0 && s >= 1.0
    ensures q * s >= q
  {
    assert q * s - q == q * (s - 1.0);
    ProductNotNegative(q, s - 1.0);
  }

  lemma {:induction false} TruncAtLeast(x: real, q: int)
    requires q >= 0 && x >= q as real
    ensures Trunc(x) >= q
  {
  }

  lemma {:induction false} AllJumpsFilled(step: real, keys: seq<real>, cases: seq<Case>)
    requires StepOk(Some(step)) && step >= 1.0 && KeysOf(keys, cases)
    ensures JumpsFilled(Some(step), keys)
  {
    var dense := Some(step);
    forall i | 0 < i < |keys| ensures JumpFilled(dense, keys[i - 1], keys[i]) {
      LastBucket(keys, i - 1, dense, cases);
      if Bucket(dense, keys[i]) > Bucket(dense, keys[i - 1]) + 1 {
        StepsFromOne(step, Bucket(dense, keys[i - 1]), Bucket(dense, keys[i]));
      }
    }
  }

  /** With a step below one second it does not, when a case takes two steps: the line between them is missing. */
  lemma {:induction false} SubSecondGap(step: real, c: Case, keys: seq<real>)
    requires 0.0 < step < 1.0 && c == Case(0.0, 0.0, 2.0 * step, 2.0 * step, 1, 0.0) && keys == [0.0, 2.0 * step]
    ensures StepOk(Some(step)) && KeysOf(keys, [c]) && !JumpsFilled(Some(step), keys)
  {
    var dense := Some(step);
    assert step.Floor == 0;
    TwoKeys(c, keys);
    BucketAtZero(dense);
    StartExact(dense, 2);
    assert Start(dense, 2) == keys[1];
    assert !JumpFilled(dense, keys[0], keys[1]);
  }

  lemma {:induction false} TwoKeys(c: Case, keys: seq<real>)
    requires c.start == c.alloc == 0.0 && 0.0 < c.prefree == c.end && keys == [0.0, c.end]
    ensures KeysOf(keys, [c])
  {
    forall t ensures HasTime([c], t) <==> t == 0.0 || t == c.end {
      if t == 0.0 || t == c.end { assert t in Times([c][0]); }
    }
  }

  /** Every bucket up to the last has a line. */
  ghost predicate EveryBucketShown(dense: Dense, keys: seq<real>)
    requires StepOk(dense) && keys != []
  {
    forall b :: 0 <= b <= Bucket(dense, keys[|keys| - 1]) ==> Shown(dense, keys, |keys|, b)
  }

  /** The steps with which a dense timeline has a line for every bucket, whatever the cases: those of one second or
      more. The gap test compares a time with a bucket number. */
  lemma {:induction false} DenseStepsExactly(step: real)
    requires StepOk(Some(step))
    ensures (forall keys, cases :: KeysOf(keys, cases) && keys != [] ==> EveryBucketShown(Some(step), keys))
       <==> step >= 1.0
  {
    var dense := Some(step);
    if step >= 1.0 {
      forall keys, cases | KeysOf(keys, cases) && keys != [] ensures EveryBucketShown(dense, keys) {
        AllJumpsFilled(step, keys, cases);
        EveryBucketIff(dense, keys, cases);
      }
    } else {
      var c, keys := Case(0.0, 0.0, 2.0 * step, 2.0 * step, 1, 0.0), [0.0, 2.0 * step];
      SubSecondGap(step, c, keys);
      EveryBucketIff(dense, keys, [c]);
      assert !EveryBucketShown(dense, keys);
    }
  }

  /** The lines of a dense timeline, for known keys and buckets. */
  lemma {:induction false} DenseBuckets(step: real, cases: seq<Case>, keys: seq<real>, before: int, events: seq<Event>, bs: seq<int>)
    requires StepOk(Some(step)) && step >= 1.0 && KeysOf(keys, cases) && keys != []
    requires IsTimeline(Some(step), cases, keys, before, events, bs)
    ensures |events| == Bucket(Some(step), keys[|keys| - 1]) + 1 == |bs| > 0
    ensures forall b :: 0 <= b < |bs| ==> bs[b] == b
  {
    var dense := Some(step);
    AllJumpsFilled(step, keys, cases);
    EveryBucketIff(dense, keys, cases);
    forall b | b in bs ensures 0 <= b <= Bucket(dense, keys[|keys| - 1]) {
      ShownInRange(dense, keys, cases, b);
    }
    LastBucket(keys, |keys| - 1, dense, cases);
    Consecutive(bs, Bucket(dense, keys[|keys| - 1]));
  }

  /** Line b of a dense timeline. */
  ghost predicate DenseLine(dense: Dense, cases: seq<Case>, before: int, e: Event, b: int)
    requires dense.Some? && StepOk(dense)
  {
    && e.time == b as real * dense.value
    && e.level == BucketLevel(dense, cases, b)
    && BucketPeak(e.max, before, dense, cases, b)
  }

  /** The dense timeline: for a step of at least one second there is one line for each bucket from 0 to the last,
      line b at b steps, showing exactly the cases that cover bucket b. */
  lemma {:induction false} DenseTimeline(step: real, cases: seq<Case>, before: int, after: int, events: seq<Event>)
    requires StepOk(Some(step)) && step >= 1.0 && NodeTimeline(Some(step), cases, before, after, events)
    ensures forall b :: 0 <= b < |events| ==> DenseLine(Some(step), cases, before, events[b], b)
    ensures |events| > 0 && forall i :: 0 <= i < |cases| ==> Bucket(Some(step), cases[i].end) < |events|
    ensures |events| == 1 || exists i :: 0 <= i < |cases| && Bucket(Some(step), cases[i].end) == |events| - 1
  {
    var keys, bs :| TimelineOver(Some(step), cases, before, after, events, keys, bs);
    DenseLines(step, cases, keys, before, events, bs);
    DenseBuckets(step, cases, keys, before, events, bs);
    LastEnd(Some(step), keys, cases);
  }

  lemma {:induction false} DenseLines(step: real, cases: seq<Case>, keys: seq<real>, before: int, events: seq<Event>, bs: seq<int>)
    requires StepOk(Some(step)) && step >= 1.0 && KeysOf(keys, cases) && keys != []
    requires IsTimeline(Some(step), cases, keys, before, events, bs)
    ensures forall b :: 0 <= b < |events| ==> DenseLine(Some(step), cases, before, events[b], b)
  {
    DenseBuckets(step, cases, keys, before, events, bs);
    forall b | 0 <= b < |events| ensures DenseLine(Some(step), cases, before, events[b], b) {
      DenseOne(Some(step), cases, before, events[b], bs[b]);
    }
  }

  lemma {:induction false} DenseOne(dense: Dense, cases: seq<Case>, before: int, e: Event, b: int)
    requires dense.Some? && StepOk(dense) && b >= 0 && Settled(dense, cases, before, e, b)
    ensures DenseLine(dense, cases, before, e, b)
  {
    StartExact(dense, b);
  }

  lemma {:induction false} ShownInRange(dense: Dense, keys: seq<real>, cases: seq<Case>, b: int)
    requires StepOk(dense) && KeysOf(keys, cases) && keys != [] && Shown(dense, keys, |keys|, b)
    ensures 0 <= b <= Bucket(dense, keys[|keys| - 1])
  {
    var i :| 0 <= i < |keys| && ShownAfter(dense, keys, |keys|, i, b);
    LastBucket(keys, i, dense, cases);
    OrderedBuckets(dense, keys, cases, i, |keys| - 1);
    if i + 1 < |keys| { OrderedBuckets(dense, keys, cases, i + 1, |keys| - 1); }
  }

  /** The last bucket is the one of the last end of a case, or 0 if there are no cases. */
  lemma {:induction false} LastEnd(dense: Dense, keys: seq<real>, cases: seq<Case>)
    requires StepOk(dense) && KeysOf(keys, cases) && keys != []
    ensures var last := Bucket(dense, keys[|keys| - 1]);
            && (forall i :: 0 <= i < |cases| ==> Bucket(dense, cases[i].end) <= last)
            && (last == 0 || exists i :: 0 <= i < |cases| && Bucket(dense, cases[i].end) == last)
  {
    var n := |keys| - 1;
    forall i | 0 <= i < |cases| ensures cases[i].end <= keys[n] && Bucket(dense, cases[i].end) <= Bucket(dense, keys[n]) {
      TimesAreKeys(keys, cases, i);
      var k :| 0 <= k < |keys| && keys[k] == cases[i].end;
      if k < n { assert keys[k] < keys[n]; }
      OrderedBuckets(dense, keys, cases, k, n);
    }
    assert keys[n] in keys;
    if keys[n] == 0.0 {
      BucketAtZero(dense);
    } else {
      var i :| 0 <= i < |cases| && keys[n] in Times(cases[i]);
      assert Ordered(cases[i]) && cases[i].end <= keys[n];
      assert cases[i].end == keys[n];
    }
  }

  lemma {:induction false} AtLeastIndex(bs: seq<int>, i: nat)
    requires Increasing(bs) && i < |bs| && forall k :: 0 <= k < |bs| ==> bs[k] >= 0
    ensures bs[i] >= i
  {
    if i > 0 {
      AtLeastIndex(bs, i - 1);
      assert bs[i - 1] < bs[i];
    }
  }

  /** An increasing list of exactly the numbers 0..last is [0, 1, ..., last]. */
  lemma {:induction false} Consecutive(bs: seq<int>, last: int)
    requires Increasing(bs) && last >= 0
    requires forall b :: b in bs <==> 0 <= b <= last
    ensures |bs| == last + 1 && forall b :: 0 <= b <= last ==> bs[b] == b
  {
    forall k | 0 <= k < |bs| ensures 0 <= bs[k] <= last { assert bs[k] in bs; }
    var b := 0;
    while b <= last
      invariant 0 <= b <= last + 1 && b <= |bs|
      invariant forall k :: 0 <= k < b ==> bs[k] == k
    {
      assert b in bs;
      var k :| 0 <= k < |bs| && bs[k] == b;
      assert b == k || bs[b] < bs[k];
      AtLeastIndex(bs, b);
      b := b + 1;
    }
    AtLeastIndex(bs, |bs| - 1);
  }
}

/** The memory timeline in terms of the reports themselves (memory_reporter.__build_timeline). */
module TimelineReport {
  import opened Basics
  import opened Timeline
  import opened TimelineSweep

  /** The working stage of a report: from the end of the allocation to the beginning of freeing, or all its time. */
  function WorkFrom(r: Report): real {
    match r.stages case Some((alloc, _)) => alloc case None => r.start
  }

  function WorkTo(r: Report): real {
    match r.stages case Some((_, prefree)) => prefree case None => r.end
  }

  /** The reports the code can handle: not before the first pod start, stages in order, some time to work in. */
  lemma {:induction false} UsableExactly(r: Report, base: real)
    ensures Usable(r, base) <==> base <= r.start <= WorkFrom(r) < WorkTo(r) <= r.end
  {
  }

  /** What a report says of time t after the base: its size requested until it begins to free, its size in use from the
      end of the allocation to its end, and in between one job, working at pages per second. */
  function ReportAt(r: Report, base: real, t: real): Level
    requires WorkFrom(r) < WorkTo(r)
  {
    var now := base + t;
    Level(if r.start <= now < WorkTo(r) then r.size else 0,
          if WorkFrom(r) <= now < r.end then r.size else 0,
          if WorkFrom(r) <= now < WorkTo(r) then 1 else 0,
          if WorkFrom(r) <= now < WorkTo(r) then r.pages as real / (WorkTo(r) - WorkFrom(r)) else 0.0)
  }

  /** Bucket b is at or after the one of time x, and before the one of time y. */
  predicate Within(dense: Dense, base: real, x: real, b: int, y: real)
    requires StepOk(dense)
  {
    Bucket(dense, x - base) <= b < Bucket(dense, y - base)
  }

  /** The same for a bucket, all times being rounded down to buckets. */
  function ReportIn(r: Report, base: real, dense: Dense, b: int): Level
    requires WorkFrom(r) < WorkTo(r) && StepOk(dense)
  {
    Level(if Within(dense, base, r.start, b, WorkTo(r)) then r.size else 0,
          if Within(dense, base, WorkFrom(r), b, r.end) then r.size else 0,
          if Within(dense, base, WorkFrom(r), b, WorkTo(r)) then 1 else 0,
          if Within(dense, base, WorkFrom(r), b, WorkTo(r)) then r.pages as real / (WorkTo(r) - WorkFrom(r)) else 0.0)
  }

  lemma {:induction false} ResolvedAt(r: Report, base: real, t: real)
    requires Usable(r, base)
    ensures WorkFrom(r) < WorkTo(r) && At(Resolve(r, base), t) == ReportAt(r, base, t)
  {
    UsableExactly(r, base);
    ResolvedRate(r, base);
  }

  lemma {:induction false} ResolvedRate(r: Report, base: real)
    requires Usable(r, base)
    ensures Resolve(r, base).rate == r.pages as real / (WorkTo(r) - WorkFrom(r))
  {
    var c := Resolve(r, base);
    assert c.prefree - c.alloc == WorkTo(r) - WorkFrom(r);
  }

  lemma {:induction false} ResolvedIn(r: Report, base: real, dense: Dense, b: int)
    requires Usable(r, base) && StepOk(dense)
    ensures WorkFrom(r) < WorkTo(r) && At(Quantised(dense, Resolve(r, base)), b as real) == ReportIn(r, base, dense, b)
  {
    UsableExactly(r, base);
    ResolvedRate(r, base);
  }

  // ---------------------------------------------------------------------------------------------
  // Sums over the reports of a node

  predicate InOrder(r: Report) { WorkFrom(r) < WorkTo(r) }

  predicate AllInOrder(reports: seq<Report>) {
    forall i :: 0 <= i < |reports| ==> InOrder(reports[i])
  }

  /** All reports of the pods on a node. */
  function ReportsOf(results: seq<WorkerResult>, node: string): seq<Report> {
    if results == [] then []
    else
      var last := results[|results| - 1];
      ReportsOf(results[..|results| - 1], node) + if last.node == node then last.cases else []
  }

  function ReportsAt(reports: seq<Report>, base: real, t: real): Level
    requires AllInOrder(reports)
  {
    if reports == [] then Zero()
    else
      var n := |reports| - 1;
      assert InOrder(reports[n]);
      Add(ReportsAt(reports[..n], base, t), ReportAt(reports[n], base, t))
  }

  function ReportsIn(reports: seq<Report>, base: real, dense: Dense, b: int): Level
    requires AllInOrder(reports) && StepOk(dense)
  {
    if reports == [] then Zero()
    else
      var n := |reports| - 1;
      assert InOrder(reports[n]);
      Add(ReportsIn(reports[..n], base, dense, b), ReportIn(reports[n], base, dense, b))
  }

  /** A report is there exactly if a worker on the node made it. */
  lemma {:induction false} ReportsOfMember(results: seq<WorkerResult>, node: string, r: Report)
    ensures r in ReportsOf(results, node) <==> exists i :: 0 <= i < |results| && results[i].node == node && r in results[i].cases
  {
    if results != [] {
      var n := |results| - 1;
      ReportsOfMember(results[..n], node, r);
      if exists i :: 0 <= i < |results| && results[i].node == node && r in results[i].cases {
        var i :| 0 <= i < |results| && results[i].node == node && r in results[i].cases;
        if i < n { assert results[..n][i] == results[i]; }
      }
      if r in ReportsOf(results[..n], node) {
        var i :| 0 <= i < n && results[..n][i].node == node && r in results[..n][i].cases;
        assert results[i].node == node && r in results[i].cases;
      }
    }
  }

  lemma {:induction false} UsableReports(results: seq<WorkerResult>, base: real, node: string)
    requires AllUsable(results, base)
    ensures forall j :: 0 <= j < |ReportsOf(results, node)| ==> Usable(ReportsOf(results, node)[j], base)
    ensures AllInOrder(ReportsOf(results, node))
  {
    var reports := ReportsOf(results, node);
    forall j | 0 <= j < |reports| ensures Usable(reports[j], base) && InOrder(reports[j]) {
      ReportsOfMember(results, node, reports[j]);
      var i :| 0 <= i < |results| && results[i].node == node && reports[j] in results[i].cases;
      var k :| 0 <= k < |results[i].cases| && results[i].cases[k] == reports[j];
      assert Usable(results[i].cases[k], base);
      UsableExactly(reports[j], base);
    }
  }

  /** The cases of a node are its reports, resolved. */
  lemma {:induction false} CasesAreReports(results: seq<WorkerResult>, base: real, node: string)
    requires AllUsable(results, base)
    requires forall j :: 0 <= j < |ReportsOf(results, node)| ==> Usable(ReportsOf(results, node)[j], base)
    ensures CasesOf(results, base, node) == ResolveAll(ReportsOf(results, node), base)
  {
    if results != [] {
      var n := |results| - 1;
      UsableReports(results[..n], base, node);
      CasesAreReports(results[..n], base, node);
    }
  }

  lemma {:induction false} LevelAppend(cases: seq<Case>, c: Case, t: real)
    ensures LevelAt(cases + [c], t) == Add(LevelAt(cases, t), At(c, t))
  {
    var more := cases + [c];
    var levels := seq(|cases|, i requires 0 <= i < |cases| => At(cases[i], t));
    SumAppend(levels, At(c, t));
    assert seq(|more|, i requires 0 <= i < |more| => At(more[i], t)) == levels + [At(c, t)];
  }

  lemma {:induction false} ResolveAppend(reports: seq<Report>, base: real, n: nat)
    requires |reports| == n + 1 && forall j :: 0 <= j < |reports| ==> Usable(reports[j], base)
    ensures ResolveAll(reports, base) == ResolveAll(reports[..n], base) + [Resolve(reports[n], base)]
  {
  }

  lemma {:induction false} LevelOfReports(reports: seq<Report>, base: real, t: real)
    requires AllInOrder(reports) && forall j :: 0 <= j < |reports| ==> Usable(reports[j], base)
    ensures LevelAt(ResolveAll(reports, base), t) == ReportsAt(reports, base, t)
  {
    if reports != [] {
      var n := |reports| - 1;
      LevelOfReports(reports[..n], base, t);
      ResolveAppend(reports, base, n);
      LevelAppend(ResolveAll(reports[..n], base), Resolve(reports[n], base), t);
      ResolvedAt(reports[n], base, t);
    }
  }

  lemma {:induction false} BucketAppend(dense: Dense, cases: seq<Case>, c: Case, b: int)
    requires StepOk(dense)
    ensures BucketLevel(dense, cases + [c], b) == Add(BucketLevel(dense, cases, b), At(Quantised(dense, c), b as real))
  {
    LevelAppend(AllQuantised(dense, cases), Quantised(dense, c), b as real);
    assert AllQuantised(dense, cases + [c]) == AllQuantised(dense, cases) + [Quantised(dense, c)];
  }

  lemma {:induction false} BucketOfReports(reports: seq<Report>, base: real, dense: Dense, b: int)
    requires StepOk(dense) && AllInOrder(reports) && forall j :: 0 <= j < |reports| ==> Usable(reports[j], base)
    ensures BucketLevel(dense, ResolveAll(reports, base), b) == ReportsIn(reports, base, dense, b)
  {
    if reports != [] {
      var n := |reports| - 1;
      BucketOfReports(reports[..n], base, dense, b);
      ResolveAppend(reports, base, n);
      BucketAppend(dense, ResolveAll(reports[..n], base), Resolve(reports[n], base), b);
      ResolvedIn(reports[n], base, dense, b);
    }
  }

  // ---------------------------------------------------------------------------------------------
  // The lines

  /** What one node's reports say of a bucket, and of a time. */
  function NodeIn(results: seq<WorkerResult>, base: real, node: string, dense: Dense, b: int): Level
    requires StepOk(dense) && AllUsable(results, base)
  {
    UsableReports(results, base, node);
    ReportsIn(ReportsOf(results, node), base, dense, b)
  }

  function NodeAt(results: seq<WorkerResult>, base: real, node: string, t: real): Level
    requires AllUsable(results, base)
  {
    UsableReports(results, base, node);
    ReportsAt(ReportsOf(results, node), base, t)
  }

  lemma {:induction false} NodeLevels(results: seq<WorkerResult>, base: real, node: string, dense: Dense, b: int)
    requires StepOk(dense) && AllUsable(results, base)
    ensures BucketLevel(dense, CasesOf(results, base, node), b) == NodeIn(results, base, node, dense, b)
  {
    UsableReports(results, base, node);
    CasesAreReports(results, base, node);
    BucketOfReports(ReportsOf(results, node), base, dense, b);
  }

  lemma {:induction false} NodeMemory(results: seq<WorkerResult>, base: real, node: string, t: real)
    requires AllUsable(results, base)
    ensures LevelAt(CasesOf(results, base, node), t) == NodeAt(results, base, node, t)
  {
    UsableReports(results, base, node);
    CasesAreReports(results, base, node);
    LevelOfReports(ReportsOf(results, node), base, t);
  }

  /** m is the most memory the node's reports have had in use up to the end of bucket b, or `before` if that is more. */
  ghost predicate MostInUse(m: int, before: int, results: seq<WorkerResult>, base: real, node: string, dense: Dense, b: int)
    requires StepOk(dense) && AllUsable(results, base)
  {
    && m >= before
    && (forall t :: 0.0 <= t && Bucket(dense, t) <= b ==> NodeAt(results, base, node, t).inUse <= m)
    && (m == before || exists t :: 0.0 <= t && Bucket(dense, t) <= b && NodeAt(results, base, node, t).inUse == m)
  }

  /** A line of a node's timeline: it has the time of bucket b and shows what the node's reports say of it. */
  ghost predicate ShowsReports(e: Event, results: seq<WorkerResult>, base: real, node: string, dense: Dense, b: int, before: int)
    requires StepOk(dense) && AllUsable(results, base)
  {
    && e.time == Start(dense, b)
    && e.level == NodeIn(results, base, node, dense, b)
    && MostInUse(e.max, before, results, base, node, dense, b)
  }

  lemma {:induction false} SettledShows(e: Event, results: seq<WorkerResult>, base: real, node: string, dense: Dense, b: int, before: int)
    requires StepOk(dense) && AllUsable(results, base) && Settled(dense, CasesOf(results, base, node), before, e, b)
    ensures ShowsReports(e, results, base, node, dense, b, before)
  {
    NodeLevels(results, base, node, dense, b);
    var cases := CasesOf(results, base, node);
    forall t ensures LevelAt(cases, t) == NodeAt(results, base, node, t) { NodeMemory(results, base, node, t); }
    if e.max != before {
      var t :| 0.0 <= t && Bucket(dense, t) <= b && LevelAt(cases, t).inUse == e.max;
      assert NodeAt(results, base, node, t).inUse == e.max;
    }
  }

  /** With any step: the lines of each node are those of different buckets in order, and each shows what the reports of
      the node say. */
  lemma {:induction false} LinesShowReports(results: seq<WorkerResult>, base: real, dense: Dense, nodes: seq<string>,
                                            events: map<string, seq<Event>>, peaks: seq<int>, k: nat) returns (bs: seq<int>)
    requires AllUsable(results, base) && StepOk(dense) && k < |nodes|
    requires NodesDone(results, base, dense, |nodes|, nodes, events, peaks)
    ensures var lines := events[nodes[k]];
            && |bs| == |lines| && Increasing(bs)
            && forall j :: 0 <= j < |lines| ==> ShowsReports(lines[j], results, base, nodes[k], dense, bs[j], peaks[k])
  {
    var lines, cases := events[nodes[k]], CasesOf(results, base, nodes[k]);
    var keys, marks :| TimelineOver(dense, cases, peaks[k], peaks[k + 1], lines, keys, marks);
    bs := marks;
    forall j | 0 <= j < |lines| ensures ShowsReports(lines[j], results, base, nodes[k], dense, bs[j], peaks[k]) {
      SettledShows(lines[j], results, base, nodes[k], dense, bs[j], peaks[k]);
    }
  }

  /** The last of n lines is that of the last end of a report. */
  ghost predicate LastLine(reports: seq<Report>, base: real, dense: Dense, n: nat)
    requires StepOk(dense)
  {
    && n > 0
    && (forall j :: 0 <= j < |reports| ==> Bucket(dense, reports[j].end - base) < n)
    && (n == 1 || exists j :: 0 <= j < |reports| && Bucket(dense, reports[j].end - base) == n - 1)
  }

  lemma {:induction false} DenseEnd(results: seq<WorkerResult>, base: real, node: string, step: real, n: nat)
    requires AllUsable(results, base) && StepOk(Some(step)) && n > 0
    requires var cases := CasesOf(results, base, node);
             && (forall i :: 0 <= i < |cases| ==> Bucket(Some(step), cases[i].end) < n)
             && (n == 1 || exists i :: 0 <= i < |cases| && Bucket(Some(step), cases[i].end) == n - 1)
    ensures LastLine(ReportsOf(results, node), base, Some(step), n)
  {
    var cases, reports := CasesOf(results, base, node), ReportsOf(results, node);
    UsableReports(results, base, node);
    CasesAreReports(results, base, node);
    assert forall j :: 0 <= j < |reports| ==> cases[j].end == reports[j].end - base;
  }

  lemma {:induction false} DenseCase(cases: seq<Case>, step: real, before: int, after: int, lines: seq<Event>, b: nat)
    requires StepOk(Some(step)) && step >= 1.0 && NodeTimeline(Some(step), cases, before, after, lines) && b < |lines|
    ensures Settled(Some(step), cases, before, lines[b], b)
  {
    var keys, bs :| TimelineOver(Some(step), cases, before, after, lines, keys, bs);
    DenseBuckets(step, cases, keys, before, lines, bs);
  }

  lemma {:induction false} DenseLast(cases: seq<Case>, step: real, before: int, after: int, lines: seq<Event>)
    requires StepOk(Some(step)) && step >= 1.0 && NodeTimeline(Some(step), cases, before, after, lines)
    ensures |lines| > 0 && forall i :: 0 <= i < |cases| ==> Bucket(Some(step), cases[i].end) < |lines|
    ensures |lines| == 1 || exists i :: 0 <= i < |cases| && Bucket(Some(step), cases[i].end) == |lines| - 1
  {
    DenseTimeline(step, cases, before, after, lines);
  }

  /** With a step of at least one second, line b of each node is that of bucket b, and shows what the reports of the node
      say of it. */
  lemma {:induction false} DenseShowsReports(results: seq<WorkerResult>, base: real, step: real, nodes: seq<string>,
                                             events: map<string, seq<Event>>, peaks: seq<int>, k: nat, b: nat)
    requires AllUsable(results, base) && StepOk(Some(step)) && step >= 1.0 && k < |nodes|
    requires NodesDone(results, base, Some(step), |nodes|, nodes, events, peaks) && b < |events[nodes[k]]|
    ensures ShowsReports(events[nodes[k]][b], results, base, nodes[k], Some(step), b, peaks[k])
  {
    var lines, cases := events[nodes[k]], CasesOf(results, base, nodes[k]);
    DenseCase(cases, step, peaks[k], peaks[k + 1], lines, b);
    SettledShows(lines[b], results, base, nodes[k], Some(step), b, peaks[k]);
  }

  /** And the last line is that of the last end of a report of the node. */
  lemma {:induction false} DenseEnds(results: seq<WorkerResult>, base: real, step: real, nodes: seq<string>,
                                     events: map<string, seq<Event>>, peaks: seq<int>, k: nat)
    requires AllUsable(results, base) && StepOk(Some(step)) && step >= 1.0 && k < |nodes|
    requires NodesDone(results, base, Some(step), |nodes|, nodes, events, peaks)
    ensures LastLine(ReportsOf(results, nodes[k]), base, Some(step), |events[nodes[k]]|)
  {
    DenseLast(CasesOf(results, base, nodes[k]), step, peaks[k], peaks[k + 1], events[nodes[k]]);
    DenseEnd(results, base, nodes[k], step, |events[nodes[k]]|);
  }
}

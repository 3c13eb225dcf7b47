/** The CI suite's job directories (run_clusterbuster_job in ci/execution.py, run_clusterbuster_1 in ci/suite.py). */
module CiJobs {
  import opened Basics

  // With an artifact directory. A directory is known by what it is for, not by the spelling of its name.

  datatype Job = Job(workload: string, runtimeclass: string, jobname: string, errorIsFailure: bool)

  /** The full job name: workload, class, counter and job name. */
  datatype Key = Key(workload: string, class_: string, counter: nat, jobname: string)

  function KeyOf(j: Job, counter: nat): Key {
    Key(j.workload, if j.runtimeclass == "" then "runc" else j.runtimeclass, counter, j.jobname)
  }

  /** A job without a runtime class is one of class runc; otherwise two jobs share a name only if they are alike. */
  lemma {:induction false} KeyTells(j: Job, m: nat, k: Job, n: nat)
    ensures KeyOf(j, m) == KeyOf(k, n) <==>
              m == n && j.workload == k.workload && j.jobname == k.jobname
              && (j.runtimeclass == k.runtimeclass || {j.runtimeclass, k.runtimeclass} == {"", "runc"})
  {
    if {j.runtimeclass, k.runtimeclass} == {"", "runc"} && j.runtimeclass != k.runtimeclass {
      assert j.runtimeclass in {"", "runc"} && k.runtimeclass in {"", "runc"};
    }
    if j.runtimeclass == "" { assert "runc" in {j.runtimeclass, k.runtimeclass} <==> k.runtimeclass == "runc"; }
    if k.runtimeclass == "" { assert "runc" in {j.runtimeclass, k.runtimeclass} <==> j.runtimeclass == "runc"; }
  }

  /** X, X.tmp, X.FAIL (number 0) and X.FAIL.n */
  datatype Dir = Final(key: Key) | Tmp(key: Key) | Fail(key: Key, n: nat)

  /** The directories there are, and whether each holds a report. */
  type Artifacts = map<Dir, bool>

  /** What a job's run leaves behind: its status, its temporary directory, and its final one if the driver itself
      put it in place. */
  datatype Outcome = Outcome(status: int, tmp: Option<bool>, final: Option<bool>)

  datatype Config = Config(restart: bool, debugOnly: bool, hardFail: bool)

  /** How a call of run_clusterbuster_job ends: with a status, having run the job or not, or with an exception. */
  datatype Ending = Ended(status: int, ran: bool) | Raised

  predicate HasReport(a: Artifacts, d: Dir) {
    d in a && a[d]
  }

  function Put(a: Artifacts, d: Dir, what: Option<bool>): Artifacts {
    match what case None => a case Some(report) => a[d := report]
  }

  /** The directories after the driver has run. */
  function AfterRun(a: Artifacts, k: Key, o: Outcome): Artifacts {
    Put(Put(a - {Tmp(k)}, Tmp(k), o.tmp), Final(k), o.final)
  }

  // ---------------------------------------------------------------------------------------------
  // A fresh name for a failed job

  /** The first n names for failed runs of a job. */
  function FailNames(k: Key, n: nat): set<Dir> {
    if n == 0 then {} else FailNames(k, n - 1) + {Fail(k, n - 1)}
  }

  lemma {:induction false} FailNamesAre(k: Key, n: nat)
    ensures |FailNames(k, n)| == n
    ensures forall d :: d in FailNames(k, n) <==> d.Fail? && d.key == k && d.n < n
  {
    if n > 0 { FailNamesAre(k, n - 1); }
  }

  /** If the first n names are taken there are at least n directories. */
  lemma {:induction false} TakenNames(a: Artifacts, k: Key, n: nat)
    requires forall i :: 0 <= i < n ==> Fail(k, i) in a
    ensures n <= |a.Keys|
  {
    FailNamesAre(k, n);
    SubsetSize(FailNames(k, n), a.Keys);
  }

  /** The first free name; the search ends because there are finitely many directories. */
  method FreeFailName(a: Artifacts, k: Key) returns (d: Dir)
    ensures d.Fail? && d.key == k && d !in a
    ensures forall i :: 0 <= i < d.n ==> Fail(k, i) in a
  {
    d := Fail(k, 0);
    var idx: nat := 1;
    while d in a
      invariant d == Fail(k, idx - 1) && idx >= 1
      invariant forall i :: 0 <= i < idx - 1 ==> Fail(k, i) in a
      decreases |a.Keys| + 1 - idx
    {
      d := Fail(k, idx);
      idx := idx + 1;
      TakenNames(a, k, idx - 1);
    }
  }

  /** The number of the first free name. */
  ghost predicate FirstFree(a: Artifacts, k: Key, n: nat) {
    Fail(k, n) !in a && forall i :: 0 <= i < n ==> Fail(k, i) in a
  }

  // ---------------------------------------------------------------------------------------------
  // One job

  /** Whether the job is skipped: it has a report, and this is a restart. */
  predicate Skipped(c: Config, a: Artifacts, k: Key) {
    !c.debugOnly && c.restart && HasReport(a, Final(k))
  }

  /** Without a restart a finished job's directory goes first. */
  function Prepared(c: Config, a: Artifacts, k: Key): Artifacts {
    if !c.debugOnly && HasReport(a, Final(k)) then a - {Final(k)} else a
  }

  /** The move of the temporary directory after a run. */
  ghost predicate Filed(before: Artifacts, k: Key, status: int, after: Artifacts) {
    if Tmp(k) !in before then after == before
    else if status == 0 then after == (before - {Tmp(k)})[Final(k) := before[Tmp(k)]]
    else exists n: nat :: FirstFree(before, k, n) && after == (before - {Tmp(k)})[Fail(k, n) := before[Tmp(k)]]
  }

  /** The directories of one run of a job. */
  class Store {
    var dirs: Artifacts

    constructor (a: Artifacts)
      ensures dirs == a
    {
      dirs := a;
    }

    /** shutil.rmtree() */
    method Remove(d: Dir)
      modifies this
      ensures dirs == old(dirs) - {d}
    {
      dirs := dirs - {d};
    }

    method Rename(d: Dir, e: Dir)
      requires d in dirs && e !in dirs
      modifies this
      ensures dirs == (old(dirs) - {d})[e := old(dirs)[d]]
    {
      var report := dirs[d];
      dirs := (dirs - {d})[e := report];
    }

    /** What happens to the directories after the run. */
    method File(k: Key, status: int) returns (raised: bool)
      modifies this
      ensures raised <==> status == 0 && Tmp(k) !in old(dirs) && Final(k) !in old(dirs)
      ensures Filed(old(dirs), k, status, dirs)
    {
      raised := false;
      if status == 0 {
        if Tmp(k) in dirs {
          ghost var before := dirs;
          if Final(k) in dirs { Remove(Final(k)); }
          Rename(Tmp(k), Final(k));
          assert dirs == (before - {Tmp(k)})[Final(k) := before[Tmp(k)]];
        } else if Final(k) !in dirs {
          raised := true;
        }
      } else if Tmp(k) in dirs {
        var d := FreeFailName(dirs, k);
        assert FirstFree(dirs, k, d.n) && d == Fail(k, d.n);
        Rename(Tmp(k), d);
      }
    }

    /** run_clusterbuster_job() */
    method RunJob(c: Config, j: Job, counter: nat, o: Outcome) returns (ending: Ending)
      modifies this
      ensures JobDone(c, old(dirs), j, counter, o, dirs, ending)
    {
      if j.jobname == "" || j.workload == "" {
        ending := Raised;
        return;
      }
      var k := KeyOf(j, counter);
      if !c.debugOnly && Final(k) in dirs && dirs[Final(k)] {
        if c.restart {
          ending := Ended(0, false);
          return;
        }
        Remove(Final(k));
      }
      if c.debugOnly {
        ending := Ended(0, false);
        return;
      }
      assert dirs == Prepared(c, old(dirs), k);
      dirs := AfterRun(dirs, k, o);
      var raised := File(k, o.status);
      ending := if raised then Raised else Ended(o.status, true);
    }
  }

  /** What one call does to the directories, and how it ends. */
  ghost predicate JobDone(c: Config, a: Artifacts, j: Job, counter: nat, o: Outcome, b: Artifacts, ending: Ending) {
    var k := KeyOf(j, counter);
    if j.jobname == "" || j.workload == "" then b == a && ending == Raised
    else if Skipped(c, a, k) || c.debugOnly then b == a && ending == Ended(0, false)
    else
      var run := AfterRun(Prepared(c, a, k), k, o);
      && Filed(run, k, o.status, b)
      && ending == if o.status == 0 && Tmp(k) !in run && Final(k) !in run then Raised else Ended(o.status, true)
  }

  // ---------------------------------------------------------------------------------------------
  // What one call keeps

  /** Other jobs' directories are untouched. */
  lemma {:induction false} OthersUntouched(c: Config, a: Artifacts, j: Job, counter: nat, o: Outcome, b: Artifacts, e: Ending, d: Dir)
    requires JobDone(c, a, j, counter, o, b, e) && d.key != KeyOf(j, counter)
    ensures (d in b <==> d in a) && (d in a ==> b[d] == a[d])
  {
  }

  /** No directory of a failed run is overwritten or lost, and a failed run's temporary directory becomes one. */
  lemma {:induction false} FailuresKept(c: Config, a: Artifacts, j: Job, counter: nat, o: Outcome, b: Artifacts, e: Ending)
    requires JobDone(c, a, j, counter, o, b, e)
    ensures forall d :: d in a && d.Fail? ==> d in b && b[d] == a[d]
    ensures e.Ended? && e.ran && o.status != 0 && o.tmp.Some? ==>
              exists n: nat :: FirstFree(a, KeyOf(j, counter), n) && Fail(KeyOf(j, counter), n) in b
                && b[Fail(KeyOf(j, counter), n)] == o.tmp.value && Tmp(KeyOf(j, counter)) !in b
  {
    var k := KeyOf(j, counter);
    if e.Ended? && e.ran && o.status != 0 && o.tmp.Some? {
      var run := AfterRun(Prepared(c, a, k), k, o);
      var n: nat :| FirstFree(run, k, n) && b == (run - {Tmp(k)})[Fail(k, n) := run[Tmp(k)]];
      assert FirstFree(a, k, n);
    }
  }

  /** In a restart no finished job is lost, whatever the outcome of this one. */
  lemma {:induction false} FinishedKept(c: Config, a: Artifacts, j: Job, counter: nat, o: Outcome, b: Artifacts, e: Ending, k: Key)
    requires JobDone(c, a, j, counter, o, b, e) && c.restart && HasReport(a, Final(k))
    ensures HasReport(b, Final(k))
  {
    if k != KeyOf(j, counter) { OthersUntouched(c, a, j, counter, o, b, e, Final(k)); }
  }

  /** A job that succeeds with a report in its directories is finished. */
  lemma {:induction false} SuccessFinishes(c: Config, a: Artifacts, j: Job, counter: nat, o: Outcome, b: Artifacts, e: Ending)
    requires JobDone(c, a, j, counter, o, b, e) && e == Ended(0, true)
    requires o.tmp == Some(true) || (o.tmp == None && o.final == Some(true))
    ensures HasReport(b, Final(KeyOf(j, counter)))
  {
  }

  // ---------------------------------------------------------------------------------------------
  // The suite

  /** What the suite remembers: the counter, the jobs that ended well or badly, which were run, and whether it has
      given up. `escaped` is an exception that leaves the suite. */
  datatype Suite = Suite(counter: nat, jobs: seq<Key>, failures: seq<Key>, ran: set<nat>, abort: bool, escaped: bool)

  function Fresh(): Suite {
    Suite(0, [], [], {}, false, false)
  }

  /** run_clusterbuster_1() after the job has ended. */
  function Noted(c: Config, s: Suite, j: Job, e: Ending): Suite {
    if e.Raised? then s.(escaped := true)
    else
      var k := KeyOf(j, s.counter);
      var t := s.(counter := s.counter + 1, ran := if e.ran then s.ran + {s.counter} else s.ran);
      if e.status == 0 then t.(jobs := s.jobs + [k])
      else if j.errorIsFailure then t.(failures := s.failures + [k], abort := s.abort || c.hardFail)
      else t
  }

  class Runner {
    var suite: Suite
    const store: Store

    constructor (s: Store)
      ensures suite == Fresh() && store == s
    {
      suite, store := Fresh(), s;
    }

    /** run_clusterbuster_1() */
    method RunOne(c: Config, j: Job, o: Outcome) returns (status: int)
      requires !suite.escaped
      modifies this, store
      ensures OneDone(c, old(suite), old(store.dirs), j, o, suite, store.dirs)
    {
      if suite.abort { return 1; }
      var counter := suite.counter;
      var ending := store.RunJob(c, j, counter, o);
      if ending.Raised? {
        suite := suite.(escaped := true);
        return 1;
      }
      status := ending.status;
      ghost var ran := if ending.ran then suite.ran + {counter} else suite.ran;
      if status == 0 {
        suite := suite.(jobs := suite.jobs + [KeyOf(j, counter)]);
      } else if j.errorIsFailure {
        suite := suite.(failures := suite.failures + [KeyOf(j, counter)]);
        if c.hardFail {
          suite := suite.(abort := true);
        }
      }
      suite := suite.(counter := counter + 1, ran := if ending.ran then suite.ran + {counter} else suite.ran);
      assert suite == Noted(c, old(suite), j, ending);
    }

    /** One more job of the whole list. */
    method RunNext(c: Config, j: Job, o: Outcome, ghost i: nat, ghost list: seq<Job>, ghost outcomes: seq<Outcome>,
                   ghost a: Artifacts)
      requires |outcomes| == |list| && i < |list| && j == list[i] && o == outcomes[i] && !suite.escaped
      requires DoneUpTo(c, a, list, outcomes, i, suite, store.dirs)
      modifies this, store
      ensures DoneUpTo(c, a, list, outcomes, i + 1, suite, store.dirs)
      ensures suite.escaped ==> AllDone(c, a, list, outcomes, suite, store.dirs)
    {
      ghost var s, b := suite, store.dirs;
      var status := RunOne(c, j, o);
      OneMore(c, a, list, outcomes, i, s, b, suite, store.dirs);
      if suite.escaped { EscapedStays(c, a, list, outcomes, i + 1, suite, store.dirs); }
    }

    /** The jobs of one workload, which are those of the whole list from position `from` on. */
    method RunWorkload(c: Config, jobs: seq<Job>, outcomes: seq<Outcome>, from: nat, ghost list: seq<Job>,
                       ghost a: Artifacts)
      requires |outcomes| == |list| && from + |jobs| <= |list| && jobs == list[from..from + |jobs|]
      requires DoneUpTo(c, a, list, outcomes, from, suite, store.dirs) && !suite.escaped
      modifies this, store
      ensures suite.escaped ==> AllDone(c, a, list, outcomes, suite, store.dirs)
      ensures !suite.escaped ==> DoneUpTo(c, a, list, outcomes, from + |jobs|, suite, store.dirs)
    {
      for i := 0 to |jobs|
        invariant DoneUpTo(c, a, list, outcomes, from + i, suite, store.dirs)
        invariant !suite.escaped
      {
        assert jobs[i] == list[from + i];
        RunNext(c, jobs[i], outcomes[from + i], from + i, list, outcomes, a);
        if suite.escaped { return; }
      }
    }

    /** run(): the workloads in order, each with its jobs, up to one that is not supported; an exception ends it. */
    method RunAll(c: Config, workloads: seq<Option<seq<Job>>>, outcomes: seq<Outcome>) returns (status: int)
      requires suite == Fresh() && |outcomes| == |JobsOf(workloads)|
      modifies this, store
      ensures AllDone(c, old(store.dirs), JobsOf(workloads), outcomes, suite, store.dirs)
      ensures status == if suite.failures != [] || suite.escaped || None in workloads then 1 else 0
    {
      ghost var a, list := store.dirs, JobsOf(workloads);
      var done: nat := 0;
      for w := 0 to |workloads|
        invariant done <= |list| && list[done..] == JobsOf(workloads[w..]) && None !in workloads[..w]
        invariant DoneUpTo(c, a, list, outcomes, done, suite, store.dirs)
        invariant !suite.escaped
      {
        NextWorkload(workloads, w);
        if workloads[w].None? {
          WholeList(list, outcomes, done);
          return 1;
        }
        var jobs := workloads[w].value;
        Slices(list, done, jobs, JobsOf(workloads[w + 1..]));
        RunWorkload(c, jobs, outcomes, done, list, a);
        if suite.escaped { return 1; }
        done := done + |jobs|;
      }
      WholeList(list, outcomes, done);
      status := if suite.failures != [] then 1 else 0;
    }
  }

  /** The first n jobs of the list are done. */
  ghost predicate DoneUpTo(c: Config, a: Artifacts, list: seq<Job>, outcomes: seq<Outcome>, n: nat, t: Suite, b: Artifacts)
    requires |outcomes| == |list| && n <= |list|
  {
    AllDone(c, a, list[..n], outcomes[..n], t, b)
  }

  /** The jobs of the workloads before the first that is not supported. */
  function JobsOf(workloads: seq<Option<seq<Job>>>): seq<Job> {
    if workloads == [] || workloads[0].None? then [] else workloads[0].value + JobsOf(workloads[1..])
  }

  lemma {:induction false} NextWorkload(workloads: seq<Option<seq<Job>>>, w: nat)
    requires w < |workloads|
    ensures JobsOf(workloads[w..]) ==
            if workloads[w].None? then [] else workloads[w].value + JobsOf(workloads[w + 1..])
  {
    assert workloads[w..][1..] == workloads[w + 1..];
  }

  lemma {:induction false} Slices(list: seq<Job>, done: nat, jobs: seq<Job>, rest: seq<Job>)
    requires done <= |list| && list[done..] == jobs + rest
    ensures done + |jobs| <= |list| && list[done..done + |jobs|] == jobs && list[done + |jobs|..] == rest
  {
    assert |list| - done == |list[done..]| == |jobs| + |rest|;
    assert list[done..done + |jobs|] == list[done..][..|jobs|] && list[done + |jobs|..] == list[done..][|jobs|..];
  }

  lemma {:induction false} WholeList(list: seq<Job>, outcomes: seq<Outcome>, done: nat)
    requires |outcomes| == |list| && done <= |list| && list[done..] == []
    ensures list[..done] == list && outcomes[..done] == outcomes
  {
    assert |list[done..]| == |list| - done;
  }

  /** One call of run_clusterbuster_1(): nothing once the suite has given up or been left. */
  ghost predicate OneDone(c: Config, s: Suite, a: Artifacts, j: Job, o: Outcome, t: Suite, b: Artifacts) {
    if s.abort || s.escaped then t == s && b == a
    else exists e :: JobDone(c, a, j, s.counter, o, b, e) && t == Noted(c, s, j, e)
  }

  ghost predicate AllDone(c: Config, a: Artifacts, list: seq<Job>, outcomes: seq<Outcome>, t: Suite, b: Artifacts)
    requires |outcomes| == |list|
  {
    if list == [] then t == Fresh() && b == a
    else
      var n := |list| - 1;
      exists s, m :: AllDone(c, a, list[..n], outcomes[..n], s, m) && OneDone(c, s, m, list[n], outcomes[n], t, b)
  }

  lemma {:induction false} OneMore(c: Config, a: Artifacts, list: seq<Job>, outcomes: seq<Outcome>, i: nat,
                s: Suite, m: Artifacts, t: Suite, b: Artifacts)
    requires |outcomes| == |list| && i < |list|
    requires AllDone(c, a, list[..i], outcomes[..i], s, m) && OneDone(c, s, m, list[i], outcomes[i], t, b)
    ensures AllDone(c, a, list[..i + 1], outcomes[..i + 1], t, b)
  {
    assert list[..i + 1][..i] == list[..i] && outcomes[..i + 1][..i] == outcomes[..i];
  }

  lemma {:induction false} EscapedStays(c: Config, a: Artifacts, list: seq<Job>, outcomes: seq<Outcome>, i: nat,
                                        s: Suite, b: Artifacts)
    requires |outcomes| == |list| && i <= |list| && s.escaped
    requires AllDone(c, a, list[..i], outcomes[..i], s, b)
    ensures AllDone(c, a, list, outcomes, s, b)
    decreases |list| - i
  {
    if i == |list| {
      assert list[..i] == list && outcomes[..i] == outcomes;
    } else {
      OneMore(c, a, list, outcomes, i, s, b, s, b);
      EscapedStays(c, a, list, outcomes, i + 1, s, b);
    }
  }

  // ---------------------------------------------------------------------------------------------
  // Whole suites and restarts

  /** Directories of jobs that have not had their turn are as they were. */
  ghost predicate LaterUntouched(a: Artifacts, b: Artifacts, counter: nat) {
    forall d: Dir :: d.key.counter >= counter ==> (d in b <==> d in a) && (d in a ==> b[d] == a[d])
  }

  lemma {:induction false} OneUntouched(c: Config, a: Artifacts, s: Suite, m: Artifacts, j: Job, o: Outcome, t: Suite, b: Artifacts)
    requires OneDone(c, s, m, j, o, t, b) && LaterUntouched(a, m, s.counter)
    ensures s.counter <= t.counter && LaterUntouched(a, b, s.counter + 1)
    ensures t.counter == s.counter ==> t.abort || t.escaped
    ensures t.counter == s.counter || t.counter == s.counter + 1
  {
    if !s.abort && !s.escaped {
      var e :| JobDone(c, m, j, s.counter, o, b, e) && t == Noted(c, s, j, e);
      forall d: Dir | d.key.counter >= s.counter + 1 ensures (d in b <==> d in a) && (d in a ==> b[d] == a[d]) {
        OthersUntouched(c, m, j, s.counter, o, b, e, d);
      }
    }
  }

  /** The jobs that had their turn, and which of them were run: exactly those without a report at the beginning. */
  ghost predicate RunsWhatIsMissing(c: Config, a: Artifacts, list: seq<Job>, t: Suite) {
    && t.counter <= |list| && (!t.abort && !t.escaped ==> t.counter == |list|)
    && (forall k :: k in t.ran ==> k < t.counter)
    && (forall k :: 0 <= k < t.counter ==> (k in t.ran <==> !Skipped(c, a, KeyOf(list[k], k)) && !c.debugOnly))
  }

  lemma {:induction false} OneRunsWhatIsMissing(c: Config, a: Artifacts, list: seq<Job>, s: Suite, m: Artifacts, o: Outcome,
                             t: Suite, b: Artifacts)
    requires list != [] && RunsWhatIsMissing(c, a, list[..|list| - 1], s) && LaterUntouched(a, m, s.counter)
    requires OneDone(c, s, m, list[|list| - 1], o, t, b)
    ensures RunsWhatIsMissing(c, a, list, t)
  {
    var n := |list| - 1;
    if !s.abort && !s.escaped {
      var e :| JobDone(c, m, list[n], s.counter, o, b, e) && t == Noted(c, s, list[n], e);
      assert Final(KeyOf(list[n], n)).key.counter >= s.counter;
      assert Skipped(c, m, KeyOf(list[n], n)) <==> Skipped(c, a, KeyOf(list[n], n));
    }
    forall k | 0 <= k < t.counter && k < n ensures list[k] == list[..n][k] {}
  }

  lemma {:induction false} SuiteRunsWhatIsMissing(c: Config, a: Artifacts, list: seq<Job>, outcomes: seq<Outcome>,
                                                  t: Suite, b: Artifacts)
    requires |outcomes| == |list| && AllDone(c, a, list, outcomes, t, b)
    ensures RunsWhatIsMissing(c, a, list, t) && LaterUntouched(a, b, t.counter + if t.escaped then 1 else 0)
  {
    if list != [] {
      var n := |list| - 1;
      var s, m :| AllDone(c, a, list[..n], outcomes[..n], s, m) && OneDone(c, s, m, list[n], outcomes[n], t, b);
      SuiteRunsWhatIsMissing(c, a, list[..n], outcomes[..n], s, m);
      if s.abort || s.escaped {
        Idle(c, a, list, s, m, outcomes[n], t, b);
      } else {
        OneUntouched(c, a, s, m, list[n], outcomes[n], t, b);
        OneRunsWhatIsMissing(c, a, list, s, m, outcomes[n], t, b);
        NotedCounter(c, s, m, list[n], outcomes[n], t, b);
      }
    }
  }

  lemma {:induction false} NotedCounter(c: Config, s: Suite, m: Artifacts, j: Job, o: Outcome, t: Suite, b: Artifacts)
    requires OneDone(c, s, m, j, o, t, b) && !s.abort && !s.escaped
    ensures t.counter + (if t.escaped then 1 else 0) == s.counter + 1
  {
  }

  /** Once the suite has given up, or an exception has left it, nothing more is run. */
  lemma {:induction false} Idle(c: Config, a: Artifacts, list: seq<Job>, s: Suite, m: Artifacts, o: Outcome, t: Suite, b: Artifacts)
    requires list != [] && RunsWhatIsMissing(c, a, list[..|list| - 1], s) && (s.abort || s.escaped)
    requires OneDone(c, s, m, list[|list| - 1], o, t, b)
    ensures t == s && b == m && RunsWhatIsMissing(c, a, list, t)
  {
    forall k | 0 <= k < t.counter ensures list[k] == list[..|list| - 1][k] {}
  }

  /** A restart that is not cut short runs exactly the jobs whose final directory has no report. */
  lemma {:induction false} RestartRunsExactlyTheUnfinished(c: Config, a: Artifacts, list: seq<Job>, outcomes: seq<Outcome>,
                                        t: Suite, b: Artifacts, k: nat)
    requires |outcomes| == |list| && AllDone(c, a, list, outcomes, t, b) && c.restart && !c.debugOnly
    requires k < |list| && (k < t.counter || (!t.abort && !t.escaped))
    ensures k in t.ran <==> !HasReport(a, Final(KeyOf(list[k], k)))
  {
    SuiteRunsWhatIsMissing(c, a, list, outcomes, t, b);
  }

  /** Over a whole suite: no directory of a failed run is lost or overwritten; in a restart no finished job is lost. */
  lemma {:induction false} SuiteKeeps(c: Config, a: Artifacts, list: seq<Job>, outcomes: seq<Outcome>,
                                      t: Suite, b: Artifacts)
    requires |outcomes| == |list| && AllDone(c, a, list, outcomes, t, b)
    ensures forall d :: d in a && d.Fail? ==> d in b && b[d] == a[d]
    ensures c.restart ==> forall k :: HasReport(a, Final(k)) ==> HasReport(b, Final(k))
  {
    if list != [] {
      var n := |list| - 1;
      var s, m :| AllDone(c, a, list[..n], outcomes[..n], s, m) && OneDone(c, s, m, list[n], outcomes[n], t, b);
      SuiteKeeps(c, a, list[..n], outcomes[..n], s, m);
      if !s.abort && !s.escaped {
        var e :| JobDone(c, m, list[n], s.counter, outcomes[n], b, e) && t == Noted(c, s, list[n], e);
        FailuresKept(c, m, list[n], s.counter, outcomes[n], b, e);
        if c.restart {
          forall k | HasReport(a, Final(k)) ensures HasReport(b, Final(k)) {
            FinishedKept(c, m, list[n], s.counter, outcomes[n], b, e, k);
          }
        }
      }
    }
  }

  /** The states between restarts of one job list, and the suites of the restarts. */
  ghost predicate Restarts(c: Config, list: seq<Job>, states: seq<Artifacts>, suites: seq<Suite>) {
    && c.restart && !c.debugOnly && |states| == |suites| + 1
    && forall i :: 0 <= i < |suites| ==> OneRestart(c, list, states[i], suites[i], states[i + 1])
  }

  ghost predicate OneRestart(c: Config, list: seq<Job>, a: Artifacts, t: Suite, b: Artifacts) {
    exists outcomes :: |outcomes| == |list| && AllDone(c, a, list, outcomes, t, b)
  }

  lemma {:induction false} StaysFinished(c: Config, list: seq<Job>, states: seq<Artifacts>, suites: seq<Suite>,
                                         i: nat, j: nat, k: Key)
    requires Restarts(c, list, states, suites) && i <= j < |states| && HasReport(states[i], Final(k))
    ensures HasReport(states[j], Final(k))
  {
    if i < j {
      StaysFinished(c, list, states, suites, i, j - 1, k);
      assert OneRestart(c, list, states[j - 1], suites[j - 1], states[j]);
      var outcomes :| |outcomes| == |list| && AllDone(c, states[j - 1], list, outcomes, suites[j - 1], states[j]);
      SuiteKeeps(c, states[j - 1], list, outcomes, suites[j - 1], states[j]);
    }
  }

  /** However often the suite is restarted and whatever happens in between: once a job has its report it keeps it, and
      is not run again. */
  lemma {:induction false} FinishedForGood(c: Config, list: seq<Job>, states: seq<Artifacts>, suites: seq<Suite>, i: nat, j: nat, k: nat)
    requires Restarts(c, list, states, suites) && i <= j < |suites| && k < |list|
    requires HasReport(states[i], Final(KeyOf(list[k], k)))
    ensures HasReport(states[j + 1], Final(KeyOf(list[k], k))) && k !in suites[j].ran
  {
    StaysFinished(c, list, states, suites, i, j, KeyOf(list[k], k));
    StaysFinished(c, list, states, suites, i, j + 1, KeyOf(list[k], k));
    assert OneRestart(c, list, states[j], suites[j], states[j + 1]);
    var outcomes :| |outcomes| == |list| && AllDone(c, states[j], list, outcomes, suites[j], states[j + 1]);
    SuiteRunsWhatIsMissing(c, states[j], list, outcomes, suites[j], states[j + 1]);
  }

  /** The suite has given up exactly after the first failure that counts, with hard_fail_on_error; its lists hold at
      most one entry for every job that had its turn. */
  predicate Books(c: Config, t: Suite) {
    && (t.abort <==> c.hardFail && t.failures != [])
    && (t.abort ==> |t.failures| == 1 && t.failures[0].counter + 1 == t.counter)
    && |t.jobs| + |t.failures| <= t.counter
  }

  lemma {:induction false} BooksKept(c: Config, s: Suite, j: Job, e: Ending)
    requires Books(c, s) && !s.abort
    ensures Books(c, Noted(c, s, j, e))
  {
  }

  /** Giving up: only with hard_fail_on_error, at the first failure that counts, which is the last job that had its
      turn; without it the suite never gives up. */
  lemma {:induction false} GivesUpAtFirstFailure(c: Config, a: Artifacts, list: seq<Job>, outcomes: seq<Outcome>,
                                                 t: Suite, b: Artifacts)
    requires |outcomes| == |list| && AllDone(c, a, list, outcomes, t, b)
    ensures Books(c, t)
  {
    if list != [] {
      var n := |list| - 1;
      var s, m :| AllDone(c, a, list[..n], outcomes[..n], s, m) && OneDone(c, s, m, list[n], outcomes[n], t, b);
      GivesUpAtFirstFailure(c, a, list[..n], outcomes[..n], s, m);
      if !s.abort && !s.escaped {
        var e :| JobDone(c, m, list[n], s.counter, outcomes[n], b, e) && t == Noted(c, s, list[n], e);
        BooksKept(c, s, list[n], e);
      }
    }
  }

  // ---------------------------------------------------------------------------------------------
  // Which jobs the suite counts as good or bad

  /** How job k ends: with 0 if it is not run, otherwise as its run does. */
  function StatusOf(c: Config, a: Artifacts, j: Job, k: nat, o: Outcome): int {
    if c.debugOnly || (c.restart && HasReport(a, Final(KeyOf(j, k)))) then 0 else o.status
  }

  /** The first n jobs that ended well, and those whose failure counts, in order. */
  function Good(c: Config, a: Artifacts, list: seq<Job>, outcomes: seq<Outcome>, n: nat): seq<Key>
    requires n <= |list| == |outcomes|
  {
    if n == 0 then []
    else
      Good(c, a, list, outcomes, n - 1)
      + if StatusOf(c, a, list[n - 1], n - 1, outcomes[n - 1]) == 0 then [KeyOf(list[n - 1], n - 1)] else []
  }

  function Bad(c: Config, a: Artifacts, list: seq<Job>, outcomes: seq<Outcome>, n: nat): seq<Key>
    requires n <= |list| == |outcomes|
  {
    if n == 0 then []
    else
      Bad(c, a, list, outcomes, n - 1)
      + if StatusOf(c, a, list[n - 1], n - 1, outcomes[n - 1]) != 0 && list[n - 1].errorIsFailure
        then [KeyOf(list[n - 1], n - 1)] else []
  }

  lemma {:induction false} SamePrefix(c: Config, a: Artifacts, list: seq<Job>, outcomes: seq<Outcome>, m: nat, n: nat)
    requires n <= m <= |list| == |outcomes|
    ensures Good(c, a, list[..m], outcomes[..m], n) == Good(c, a, list, outcomes, n)
    ensures Bad(c, a, list[..m], outcomes[..m], n) == Bad(c, a, list, outcomes, n)
  {
    if n > 0 { SamePrefix(c, a, list, outcomes, m, n - 1); }
  }

  /** The next job enters the list it belongs to. */
  lemma {:induction false} ListsStep(c: Config, a: Artifacts, list: seq<Job>, outcomes: seq<Outcome>, n: nat, s: Suite,
                                     m: Artifacts, t: Suite, b: Artifacts)
    requires n < |list| == |outcomes| && s.counter == n && !s.abort && !s.escaped && LaterUntouched(a, m, n)
    requires s.jobs == Good(c, a, list, outcomes, n) && s.failures == Bad(c, a, list, outcomes, n)
    requires OneDone(c, s, m, list[n], outcomes[n], t, b)
    ensures t.counter <= |list|
    ensures t.jobs == Good(c, a, list, outcomes, t.counter) && t.failures == Bad(c, a, list, outcomes, t.counter)
  {
    var e :| JobDone(c, m, list[n], n, outcomes[n], b, e) && t == Noted(c, s, list[n], e);
    StatusIs(c, a, m, list[n], n, outcomes[n], b, e);
    var j, o := list[n], outcomes[n];
    assert Good(c, a, list, outcomes, n + 1) ==
           Good(c, a, list, outcomes, n) + if StatusOf(c, a, j, n, o) == 0 then [KeyOf(j, n)] else [];
    assert Bad(c, a, list, outcomes, n + 1) ==
           Bad(c, a, list, outcomes, n) + if StatusOf(c, a, j, n, o) != 0 && j.errorIsFailure then [KeyOf(j, n)] else [];
  }

  /** The suite's lists are exactly those of the jobs that had their turn. */
  lemma {:induction false} ListsExactly(c: Config, a: Artifacts, list: seq<Job>, outcomes: seq<Outcome>, t: Suite, b: Artifacts)
    requires |outcomes| == |list| && AllDone(c, a, list, outcomes, t, b)
    ensures t.counter <= |list|
    ensures t.jobs == Good(c, a, list, outcomes, t.counter)
    ensures t.failures == Bad(c, a, list, outcomes, t.counter)
  {
    if list != [] {
      var n := |list| - 1;
      var s, m :| AllDone(c, a, list[..n], outcomes[..n], s, m) && OneDone(c, s, m, list[n], outcomes[n], t, b);
      ListsExactly(c, a, list[..n], outcomes[..n], s, m);
      SamePrefix(c, a, list, outcomes, n, s.counter);
      if !s.abort && !s.escaped {
        SuiteRunsWhatIsMissing(c, a, list[..n], outcomes[..n], s, m);
        ListsStep(c, a, list, outcomes, n, s, m, t, b);
      }
    }
  }

  lemma {:induction false} StatusIs(c: Config, a: Artifacts, m: Artifacts, j: Job, k: nat, o: Outcome, b: Artifacts, e: Ending)
    requires JobDone(c, m, j, k, o, b, e) && LaterUntouched(a, m, k)
    ensures e.Ended? ==> e.status == StatusOf(c, a, j, k, o)
  {
    assert Final(KeyOf(j, k)).key.counter >= k;
  }

  /** The suite's own verdict: a failure was noted exactly if a job that had its turn was run, ended badly, and its errors
      count. */
  lemma {:induction false} FailuresExactly(c: Config, a: Artifacts, list: seq<Job>, outcomes: seq<Outcome>, t: Suite, b: Artifacts)
    requires |outcomes| == |list| && AllDone(c, a, list, outcomes, t, b)
    ensures t.counter <= |list|
    ensures t.failures != [] <==>
              exists k :: 0 <= k < t.counter && StatusOf(c, a, list[k], k, outcomes[k]) != 0 && list[k].errorIsFailure
  {
    ListsExactly(c, a, list, outcomes, t, b);
    SomeBad(c, a, list, outcomes, t.counter);
  }

  lemma {:induction false} SomeBad(c: Config, a: Artifacts, list: seq<Job>, outcomes: seq<Outcome>, n: nat)
    requires n <= |list| == |outcomes|
    ensures Bad(c, a, list, outcomes, n) != [] <==>
              exists k :: 0 <= k < n && StatusOf(c, a, list[k], k, outcomes[k]) != 0 && list[k].errorIsFailure
  {
    if n > 0 { SomeBad(c, a, list, outcomes, n - 1); }
  }

  /** An exception leaves the suite exactly at a job without a name or a workload, or at one that succeeds and leaves no
      directory. */
  lemma {:induction false} EscapesExactly(c: Config, a: Artifacts, j: Job, k: nat, o: Outcome, b: Artifacts, e: Ending)
    requires JobDone(c, a, j, k, o, b, e)
    ensures e.Raised? <==>
      || j.jobname == "" || j.workload == ""
      || (!c.debugOnly && !(c.restart && HasReport(a, Final(KeyOf(j, k))))
          && o.status == 0 && o.tmp.None? && o.final.None?
          && (Final(KeyOf(j, k)) !in a || HasReport(a, Final(KeyOf(j, k)))))
  {
  }
}

/** The verdict on the pods of a run (monitor_pods in driver/monitoring.py). */
module PodMonitor {
  import opened Basics

  // Pods that fail, pods stuck while starting, and completion of workloads that do not report. Splitting a line into its
  // words is left out.

  datatype Phase =
    | Running
    | Pending | ContainerCreating
    | Completed | Succeeded | Terminated
    | Failed | Error | OomKilled
    | Other(text: string)

  predicate IsStarting(p: Phase) { p.Pending? || p.ContainerCreating? }

  predicate IsFinished(p: Phase) { p.Completed? || p.Succeeded? || p.Terminated? }

  predicate IsFailure(p: Phase) { p.Failed? || p.Error? || p.OomKilled? }

  type Pod = string

  /** What the loop sees: a heartbeat with the times it reads (the elapsed time first), a status line with the time
      read if it is progress, or a line that does not have three words. */
  datatype Sight = Tick(now: real, later: real) | Status(pod: Pod, phase: Phase, now: real) | Junk

  datatype Item = Item(sight: Sight, shutdown: bool)

  /** pod_start_timeout, and whether the workload reports its results. */
  datatype Config = Config(timeout: real, reporting: bool)

  datatype Verdict = Watching | ShutDown | Stuck(pods: set<Pod>) | PodFailed(pod: Pod) | Complete

  // ---------------------------------------------------------------------------------------------
  // What has been seen before item n

  /** The phases of the pods: for each the last one reported. */
  function Phases(items: seq<Item>, n: nat): map<Pod, Phase>
    requires n <= |items|
  {
    if n == 0 then map[]
    else
      var before := Phases(items, n - 1);
      if items[n - 1].sight.Status? then before[items[n - 1].sight.pod := items[n - 1].sight.phase] else before
  }

  function StartingIn(m: map<Pod, Phase>): set<Pod> {
    set k | k in m && IsStarting(m[k])
  }

  /** The pods that are starting. */
  function Current(items: seq<Item>, n: nat): set<Pod>
    requires n <= |items|
  {
    StartingIn(Phases(items, n))
  }

  /** The pods that were starting at the last heartbeat. */
  function AtLastTick(items: seq<Item>, n: nat): set<Pod>
    requires n <= |items|
  {
    if n == 0 then {} else if items[n - 1].sight.Tick? then Current(items, n - 1) else AtLastTick(items, n - 1)
  }

  predicate Changes(items: seq<Item>, n: nat)
    requires n < |items| && items[n].sight.Status?
  {
    var m, s := Phases(items, n), items[n].sight;
    !(s.pod in m && m[s.pod] == s.phase)
  }

  /** Progress: a pod came to run or finished, or a heartbeat finds nothing starting, or not what the last one found. */
  predicate Progress(items: seq<Item>, n: nat)
    requires n < |items|
  {
    match items[n].sight
    case Tick(_, _) => Current(items, n) == {} || Current(items, n) != AtLastTick(items, n)
    case Status(_, phase, _) => Changes(items, n) && (phase.Running? || IsFinished(phase))
    case Junk => false
  }

  function TimeOf(s: Sight): real {
    match s case Tick(_, later) => later case Status(_, _, now) => now case Junk => 0.0
  }

  /** The time of the last progress. */
  function LastProgress(items: seq<Item>, start: real, n: nat): real
    requires n <= |items|
  {
    if n == 0 then start
    else if Progress(items, n - 1) then TimeOf(items[n - 1].sight) else LastProgress(items, start, n - 1)
  }

  /** All pods are up, some of them still running. */
  predicate AllUp(m: map<Pod, Phase>) {
    (exists k :: k in m && m[k].Running?) && forall k :: k in m ==> m[k].Running? || IsFinished(m[k])
  }

  predicate IsStuck(c: Config, items: seq<Item>, start: real, n: nat)
    requires n < |items| && items[n].sight.Tick?
  {
    !Progress(items, n) && c.timeout > 0.0 && items[n].sight.now - LastProgress(items, start, n) > c.timeout
  }

  /** What item n leads to. */
  function Outcome(c: Config, items: seq<Item>, start: real, n: nat): Verdict
    requires n < |items|
  {
    if items[n].shutdown then ShutDown
    else
      match items[n].sight
      case Tick(_, _) =>
        if IsStuck(c, items, start, n) then Stuck(Current(items, n))
        else if !c.reporting && AllUp(Phases(items, n)) then Complete else Watching
      case Status(pod, phase, _) => if Changes(items, n) && IsFailure(phase) then PodFailed(pod) else Watching
      case Junk => Watching
  }

  /** Nothing before item n ended the loop. */
  ghost predicate Reached(c: Config, items: seq<Item>, start: real, n: nat)
    requires n <= |items|
  {
    forall i :: 0 <= i < n ==> Outcome(c, items, start, i) == Watching
  }

  // ---------------------------------------------------------------------------------------------
  // The code

  function WithPhase(m: map<Pod, Phase>, running: bool): set<Pod> {
    set k | k in m && (if running then m[k].Running? else !m[k].Running? && !IsFinished(m[k]))
  }

  lemma {:induction false} CountsSayAllUp(m: map<Pod, Phase>)
    ensures |WithPhase(m, true)| > 0 && |WithPhase(m, false)| == 0 <==> AllUp(m)
  {
    var up, other := WithPhase(m, true), WithPhase(m, false);
    if |up| > 0 {
      var k := PickOne(up);
      assert k in m && m[k].Running?;
    }
    if |other| > 0 {
      var k := PickOne(other);
      assert k in m && !m[k].Running? && !IsFinished(m[k]);
    }
    if exists k :: k in m && m[k].Running? {
      var k :| k in m && m[k].Running?;
      assert k in up;
    }
    if !(forall k :: k in m ==> m[k].Running? || IsFinished(m[k])) {
      var k :| k in m && !m[k].Running? && !IsFinished(m[k]);
      assert k in other;
    }
  }

  /** monitor_pods(): the verdict, and how many items it took. */
  method MonitorPods(c: Config, start: real, items: seq<Item>) returns (verdict: Verdict, used: nat)
    ensures used <= |items| && Reached(c, items, start, used)
    ensures verdict == if used < |items| then Outcome(c, items, start, used) else Watching
    ensures used < |items| ==> verdict != Watching
  {
    var podPhases: map<Pod, Phase> := map[];
    var lastStartingSet: set<Pod> := {};
    var lastProgressTime := start;
    used, verdict := 0, Watching;
    while used < |items|
      invariant used <= |items| && Reached(c, items, start, used)
      invariant verdict == Watching
      invariant podPhases == Phases(items, used) && lastStartingSet == AtLastTick(items, used)
      invariant lastProgressTime == LastProgress(items, start, used)
    {
      if items[used].shutdown {
        verdict := ShutDown;
        return;
      }
      match items[used].sight {
        case Tick(now, later) =>
          var elapsed := now - lastProgressTime;
          var currentStarting := set k | k in podPhases && IsStarting(podPhases[k]);
          if currentStarting != {} && currentStarting == lastStartingSet {
            if c.timeout > 0.0 && elapsed > c.timeout {
              verdict := Stuck(currentStarting);
              return;
            }
          } else {
            lastStartingSet := currentStarting;
            lastProgressTime := later;
          }
          if !c.reporting {
            var running := |WithPhase(podPhases, true)|;
            var other := |WithPhase(podPhases, false)|;
            CountsSayAllUp(podPhases);
            if |podPhases| > 0 && running > 0 && other == 0 {
              verdict := Complete;
              return;
            }
          }
        case Status(pod, phase, now) =>
          if !(pod in podPhases && podPhases[pod] == phase) {
            podPhases := podPhases[pod := phase];
            if IsFailure(phase) {
              verdict := PodFailed(pod);
              return;
            }
            if phase.Running? || IsFinished(phase) {
              lastProgressTime := now;
            }
          }
        case Junk =>
      }
      used := used + 1;
    }
  }

  // ---------------------------------------------------------------------------------------------
  // Main results

  /** At the head of the loop no pod is known to have failed. */
  lemma {:induction false} NoFailureStored(c: Config, items: seq<Item>, start: real, n: nat)
    requires n <= |items| && Reached(c, items, start, n)
    ensures forall k :: k in Phases(items, n) ==> !IsFailure(Phases(items, n)[k])
  {
    if n > 0 {
      NoFailureStored(c, items, start, n - 1);
      assert Outcome(c, items, start, n - 1) == Watching;
    }
  }

  /** So skipping unchanged phases hides no failure: the first line that reports a failed pod is the verdict. */
  lemma {:induction false} FailureNeverHidden(c: Config, items: seq<Item>, start: real, n: nat)
    requires n < |items| && Reached(c, items, start, n) && items[n].sight.Status? && !items[n].shutdown
    ensures Outcome(c, items, start, n) ==
      if IsFailure(items[n].sight.phase) then PodFailed(items[n].sight.pod) else Watching
  {
    NoFailureStored(c, items, start, n);
  }

  /** Every heartbeat of items lo..hi found exactly these pods starting. */
  ghost predicate SameStarting(items: seq<Item>, lo: nat, hi: nat, pods: set<Pod>)
    requires hi <= |items|
  {
    forall i :: lo <= i < hi && items[i].sight.Tick? ==> Current(items, i) == pods
  }

  /** No pod came to run or finished in items lo..hi. */
  ghost predicate NoneUp(items: seq<Item>, lo: nat, hi: nat)
    requires hi <= |items|
  {
    forall i :: lo <= i < hi && items[i].sight.Status? ==>
      !(Changes(items, i) && (items[i].sight.phase.Running? || IsFinished(items[i].sight.phase)))
  }

  /** The clock does not run backwards. */
  ghost predicate Clock(items: seq<Item>, start: real) {
    && (forall i :: 0 <= i < |items| ==> items[i].sight.Junk? || start <= TimeOf(items[i].sight))
    && (forall i, j :: 0 <= i < j < |items| && !items[i].sight.Junk? && !items[j].sight.Junk? ==>
          TimeOf(items[i].sight) <= TimeOf(items[j].sight))
  }

  lemma {:induction false} LastProgressBefore(items: seq<Item>, start: real, n: nat, k: nat)
    requires Clock(items, start) && n <= k < |items| && !items[k].sight.Junk?
    ensures LastProgress(items, start, n) <= TimeOf(items[k].sight)
  {
    if n > 0 && !Progress(items, n - 1) { LastProgressBefore(items, start, n - 1, k); }
  }

  /** The item of the last progress before n, if there is one. */
  lemma {:induction false} LastProgressItem(items: seq<Item>, start: real, n: nat) returns (p: int)
    requires n <= |items|
    ensures -1 <= p < n
    ensures LastProgress(items, start, n) == if p < 0 then start else TimeOf(items[p].sight)
    ensures p >= 0 ==> Progress(items, p)
    ensures forall i :: p < i < n ==> !Progress(items, i)
  {
    if n == 0 {
      p := -1;
    } else if Progress(items, n - 1) {
      p := n - 1;
    } else {
      p := LastProgressItem(items, start, n - 1);
    }
  }

  /** Without progress the pods that are starting stay the same from heartbeat to heartbeat. */
  lemma {:induction false} SameSince(items: seq<Item>, p: int, n: nat)
    requires -1 <= p < n <= |items|
    requires forall i :: p < i < n ==> !Progress(items, i)
    ensures SameStarting(items, p + 1, n, AtLastTick(items, n))
    ensures (exists i :: p < i < n && items[i].sight.Tick?) ==> AtLastTick(items, n) != {}
    decreases n
  {
    if p < n - 1 {
      SameSince(items, p, n - 1);
      assert !Progress(items, n - 1);
    }
  }

  lemma {:induction false} SomeTickBefore(items: seq<Item>, n: nat) returns (lo: nat)
    requires n <= |items| && AtLastTick(items, n) != {}
    ensures lo < n && items[lo].sight.Tick? && Current(items, lo) == AtLastTick(items, n)
    ensures forall i :: lo < i < n ==> !items[i].sight.Tick?
  {
    if items[n - 1].sight.Tick? { lo := n - 1; } else { lo := SomeTickBefore(items, n - 1); }
  }

  /** Sound: a verdict that pods are stuck means that an earlier heartbeat found exactly the same pods starting, every
      heartbeat in between did so too, no pod came to run or finished since the last progress, and that was more than
      the timeout ago. */
  lemma {:induction false} StuckSound(c: Config, items: seq<Item>, start: real, n: nat) returns (lo: nat, p: int)
    requires n < |items| && Outcome(c, items, start, n).Stuck?
    ensures Outcome(c, items, start, n) == Stuck(Current(items, n)) && Current(items, n) != {} && items[n].sight.Tick?
    ensures lo < n && items[lo].sight.Tick? && SameStarting(items, lo, n + 1, Current(items, n))
    ensures -1 <= p < n && forall i :: p < i <= n ==> !Progress(items, i)
    ensures SameStarting(items, p + 1, n + 1, Current(items, n)) && c.timeout > 0.0
    ensures items[n].sight.now - (if p < 0 then start else TimeOf(items[p].sight)) > c.timeout
  {
    p := LastProgressItem(items, start, n);
    lo := SomeTickBefore(items, n);
    SameSince(items, p, n);
  }

  /** From after item p up to the heartbeat n, every heartbeat found the same pods starting as the last one up to item p
      did, and none came to run or finished. */
  ghost predicate Quiet(items: seq<Item>, p: int, n: nat)
    requires -1 <= p < n < |items|
  {
    && Current(items, n) != {} && AtLastTick(items, p + 1) == Current(items, n)
    && SameStarting(items, p + 1, n + 1, Current(items, n)) && NoneUp(items, p + 1, n)
  }

  lemma {:induction false} LastTickSame(items: seq<Item>, lo: nat, n: nat, pods: set<Pod>)
    requires lo <= n <= |items| && AtLastTick(items, lo) == pods && SameStarting(items, lo, n, pods)
    ensures AtLastTick(items, n) == pods
  {
    if n > lo && !items[n - 1].sight.Tick? { LastTickSame(items, lo, n - 1, pods); }
  }

  lemma {:induction false} QuietIsNoProgress(items: seq<Item>, p: int, n: nat, i: nat)
    requires -1 <= p < n < |items| && Quiet(items, p, n) && items[n].sight.Tick? && p < i <= n
    ensures !Progress(items, i)
  {
    LastTickSame(items, p + 1, i, Current(items, n));
  }

  lemma {:induction false} SameLastProgress(items: seq<Item>, start: real, lo: nat, n: nat)
    requires lo <= n <= |items| && forall i :: lo <= i < n ==> !Progress(items, i)
    ensures LastProgress(items, start, n) == LastProgress(items, start, lo)
  {
    if n > lo { SameLastProgress(items, start, lo, n - 1); }
  }

  lemma {:induction false} NoProgressIsQuiet(items: seq<Item>, p: int, n: nat)
    requires -1 <= p < n < |items| && items[n].sight.Tick? && forall i :: p < i <= n ==> !Progress(items, i)
    ensures Quiet(items, p, n)
  {
    assert !Progress(items, n);
    SameSince(items, p, n);
    SameTickBack(items, p + 1, n);
    forall i | p + 1 <= i < n && items[i].sight.Status?
      ensures !(Changes(items, i) && (items[i].sight.phase.Running? || IsFinished(items[i].sight.phase)))
    {
      assert !Progress(items, i);
    }
  }

  lemma {:induction false} SameTickBack(items: seq<Item>, lo: nat, n: nat)
    requires lo <= n <= |items| && forall i :: lo <= i < n ==> !Progress(items, i)
    ensures AtLastTick(items, lo) == AtLastTick(items, n)
  {
    if n > lo {
      SameTickBack(items, lo, n - 1);
      assert !Progress(items, n - 1);
    }
  }

  /** The time of an item, or the start: of a heartbeat the second time it reads, which is after its check. */
  function Since(items: seq<Item>, start: real, p: int): real
    requires -1 <= p < |items|
  {
    if p < 0 then start
    else match items[p].sight case Tick(_, later) => later case Status(_, _, now) => now case Junk => start
  }

  /** A quiet time that opens at an item with a time, or at the start, and has lasted longer than the timeout. */
  ghost predicate LongQuiet(c: Config, items: seq<Item>, start: real, p: int, n: nat)
    requires n < |items| && items[n].sight.Tick?
  {
    && -1 <= p < n && Quiet(items, p, n) && (p >= 0 ==> !items[p].sight.Junk?)
    && items[n].sight.now - Since(items, start, p) > c.timeout
  }

  /** The verdict is that pods are stuck exactly if there has been a quiet time longer than the timeout, be it that it
      opened at a heartbeat, at a line about a pod or at the start. */
  lemma {:induction false} StuckExactly(c: Config, items: seq<Item>, start: real, n: nat)
    requires Clock(items, start) && n < |items|
    ensures Outcome(c, items, start, n).Stuck? <==>
      items[n].sight.Tick? && !items[n].shutdown && c.timeout > 0.0 && exists p :: LongQuiet(c, items, start, p, n)
    ensures Outcome(c, items, start, n).Stuck? ==> Outcome(c, items, start, n) == Stuck(Current(items, n))
  {
    if items[n].sight.Tick? && !items[n].shutdown && c.timeout > 0.0 {
      if IsStuck(c, items, start, n) {
        var p := LastProgressItem(items, start, n);
        NoProgressIsQuiet(items, p, n);
        assert LongQuiet(c, items, start, p, n);
      }
      if exists p :: LongQuiet(c, items, start, p, n) {
        var p :| LongQuiet(c, items, start, p, n);
        forall i | p < i <= n ensures !Progress(items, i) { QuietIsNoProgress(items, p, n, i); }
        SameLastProgress(items, start, p + 1, n);
        if p >= 0 && !Progress(items, p) { LastProgressBefore(items, start, p, p); }
      }
    }
  }

  // ---------------------------------------------------------------------------------------------
  // The verdict, over the lines that were seen

  /** Item i is the last line about its pod before item n. */
  ghost predicate LastLine(items: seq<Item>, n: nat, i: int)
    requires n <= |items|
  {
    && 0 <= i < n && items[i].sight.Status?
    && forall j :: i < j < n && items[j].sight.Status? ==> items[j].sight.pod != items[i].sight.pod
  }

  /** The phases kept are those of the last lines, and no others. */
  lemma {:induction false} PhasesAreLastLines(items: seq<Item>, n: nat)
    requires n <= |items|
    ensures forall i :: LastLine(items, n, i) ==>
              items[i].sight.pod in Phases(items, n) && Phases(items, n)[items[i].sight.pod] == items[i].sight.phase
    ensures forall k :: k in Phases(items, n) ==> exists i :: LastLine(items, n, i) && items[i].sight.pod == k
  {
    if n > 0 {
      PhasesAreLastLines(items, n - 1);
      forall i | LastLine(items, n, i)
        ensures items[i].sight.pod in Phases(items, n) && Phases(items, n)[items[i].sight.pod] == items[i].sight.phase
      {
        if i < n - 1 { assert LastLine(items, n - 1, i); }
      }
      forall k | k in Phases(items, n) ensures exists i :: LastLine(items, n, i) && items[i].sight.pod == k {
        if items[n - 1].sight.Status? && items[n - 1].sight.pod == k {
          assert LastLine(items, n, n - 1);
        } else {
          var i :| LastLine(items, n - 1, i) && items[i].sight.pod == k;
          assert LastLine(items, n, i);
        }
      }
    }
  }

  /** The pods that are starting are those whose last line says so; a line changes something unless it repeats the last
      one about its pod. */
  lemma {:induction false} StartingAreLastLines(items: seq<Item>, n: nat)
    requires n <= |items|
    ensures forall pod :: pod in Current(items, n) <==>
              exists i :: LastLine(items, n, i) && items[i].sight.pod == pod
                          && items[i].sight.phase in {Pending, ContainerCreating}
    ensures n < |items| && items[n].sight.Status? ==>
              (Changes(items, n) <==> !exists i :: LastLine(items, n, i) && items[i].sight.pod == items[n].sight.pod
                                                   && items[i].sight.phase == items[n].sight.phase)
  {
    PhasesAreLastLines(items, n);
    forall pod | pod in Phases(items, n)
      ensures exists i :: LastLine(items, n, i) && items[i].sight.pod == pod
                          && items[i].sight.phase == Phases(items, n)[pod]
    {
      var i :| LastLine(items, n, i) && items[i].sight.pod == pod;
      assert items[i].sight.phase == Phases(items, n)[pod];
    }
  }

  /** The last line of some pod says that it runs, and the last line of every pod that it runs or has finished. */
  ghost predicate LinesSayAllUp(items: seq<Item>, n: nat)
    requires n <= |items|
  {
    && (exists i :: LastLine(items, n, i) && items[i].sight.phase.Running?)
    && (forall i :: LastLine(items, n, i) ==>
          items[i].sight.phase in {Running, Completed, Succeeded, Terminated})
  }

  lemma {:induction false} AllUpIsLines(items: seq<Item>, n: nat)
    requires n <= |items|
    ensures AllUp(Phases(items, n)) <==> LinesSayAllUp(items, n)
  {
    PhasesAreLastLines(items, n);
    var m := Phases(items, n);
    if AllUp(m) {
      var k :| k in m && m[k].Running?;
      var i :| LastLine(items, n, i) && items[i].sight.pod == k;
      assert items[i].sight.phase == m[k];
    }
  }

  /** Completion: exactly at a heartbeat without shutdown, when pods are not found stuck, for a workload that does not
      report, once all pods are up and one of them runs. */
  lemma {:induction false} CompleteExactly(c: Config, items: seq<Item>, start: real, n: nat)
    requires Clock(items, start) && n < |items|
    ensures Outcome(c, items, start, n) == Complete <==>
      && items[n].sight.Tick? && !items[n].shutdown
      && !(c.timeout > 0.0 && exists p :: LongQuiet(c, items, start, p, n))
      && !c.reporting && LinesSayAllUp(items, n)
  {
    StuckExactly(c, items, start, n);
    AllUpIsLines(items, n);
  }

  /** The other verdicts: a shutdown at any item; a failed pod at a line that says so, if it has not just been said of
      that pod. */
  lemma {:induction false} OtherVerdicts(c: Config, items: seq<Item>, start: real, n: nat)
    requires n < |items|
    ensures Outcome(c, items, start, n) == ShutDown <==> items[n].shutdown
    ensures forall pod :: Outcome(c, items, start, n) == PodFailed(pod) <==>
              && !items[n].shutdown && items[n].sight.Status? && items[n].sight.pod == pod
              && items[n].sight.phase in {Failed, Error, OomKilled}
              && !exists i :: LastLine(items, n, i) && items[i].sight.pod == pod && items[i].sight.phase == items[n].sight.phase
  {
    PhasesAreLastLines(items, n);
    var m := Phases(items, n);
    if items[n].sight.Status? && items[n].sight.pod in m {
      var i :| LastLine(items, n, i) && items[i].sight.pod == items[n].sight.pod;
      assert m[items[n].sight.pod] == items[i].sight.phase;
    }
  }
}

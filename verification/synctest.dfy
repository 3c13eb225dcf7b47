/** The synctest workload as the client program of the barrier. */
module Synctest {
  import opened SyncRound
  import opened Barrier

  /** `syncs` synchronisations, then the result. */
  function SyncThenResult(syncs: nat): (commands: seq<Command>)
    ensures |commands| == syncs + 1
    ensures forall k :: 0 <= k < |commands| ==> commands[k] == if k < syncs then Sync else Rslt
  {
    seq(syncs, _ => Sync) + [Rslt]
  }

  /** The number of iterations of `for _ in range(n)`. */
  function Times(n: int): nat {
    if n < 0 then 0 else n
  }

  /** runit(): the commands one process sends to the sync pod. */
  method Runit(count: int, clusterCount: int) returns (sent: seq<Command>)
    ensures sent == SyncThenResult(Times(count) * Times(clusterCount))
  {
    sent := [];
    var n := Times(clusterCount);
    for i := 0 to Times(count)
      invariant |sent| == i * n
      invariant forall k :: 0 <= k < |sent| ==> sent[k] == Sync
    {
      for j := 0 to n
        invariant |sent| == i * n + j
        invariant forall k :: 0 <= k < |sent| ==> sent[k] == Sync
      {
        sent := sent + [Sync];
      }
    }
    sent := sent + [Rslt];
  }

  /** Worker number w sends counts[w] synchronisations and then its result. */
  ghost predicate Synchronises(c: Config, counts: seq<nat>)
    requires Valid(c)
  {
    && |counts| == c.n
    && (forall w :: 0 <= w < c.n ==>
          |c.prog[c.m + w]| == counts[w] + 1 &&
          forall k :: 0 <= k <= counts[w] ==> c.prog[c.m + w][k].command == SyncThenResult(counts[w])[k])
  }

  lemma {:induction false} EqualCountsComplete(c: Config, counts: seq<nat>)
    requires Valid(c) && Synchronises(c, counts) && forall w :: 0 <= w < c.n ==> counts[w] == counts[0]
    ensures CompletesAt(c, counts[0] + 1)
  {
    forall k | 0 <= k <= counts[0]
      ensures AgreeAt(c, k) && (c.prog[c.m][k].command == Rslt <==> k == counts[0])
    {
      assert c.prog[c.m + 0][k].command == SyncThenResult(counts[0])[k];
      forall i | IsWorker(c, i) ensures k < |c.prog[i]| && c.prog[i][k].command == c.prog[c.m][k].command {
        assert counts[i - c.m] == counts[0] && c.prog[c.m + (i - c.m)] == c.prog[i];
        assert c.prog[c.m + (i - c.m)][k].command == SyncThenResult(counts[0])[k];
      }
    }
  }

  lemma {:induction false} CompleteCountsEqual(c: Config, counts: seq<nat>, rounds: nat)
    requires Valid(c) && Synchronises(c, counts) && CompletesAt(c, rounds)
    ensures forall w :: 0 <= w < c.n ==> counts[w] == rounds - 1
  {
    forall w | 0 <= w < c.n ensures counts[w] == rounds - 1 {
      var i := c.m + w;
      assert IsWorker(c, i);
      assert AgreeAt(c, rounds - 1);
      assert c.prog[i][rounds - 1].command == SyncThenResult(counts[w])[rounds - 1];
    }
  }

  /** All processes of a run must synchronise equally often: then no run fails and every run that cannot go on has
      finished; and if two of them differ, no run ever finishes. */
  lemma {:induction false} SyncCountsMustMatch(c: Config, counts: seq<nat>)
    requires Valid(c) && Synchronises(c, counts)
    ensures (exists run :: Possible(c, Initial(c), run) && After(c, Initial(c), run).server.Finished?)
       <==> (forall w :: 0 <= w < c.n ==> counts[w] == counts[0])
    ensures (forall w :: 0 <= w < c.n ==> counts[w] == counts[0]) ==>
      forall run :: Possible(c, Initial(c), run) ==>
        var s := After(c, Initial(c), run);
        !s.server.Failed? && (s.server.Finished? || exists e :: Enabled(c, s, e))
  {
    FinishesExactlyIfAgreed(c);
    if forall w :: 0 <= w < c.n ==> counts[w] == counts[0] {
      EqualCountsComplete(c, counts);
      forall run | Possible(c, Initial(c), run)
        ensures var s := After(c, Initial(c), run);
                !s.server.Failed? && (s.server.Finished? || exists e :: Enabled(c, s, e))
      {
        AgreeingRunsFinish(c, counts[0] + 1, run);
      }
    }
    if rounds: nat :| CompletesAt(c, rounds) {
      CompleteCountsEqual(c, counts, rounds);
    }
  }
}

/** Batching objects and creating them in parallel. */
module Creation {
  import opened Basics
  import opened Plan
  import opened PlanLive

  // ObjectBatcher in driver/manifests.py and _create_all_parallel in driver/orchestrator.py. Clocks, artifact files and
  // the pause between batches are left out.

  // ---------------------------------------------------------------------------------------------
  // The batcher

  /** The state of a batcher and the batches it has had accepted by the cluster. */
  datatype Batch = Batch(buffer: seq<Manifest>, count: nat, sent: seq<seq<Manifest>>)

  datatype Result = Result(batch: Batch, raised: bool)

  /** flush(); `ok` is whether the cluster accepts the batch. */
  function Flushed(b: Batch, ok: bool): Result {
    if b.buffer == [] then Result(b, false)
    else if !ok then Result(b, true)
    else Result(Batch([], 0, b.sent + [b.buffer]), false)
  }

  function Added(size: nat, b: Batch, m: Manifest, force: bool, ok: bool): Result {
    var more := Batch(b.buffer + [m], b.count + 1, b.sent);
    if force || more.count >= size then Flushed(more, ok) else Result(more, false)
  }

  /** What has gone into a batcher, in order. */
  function Entered(b: Batch): seq<Manifest> {
    Concat(b.sent) + b.buffer
  }

  predicate BatchOk(size: nat, b: Batch) {
    && b.count == |b.buffer| <= size
    && forall i :: 0 <= i < |b.sent| ==> 0 < |b.sent[i]| <= size
  }

  lemma {:induction false} ConcatStep(pieces: seq<seq<Manifest>>, last: seq<Manifest>)
    ensures Concat(pieces + [last]) == Concat(pieces) + last
  {
    assert (pieces + [last])[..|pieces|] == pieces;
  }

  /** Flushing loses nothing: a batch is either handed over or kept whole. */
  lemma {:induction false} FlushKeeps(size: nat, b: Batch, ok: bool)
    requires BatchOk(size, b)
    ensures var r := Flushed(b, ok);
            && Entered(r.batch) == Entered(b) && BatchOk(size, r.batch)
            && (r.raised <==> !ok && b.buffer != [])
            && (if r.raised then r.batch == b else r.batch.buffer == [])
  {
    if ok && b.buffer != [] { ConcatStep(b.sent, b.buffer); }
  }

  /** Adding puts exactly one manifest at the end, and no batch grows beyond the limit. */
  lemma {:induction false} AddKeeps(size: nat, b: Batch, m: Manifest, force: bool, ok: bool)
    requires size >= 1 && BatchOk(size, b) && |b.buffer| < size
    ensures var r := Added(size, b, m, force, ok);
            && Entered(r.batch) == Entered(b) + [m] && BatchOk(size, r.batch)
            && (!r.raised ==> |r.batch.buffer| < size)
            && (r.raised ==> !ok && r.batch.buffer == b.buffer + [m] && r.batch.sent == b.sent)
  {
    var more := Batch(b.buffer + [m], b.count + 1, b.sent);
    FlushKeeps(size, more, ok);
    assert Entered(more) == Entered(b) + [m];
  }

  /** The cluster as far as creation is concerned: the batches it accepted. */
  class Cluster {
    var accepted: seq<seq<Manifest>>

    constructor ()
      ensures accepted == []
    {
      accepted := [];
    }

    method Apply(batch: seq<Manifest>, ok: bool) returns (status: int)
      modifies this
      ensures status == 0 <==> ok
      ensures accepted == if ok then old(accepted) + [batch] else old(accepted)
    {
      status := if ok then 0 else 1;
      if ok { accepted := accepted + [batch]; }
    }
  }

  class ObjectBatcher {
    const cluster: Cluster
    const size: nat
    var buffer: seq<Manifest>
    var count: nat

    function View(): Batch
      reads this, cluster
    {
      Batch(buffer, count, cluster.accepted)
    }

    constructor (c: Cluster, batchSize: int)
      ensures cluster == c && size == (if batchSize > 1 then batchSize else 1)
      ensures View() == Batch([], 0, c.accepted)
    {
      cluster, size := c, if batchSize > 1 then batchSize else 1;
      buffer, count := [], 0;
    }

    method Flush(ok: bool) returns (raised: bool)
      modifies this, cluster
      ensures Result(View(), raised) == Flushed(old(View()), ok)
    {
      raised := false;
      if buffer != [] {
        var status := cluster.Apply(buffer, ok);
        if status != 0 {
          raised := true;
        } else {
          buffer, count := [], 0;
        }
      }
    }

    method Add(m: Manifest, force: bool, ok: bool) returns (raised: bool)
      modifies this, cluster
      ensures Result(View(), raised) == Added(size, old(View()), m, force, ok)
    {
      buffer := buffer + [m];
      count := count + 1;
      raised := false;
      if force || count >= size {
        raised := Flush(ok);
      }
    }
  }

  // ---------------------------------------------------------------------------------------------
  // The workers

  /** What is to be created per namespace, by how many workers, in batches of what size. */
  datatype Job = Job(built: seq<seq<Manifest>>, parallel: nat, size: nat)

  predicate JobOk(job: Job) {
    job.parallel >= 1 && job.size >= 1
  }

  datatype Phase = Looping | Returned | Raised

  /** A worker: the next namespace of its stride, the rest of the current namespace's list, its batcher, its count. */
  datatype Thread = Thread(idx: nat, todo: seq<Manifest>, batch: Batch, count: nat, phase: Phase)

  datatype Entry = Entry(worker: nat, batch: seq<Manifest>)

  /** `stop` is run_failed; `log` is what the cluster accepted, from whom, in order. */
  datatype State = State(workers: seq<Thread>, log: seq<Entry>, stop: bool)

  /** A worker takes its next turn, or something else in the run fails. */
  datatype Event = Turn(worker: nat, ok: bool) | Fail

  function Start(job: Job): State {
    State(seq(job.parallel, w requires 0 <= w => Thread(w, [], Batch([], 0, []), 0, Looping)), [], false)
  }

  /** One turn of _worker(): add the next manifest, or go on to the next namespace, or flush and return. */
  function Work(job: Job, k: Thread, stop: bool, ok: bool): Thread {
    if !k.phase.Looping? then k
    else if k.todo != [] then
      var r := Added(job.size, k.batch, k.todo[0], false, ok);
      Thread(k.idx, k.todo[1..], r.batch, if r.raised then k.count else k.count + 1, if r.raised then Raised else Looping)
    else if k.idx < |job.built| && !stop then
      k.(todo := job.built[k.idx], idx := k.idx + job.parallel)
    else
      var r := Flushed(k.batch, ok);
      k.(batch := r.batch, phase := if r.raised then Raised else Returned)
  }

  function Step(job: Job, s: State, e: Event): State {
    match e
    case Fail => s.(stop := true)
    case Turn(w, ok) =>
      if w >= |s.workers| then s
      else
        var after := Work(job, s.workers[w], s.stop, ok);
        s.(workers := s.workers[w := after], log := s.log + Logged(w, s.workers[w].batch.sent, after.batch.sent))
  }

  function Run(job: Job, events: seq<Event>): State {
    if events == [] then Start(job) else Step(job, Run(job, events[..|events| - 1]), events[|events| - 1])
  }

  /** The worker whose stride contains namespace i: i modulo p, by counting down. */
  function Owner(i: nat, p: nat): (r: nat)
    requires p >= 1
    ensures r < p
  {
    if i < p then i else Owner(i - p, p)
  }

  lemma {:induction false} OwnerForm(i: nat, p: nat) returns (q: nat)
    requires p >= 1
    ensures i == q * p + Owner(i, p)
  {
    q := 0;
    if i >= p {
      q := OwnerForm(i - p, p);
      assert (q + 1) * p == q * p + p;
      q := q + 1;
    }
  }

  /** The indices offset, offset + p, offset + 2p, ... are those with that remainder. */
  lemma {:induction false} OwnerIsRemainder(i: nat, p: nat)
    requires p >= 1
    ensures Owner(i, p) == i % p
  {
    var q := OwnerForm(i, p);
    UniqueQuotient(i, p, q, Owner(i, p));
  }

  /** Everything for namespaces lo..hi of the stride of worker w, in order. */
  function Share(job: Job, w: nat, lo: nat, hi: nat): seq<Manifest>
    requires job.parallel >= 1 && lo <= hi <= |job.built|
    decreases hi
  {
    if lo == hi then []
    else Share(job, w, lo, hi - 1) + if Owner(hi - 1, job.parallel) == w then job.built[hi - 1] else []
  }

  function Ahead(job: Job, w: nat, idx: nat): seq<Manifest>
    requires job.parallel >= 1
  {
    if idx >= |job.built| then [] else Share(job, w, idx, |job.built|)
  }

  lemma {:induction false} SkipOthers(job: Job, w: nat, lo: nat, hi: nat)
    requires job.parallel >= 1 && lo <= hi <= |job.built|
    requires forall i :: lo <= i < hi ==> Owner(i, job.parallel) != w
    ensures Share(job, w, lo, hi) == []
    decreases hi
  {
    if lo < hi { SkipOthers(job, w, lo, hi - 1); }
  }

  lemma {:induction false} SplitShare(job: Job, w: nat, lo: nat, mid: nat, hi: nat)
    requires job.parallel >= 1 && lo <= mid <= hi <= |job.built|
    ensures Share(job, w, lo, hi) == Share(job, w, lo, mid) + Share(job, w, mid, hi)
    decreases hi
  {
    if mid < hi { SplitShare(job, w, lo, mid, hi - 1); }
  }

  lemma {:induction false} NextOfStride(i: nat, idx: nat, p: nat)
    requires p >= 1 && idx < i < idx + p
    ensures Owner(i, p) != Owner(idx, p)
  {
    if idx >= p {
      NextOfStride(i - p, idx - p, p);
    } else if i >= p {
      assert Owner(i, p) == i - p;
    }
  }

  /** Going on by the stride skips exactly the namespaces of the other workers. */
  lemma {:induction false} AheadStep(job: Job, w: nat, idx: nat)
    requires job.parallel >= 1 && idx < |job.built| && Owner(idx, job.parallel) == w
    ensures Ahead(job, w, idx) == job.built[idx] + Ahead(job, w, idx + job.parallel)
    ensures Owner(idx + job.parallel, job.parallel) == w
  {
    var n := |job.built|;
    var next := if idx + job.parallel < n then idx + job.parallel else n;
    forall i | idx + 1 <= i < next ensures Owner(i, job.parallel) != w { NextOfStride(i, idx, job.parallel); }
    SkipOthers(job, w, idx + 1, next);
    SplitShare(job, w, idx, idx + 1, n);
    SplitShare(job, w, idx + 1, next, n);
    assert Share(job, w, idx, idx + 1) == [] + job.built[idx];
  }

  lemma {:induction false} AheadFromStart(job: Job, w: nat)
    requires JobOk(job) && w < job.parallel
    ensures Ahead(job, w, w) == Share(job, w, 0, |job.built|)
  {
    var first := if w < |job.built| then w else |job.built|;
    forall i | 0 <= i < first ensures Owner(i, job.parallel) != w { assert Owner(i, job.parallel) == i; }
    SkipOthers(job, w, 0, first);
    SplitShare(job, w, 0, first, |job.built|);
  }

  /** The batches of one worker in the log. */
  function From(log: seq<Entry>, w: nat): seq<seq<Manifest>> {
    if log == [] then []
    else From(log[..|log| - 1], w) + if log[|log| - 1].worker == w then [log[|log| - 1].batch] else []
  }

  lemma {:induction false} FromStep(log: seq<Entry>, e: Entry, w: nat)
    ensures From(log + [e], w) == From(log, w) + if e.worker == w then [e.batch] else []
  {
    assert (log + [e])[..|log|] == log;
  }

  /** What holds of worker w at any time: what it submitted, what it buffers and what is ahead of it make up its share
      of the work, in order. */
  ghost predicate WorkerOk(job: Job, w: nat, k: Thread, stop: bool)
    requires JobOk(job)
  {
    && Owner(k.idx, job.parallel) == w && BatchOk(job.size, k.batch)
    && Entered(k.batch) + k.todo + Ahead(job, w, k.idx) == Share(job, w, 0, |job.built|)
    && (k.phase.Looping? ==> |k.batch.buffer| < job.size)
    && (k.phase.Returned? ==> k.todo == [] && k.batch.buffer == [] && (k.idx >= |job.built| || stop))
    && (k.phase.Raised? ==> k.batch.buffer != [])
    && (!k.phase.Raised? ==> k.count == |Entered(k.batch)|)
  }

  ghost predicate Inv(job: Job, s: State)
    requires JobOk(job)
  {
    && |s.workers| == job.parallel
    && (forall w :: 0 <= w < job.parallel ==> WorkerOk(job, w, s.workers[w], s.stop))
    && (forall w :: 0 <= w < job.parallel ==> From(s.log, w) == s.workers[w].batch.sent)
    && (forall i :: 0 <= i < |s.log| ==> s.log[i].worker < job.parallel)
  }

  lemma {:induction false} StartOk(job: Job)
    requires JobOk(job)
    ensures Inv(job, Start(job))
  {
    var s := Start(job);
    forall w | 0 <= w < job.parallel ensures WorkerOk(job, w, s.workers[w], false) {
      AheadFromStart(job, w);
      assert Owner(w, job.parallel) == w;
      assert Entered(s.workers[w].batch) == [];
    }
  }

  lemma {:induction false} WorkAdds(job: Job, w: nat, k: Thread, stop: bool, ok: bool)
    requires JobOk(job) && WorkerOk(job, w, k, stop) && k.phase.Looping? && k.todo != []
    ensures WorkerOk(job, w, Work(job, k, stop, ok), stop)
  {
    AddKeeps(job.size, k.batch, k.todo[0], false, ok);
    var r := Added(job.size, k.batch, k.todo[0], false, ok);
    assert Entered(k.batch) + k.todo == Entered(r.batch) + k.todo[1..];
  }

  lemma {:induction false} WorkEnds(job: Job, w: nat, k: Thread, stop: bool, ok: bool)
    requires JobOk(job) && WorkerOk(job, w, k, stop) && (k.phase.Looping? ==> k.todo == [])
    ensures WorkerOk(job, w, Work(job, k, stop, ok), stop)
  {
    FlushKeeps(job.size, k.batch, ok);
    if k.phase.Looping? && k.idx < |job.built| && !stop {
      AheadStep(job, w, k.idx);
      var e, here, ahead := Entered(k.batch), job.built[k.idx], Ahead(job, w, k.idx + job.parallel);
      assert e + [] + (here + ahead) == e + here + ahead;
    }
  }

  lemma {:induction false} WorkOk(job: Job, w: nat, k: Thread, stop: bool, ok: bool)
    requires JobOk(job) && WorkerOk(job, w, k, stop)
    ensures WorkerOk(job, w, Work(job, k, stop, ok), stop)
  {
    if k.phase.Looping? && k.todo != [] { WorkAdds(job, w, k, stop, ok); } else { WorkEnds(job, w, k, stop, ok); }
  }

  /** A turn submits at most one batch, at the end. */
  lemma {:induction false} SentGrows(job: Job, k: Thread, stop: bool, ok: bool)
    ensures var a, b := k.batch.sent, Work(job, k, stop, ok).batch.sent;
            b == a || (|b| == |a| + 1 && b == a + [b[|a|]])
  {
  }

  function Logged(w: nat, before: seq<seq<Manifest>>, sent: seq<seq<Manifest>>): seq<Entry> {
    if |sent| > |before| then [Entry(w, sent[|sent| - 1])] else []
  }

  lemma {:induction false} FromLogged(log: seq<Entry>, w: nat, v: nat, before: seq<seq<Manifest>>, sent: seq<seq<Manifest>>)
    requires From(log, w) == before
    requires sent == before || (|sent| == |before| + 1 && sent == before + [sent[|before|]])
    ensures From(log + Logged(w, before, sent), v) == if v == w then sent else From(log, v)
  {
    if |sent| > |before| {
      FromStep(log, Entry(w, sent[|sent| - 1]), v);
    } else {
      assert log + Logged(w, before, sent) == log;
    }
  }

  lemma {:induction false} Replaced(job: Job, s: State, w: nat, after: Thread)
    requires JobOk(job) && Inv(job, s) && w < job.parallel && WorkerOk(job, w, after, s.stop)
    requires var a, b := s.workers[w].batch.sent, after.batch.sent;
             b == a || (|b| == |a| + 1 && b == a + [b[|a|]])
    ensures Inv(job, s.(workers := s.workers[w := after],
                        log := s.log + Logged(w, s.workers[w].batch.sent, after.batch.sent)))
  {
    forall v | 0 <= v < job.parallel {
      FromLogged(s.log, w, v, s.workers[w].batch.sent, after.batch.sent);
    }
  }

  lemma {:induction false} TurnOk(job: Job, s: State, w: nat, ok: bool)
    requires JobOk(job) && Inv(job, s) && w < job.parallel
    ensures Inv(job, Step(job, s, Turn(w, ok)))
  {
    WorkOk(job, w, s.workers[w], s.stop, ok);
    SentGrows(job, s.workers[w], s.stop, ok);
    Replaced(job, s, w, Work(job, s.workers[w], s.stop, ok));
  }

  lemma {:induction false} RunOk(job: Job, events: seq<Event>)
    requires JobOk(job)
    ensures Inv(job, Run(job, events))
  {
    if events == [] {
      StartOk(job);
    } else {
      var s := Run(job, events[..|events| - 1]);
      RunOk(job, events[..|events| - 1]);
      match events[|events| - 1]
      case Fail => FailOk(job, s);
      case Turn(w, ok) => if w < |s.workers| { TurnOk(job, s, w, ok); }
    }
  }

  lemma {:induction false} FailOk(job: Job, s: State)
    requires JobOk(job) && Inv(job, s)
    ensures Inv(job, s.(stop := true))
  {
    forall w | 0 <= w < job.parallel ensures WorkerOk(job, w, s.workers[w], true) {
      assert WorkerOk(job, w, s.workers[w], s.stop);
    }
  }

  // ---------------------------------------------------------------------------------------------
  // Conservation over whole runs

  /** All batches the cluster accepted, in order. */
  function Accepted(log: seq<Entry>): seq<seq<Manifest>> {
    if log == [] then [] else Accepted(log[..|log| - 1]) + [log[|log| - 1].batch]
  }

  /** How often an object occurs in a list. */
  function Times(m: Manifest, s: seq<Manifest>): nat {
    if s == [] then 0 else Times(m, s[..|s| - 1]) + if s[|s| - 1] == m then 1 else 0
  }

  lemma {:induction false} TimesAppend(m: Manifest, a: seq<Manifest>, b: seq<Manifest>)
    ensures Times(m, a + b) == Times(m, a) + Times(m, b)
  {
    if b == [] {
      assert a + b == a;
    } else {
      assert (a + b)[..|a + b| - 1] == a + b[..|b| - 1];
      TimesAppend(m, a, b[..|b| - 1]);
    }
  }

  lemma {:induction false} TimesIsMultiplicity(m: Manifest, s: seq<Manifest>)
    ensures Times(m, s) == multiset(s)[m]
  {
    if s != [] {
      TimesIsMultiplicity(m, s[..|s| - 1]);
      assert s == s[..|s| - 1] + [s[|s| - 1]];
    }
  }

  /** How much is in a list: of one object, or in all. */
  function Amount(what: Option<Manifest>, s: seq<Manifest>): nat {
    match what case None => |s| case Some(m) => Times(m, s)
  }

  lemma {:induction false} AmountAppend(what: Option<Manifest>, a: seq<Manifest>, b: seq<Manifest>)
    ensures Amount(what, a + b) == Amount(what, a) + Amount(what, b)
  {
    if what.Some? { TimesAppend(what.value, a, b); }
  }

  lemma {:induction false} AmountConcat(what: Option<Manifest>, pieces: seq<seq<Manifest>>, last: seq<Manifest>)
    ensures Amount(what, Concat(pieces + [last])) == Amount(what, Concat(pieces)) + Amount(what, last)
  {
    ConcatStep(pieces, last);
    AmountAppend(what, Concat(pieces), last);
  }

  /** What workers 0..n had accepted, and what they were to create. */
  function AcceptedFrom(what: Option<Manifest>, log: seq<Entry>, n: nat): nat {
    if n == 0 then 0 else AcceptedFrom(what, log, n - 1) + Amount(what, Concat(From(log, n - 1)))
  }

  function Shares(what: Option<Manifest>, job: Job, n: nat, hi: nat): nat
    requires job.parallel >= 1 && hi <= |job.built|
  {
    if n == 0 then 0 else Shares(what, job, n - 1, hi) + Amount(what, Share(job, n - 1, 0, hi))
  }

  lemma {:induction false} AcceptedFromStep(what: Option<Manifest>, log: seq<Entry>, e: Entry, n: nat)
    ensures AcceptedFrom(what, log + [e], n) ==
      AcceptedFrom(what, log, n) + if e.worker < n then Amount(what, e.batch) else 0
  {
    if n > 0 {
      AcceptedFromStep(what, log, e, n - 1);
      FromStep(log, e, n - 1);
      if e.worker == n - 1 {
        AmountConcat(what, From(log, n - 1), e.batch);
      } else {
        assert From(log + [e], n - 1) == From(log, n - 1);
      }
    }
  }

  lemma {:induction false} NobodyYet(what: Option<Manifest>, n: nat)
    ensures AcceptedFrom(what, [], n) == 0
  {
    if n > 0 { NobodyYet(what, n - 1); }
  }

  /** Every accepted batch came from one of the workers. */
  lemma {:induction false} AcceptedByWorkers(what: Option<Manifest>, log: seq<Entry>, n: nat)
    requires forall i :: 0 <= i < |log| ==> log[i].worker < n
    ensures Amount(what, Concat(Accepted(log))) == AcceptedFrom(what, log, n)
  {
    if log == [] {
      NobodyYet(what, n);
    } else {
      var front, e := log[..|log| - 1], log[|log| - 1];
      assert log == front + [e];
      AcceptedByWorkers(what, front, n);
      AcceptedFromStep(what, front, e, n);
      AcceptedStep(what, front, e);
    }
  }

  lemma {:induction false} AcceptedStep(what: Option<Manifest>, front: seq<Entry>, e: Entry)
    ensures Amount(what, Concat(Accepted(front + [e]))) == Amount(what, Concat(Accepted(front))) + Amount(what, e.batch)
  {
    assert (front + [e])[..|front|] == front;
    AmountConcat(what, Accepted(front), e.batch);
  }

  lemma {:induction false} NoShares(what: Option<Manifest>, job: Job, n: nat)
    requires job.parallel >= 1
    ensures Shares(what, job, n, 0) == 0
  {
    if n > 0 { NoShares(what, job, n - 1); }
  }

  lemma {:induction false} SharesStep(what: Option<Manifest>, job: Job, n: nat, hi: nat)
    requires job.parallel >= 1 && 0 < hi <= |job.built|
    ensures Shares(what, job, n, hi) ==
      Shares(what, job, n, hi - 1) + if Owner(hi - 1, job.parallel) < n then Amount(what, job.built[hi - 1]) else 0
  {
    if n > 0 {
      SharesStep(what, job, n - 1, hi);
      if Owner(hi - 1, job.parallel) == n - 1 {
        AmountAppend(what, Share(job, n - 1, 0, hi - 1), job.built[hi - 1]);
      } else {
        assert Share(job, n - 1, 0, hi) == Share(job, n - 1, 0, hi - 1);
      }
    }
  }

  /** The strides partition the namespaces: together they hold every object exactly once. */
  lemma {:induction false} StridesPartition(what: Option<Manifest>, job: Job, hi: nat)
    requires job.parallel >= 1 && hi <= |job.built|
    ensures Shares(what, job, job.parallel, hi) == Amount(what, Concat(job.built[..hi]))
  {
    if hi == 0 {
      NoShares(what, job, job.parallel);
    } else {
      StridesPartition(what, job, hi - 1);
      SharesStep(what, job, job.parallel, hi);
      AmountUpTo(what, job.built, hi);
    }
  }

  lemma {:induction false} AmountUpTo(what: Option<Manifest>, pieces: seq<seq<Manifest>>, n: nat)
    requires 0 < n <= |pieces|
    ensures Amount(what, Concat(pieces[..n])) == Amount(what, Concat(pieces[..n - 1])) + Amount(what, pieces[n - 1])
  {
    AmountConcat(what, pieces[..n - 1], pieces[n - 1]);
    assert pieces[..n] == pieces[..n - 1] + [pieces[n - 1]];
  }

  /** Every worker returned, and nothing failed. */
  predicate AllReturned(s: State) {
    !s.stop && forall w :: 0 <= w < |s.workers| ==> s.workers[w].phase.Returned?
  }

  function Counts(workers: seq<Thread>): nat {
    if workers == [] then 0 else Counts(workers[..|workers| - 1]) + workers[|workers| - 1].count
  }

  lemma {:induction false} WorkerDone(job: Job, s: State, w: nat)
    requires JobOk(job) && Inv(job, s) && w < job.parallel && s.workers[w].phase.Returned? && !s.stop
    ensures Concat(From(s.log, w)) == Share(job, w, 0, |job.built|)
    ensures s.workers[w].count == |Concat(From(s.log, w))|
  {
    assert WorkerOk(job, w, s.workers[w], s.stop);
  }

  lemma {:induction false} AllDone(what: Option<Manifest>, job: Job, log: seq<Entry>, n: nat)
    requires job.parallel >= 1
    requires forall w :: 0 <= w < n ==> Concat(From(log, w)) == Share(job, w, 0, |job.built|)
    ensures AcceptedFrom(what, log, n) == Shares(what, job, n, |job.built|)
  {
    if n > 0 { AllDone(what, job, log, n - 1); }
  }

  lemma {:induction false} AllCounted(workers: seq<Thread>, log: seq<Entry>, n: nat)
    requires n <= |workers|
    requires forall w :: 0 <= w < n ==> workers[w].count == |Concat(From(log, w))|
    ensures Counts(workers[..n]) == AcceptedFrom(None, log, n)
  {
    if n > 0 {
      AllCounted(workers, log, n - 1);
      assert workers[..n][..n - 1] == workers[..n - 1];
    }
  }

  lemma {:induction false} AmountDone(what: Option<Manifest>, job: Job, s: State)
    requires JobOk(job) && AllReturned(s) && Inv(job, s)
    ensures Amount(what, Concat(Accepted(s.log))) == Amount(what, Concat(job.built))
    ensures Amount(what, Concat(Accepted(s.log))) == AcceptedFrom(what, s.log, job.parallel)
  {
    AcceptedByWorkers(what, s.log, job.parallel);
    forall w | 0 <= w < job.parallel ensures Concat(From(s.log, w)) == Share(job, w, 0, |job.built|) {
      WorkerDone(job, s, w);
    }
    AllDone(what, job, s.log, job.parallel);
    StridesPartition(what, job, |job.built|);
    assert job.built[..|job.built|] == job.built;
  }

  lemma {:induction false} SameObjects(a: seq<Manifest>, b: seq<Manifest>)
    requires forall m :: Amount(Some(m), a) == Amount(Some(m), b)
    ensures multiset(a) == multiset(b)
  {
    forall m ensures multiset(a)[m] == multiset(b)[m] {
      assert Amount(Some(m), a) == Amount(Some(m), b);
      TimesIsMultiplicity(m, a);
      TimesIsMultiplicity(m, b);
    }
  }

  lemma {:induction false} InLog(log: seq<Entry>, i: nat)
    requires i < |log|
    ensures log[i].batch in From(log, log[i].worker)
  {
    if i < |log| - 1 { InLog(log[..|log| - 1], i); }
  }

  /** Whatever the interleaving of the workers: when all have returned and nothing failed, every object built was
      submitted exactly once, each worker's in the order of its stride, in batches of at most the batch size, and the
      total of the workers' counts is the number of objects submitted. */
  lemma {:induction false} EverythingSubmittedOnce(job: Job, events: seq<Event>)
    requires JobOk(job) && AllReturned(Run(job, events))
    ensures var s := Run(job, events);
            && multiset(Concat(Accepted(s.log))) == multiset(Concat(job.built))
            && (forall w :: 0 <= w < job.parallel ==> Concat(From(s.log, w)) == Share(job, w, 0, |job.built|))
            && (forall i :: 0 <= i < |s.log| ==> 0 < |s.log[i].batch| <= job.size)
            && Counts(s.workers) == |Concat(Accepted(s.log))| == |Concat(job.built)|
  {
    RunOk(job, events);
    SubmittedOnce(job, Run(job, events));
  }

  lemma {:induction false} SubmittedOnce(job: Job, s: State)
    requires JobOk(job) && AllReturned(s) && Inv(job, s)
    ensures multiset(Concat(Accepted(s.log))) == multiset(Concat(job.built))
    ensures forall w :: 0 <= w < job.parallel ==> Concat(From(s.log, w)) == Share(job, w, 0, |job.built|)
    ensures forall i :: 0 <= i < |s.log| ==> 0 < |s.log[i].batch| <= job.size
    ensures Counts(s.workers) == |Concat(Accepted(s.log))| == |Concat(job.built)|
  {
    forall m ensures Amount(Some(m), Concat(Accepted(s.log))) == Amount(Some(m), Concat(job.built)) {
      AmountDone(Some(m), job, s);
    }
    SameObjects(Concat(Accepted(s.log)), Concat(job.built));
    AmountDone(None, job, s);
    forall w | 0 <= w < job.parallel
      ensures Concat(From(s.log, w)) == Share(job, w, 0, |job.built|)
      ensures s.workers[w].count == |Concat(From(s.log, w))|
    {
      WorkerDone(job, s, w);
    }
    AllCounted(s.workers, s.log, job.parallel);
    assert s.workers[..job.parallel] == s.workers;
    forall i | 0 <= i < |s.log| ensures 0 < |s.log[i].batch| <= job.size { BatchesSmall(job, s, i); }
  }

  lemma {:induction false} BatchesSmall(job: Job, s: State, i: nat)
    requires JobOk(job) && Inv(job, s) && i < |s.log|
    ensures 0 < |s.log[i].batch| <= job.size
  {
    InLog(s.log, i);
    var w := s.log[i].worker;
    assert WorkerOk(job, w, s.workers[w], s.stop);
  }

  /** At any time of any run, failures included: what a worker has submitted is a part, from the start, of its share;
      after a failed batch the batch is still in its buffer. */
  lemma {:induction false} NothingTwice(job: Job, events: seq<Event>, w: nat)
    requires JobOk(job) && w < job.parallel
    ensures |Run(job, events).workers| == job.parallel
    ensures var k := Run(job, events).workers[w];
            && Concat(From(Run(job, events).log, w)) + k.batch.buffer <= Share(job, w, 0, |job.built|)
            && (k.phase.Raised? ==> k.batch.buffer != [])
  {
    RunOk(job, events);
    SubmittedIsPrefix(job, Run(job, events), w);
  }

  lemma {:induction false} SubmittedIsPrefix(job: Job, s: State, w: nat)
    requires JobOk(job) && Inv(job, s) && w < job.parallel
    ensures Concat(From(s.log, w)) + s.workers[w].batch.buffer <= Share(job, w, 0, |job.built|)
    ensures s.workers[w].phase.Raised? ==> s.workers[w].batch.buffer != []
  {
    var k := s.workers[w];
    assert WorkerOk(job, w, k, s.stop);
    FirstPart(Entered(k.batch), k.todo, Ahead(job, w, k.idx), Share(job, w, 0, |job.built|));
  }

  lemma {:induction false} FirstPart(a: seq<Manifest>, b: seq<Manifest>, c: seq<Manifest>, all: seq<Manifest>)
    requires a + b + c == all
    ensures a <= all
  {
    assert a + b + c == a + (b + c);
  }

  /** How many turns a worker can still take. */
  function TurnsLeft(job: Job, k: Thread): nat
    requires job.parallel >= 1
  {
    if k.phase.Looping? then 1 + |k.todo| + TurnsAhead(job, k.idx) else 0
  }

  function TurnsAhead(job: Job, idx: nat): nat
    requires job.parallel >= 1
    decreases |job.built| - idx
  {
    if idx >= |job.built| then 0 else 1 + |job.built[idx]| + TurnsAhead(job, idx + job.parallel)
  }

  /** A worker that has not ended gets closer to its end with every turn. */
  lemma {:induction false} TurnsEnd(job: Job, k: Thread, stop: bool, ok: bool)
    requires job.parallel >= 1 && k.phase.Looping?
    ensures TurnsLeft(job, Work(job, k, stop, ok)) < TurnsLeft(job, k)
  {
  }

  /** For the live plan: the parallel creation submits the objects of the run, no more and no less. */
  lemma {:induction false} LivePlanSubmitted(c: Config, nss: seq<string>, parallel: nat, size: nat, events: seq<Event>)
    requires var job := Job(Pieces(c, nss), parallel, size); JobOk(job) && AllReturned(Run(job, events))
    ensures var s := Run(Job(Pieces(c, nss), parallel, size), events);
            multiset(Concat(Accepted(s.log))) == multiset(Live(c, nss))
  {
    EverythingSubmittedOnce(Job(Pieces(c, nss), parallel, size), events);
  }

  /** What the pool of workers hands back: a count, or an exception. */
  function Sum(results: seq<Option<nat>>): nat {
    if results == [] then 0
    else Sum(results[..|results| - 1]) + match results[|results| - 1] case Some(n) => n case None => 0
  }

  /** The end of _create_all_parallel(): the total, and whether the run fails. */
  method Join(results: seq<Option<nat>>) returns (total: nat, failed: bool)
    ensures total == Sum(results)
    ensures failed <==> exists i :: 0 <= i < |results| && results[i].None?
  {
    var errors := 0;
    total := 0;
    for i := 0 to |results|
      invariant total == Sum(results[..i])
      invariant errors > 0 <==> exists j :: 0 <= j < i && results[j].None?
      invariant errors >= 0
    {
      match results[i] {
        case None => errors := errors + 1;
        case Some(n) => total := total + n;
      }
      assert results[..i + 1][..i] == results[..i];
    }
    assert results[..|results|] == results;
    failed := errors > 0;
  }

  // ---------------------------------------------------------------------------------------------
  // When a batch is handed over

  /** Adding hands over a batch exactly if it is forced or the batch is full with this manifest. */
  lemma {:induction false} HandedOverExactly(size: nat, b: Batch, m: Manifest, force: bool, ok: bool)
    requires size >= 1 && BatchOk(size, b) && |b.buffer| < size
    ensures var r := Added(size, b, m, force, ok); var full := force || |b.buffer| + 1 == size;
            && r.batch.sent == (if full && ok then b.sent + [b.buffer + [m]] else b.sent)
            && (r.raised <==> full && !ok)
            && (r.batch.buffer == if full && ok then [] else b.buffer + [m])
  {
  }

  /** All batches of a worker are full but the one it hands over when it returns. */
  ghost predicate FullBatches(size: nat, k: Thread) {
    forall i :: 0 <= i < |k.batch.sent| ==> |k.batch.sent[i]| == size || (k.phase.Returned? && i == |k.batch.sent| - 1)
  }

  lemma {:induction false} WorkFull(job: Job, w: nat, k: Thread, stop: bool, ok: bool)
    requires JobOk(job) && WorkerOk(job, w, k, stop) && FullBatches(job.size, k)
    ensures FullBatches(job.size, Work(job, k, stop, ok))
  {
    if k.phase.Looping? && k.todo != [] { HandedOverExactly(job.size, k.batch, k.todo[0], false, ok); }
  }

  lemma {:induction false} RunFull(job: Job, events: seq<Event>, w: nat)
    requires JobOk(job) && w < job.parallel
    ensures |Run(job, events).workers| == job.parallel && FullBatches(job.size, Run(job, events).workers[w])
  {
    RunOk(job, events);
    if events != [] {
      var front, e := events[..|events| - 1], events[|events| - 1];
      RunFull(job, front, w);
      RunOk(job, front);
      if e.Turn? && e.worker == w { WorkFull(job, w, Run(job, front).workers[w], Run(job, front).stop, e.ok); }
    }
  }

  /** In every run a worker's batches are the consecutive pieces of its share, all of the batch size, except that the last
      one may be smaller once the worker has returned. */
  lemma {:induction false} BatchesAreFull(job: Job, events: seq<Event>, w: nat, i: nat)
    requires JobOk(job) && w < job.parallel && i < |From(Run(job, events).log, w)|
    ensures var s := Run(job, events); var batches := From(s.log, w);
            && |batches[i]| <= job.size
            && (|batches[i]| < job.size ==> i == |batches| - 1 && |s.workers| == job.parallel && s.workers[w].phase.Returned?)
            && Concat(batches) <= Share(job, w, 0, |job.built|)
  {
    RunFull(job, events, w);
    RunOk(job, events);
    var s := Run(job, events);
    BatchAt(job, s, w, i);
    SubmittedIsPrefix(job, s, w);
    var all := Concat(From(s.log, w)) + s.workers[w].batch.buffer;
    assert Concat(From(s.log, w)) == all[..|Concat(From(s.log, w))|];
  }

  lemma {:induction false} BatchAt(job: Job, s: State, w: nat, i: nat)
    requires JobOk(job) && Inv(job, s) && w < job.parallel && i < |From(s.log, w)|
    ensures From(s.log, w) == s.workers[w].batch.sent && |From(s.log, w)[i]| <= job.size
  {
    assert WorkerOk(job, w, s.workers[w], s.stop);
  }

  // ---------------------------------------------------------------------------------------------
  // After a failure

  /** Once the run has failed no worker takes on another namespace: it finishes the one it is at. */
  lemma {:induction false} NothingNewAfterFailure(job: Job, before: seq<Event>, more: seq<Event>, w: nat)
    requires JobOk(job) && w < job.parallel && Run(job, before).stop
    ensures var s, t := Run(job, before), Run(job, before + more);
            && t.stop && |s.workers| == |t.workers| == job.parallel
            && t.workers[w].idx == s.workers[w].idx && |t.workers[w].todo| <= |s.workers[w].todo|
  {
    RunOk(job, before);
    RunOk(job, before + more);
    if more == [] {
      assert before + more == before;
    } else {
      var front := more[..|more| - 1];
      NothingNewAfterFailure(job, before, front, w);
      assert (before + more)[..|before + more| - 1] == before + front;
    }
  }

  /** Without a failure a worker that has returned has been through all its namespaces. */
  lemma {:induction false} ReturnedIsDone(job: Job, events: seq<Event>, w: nat)
    requires JobOk(job) && w < job.parallel && !Run(job, events).stop
    ensures |Run(job, events).workers| == job.parallel
    ensures Run(job, events).workers[w].phase.Returned? ==>
              Concat(From(Run(job, events).log, w)) == Share(job, w, 0, |job.built|)
  {
    RunOk(job, events);
    if Run(job, events).workers[w].phase.Returned? { WorkerDone(job, Run(job, events), w); }
  }
}

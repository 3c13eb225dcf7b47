/** The barrier: containers, worker processes and the sync pod's rounds as one transition system. */
module Barrier {
  // Participants 0..m-1 are the containers, whose only request is the TNET of the first round; participants
  // m..m+n-1 are the worker processes, each started by its container after that request was answered. A participant
  // sends one request at a time and blocks until its connection is closed.

  import opened Basics
  import opened SyncRound

  datatype Config = Config(
    m: nat, n: nat,
    home: seq<nat>,                 // the container that starts each worker
    prog: seq<seq<Request>>,        // what each participant sends, in order
    json: JsonHave)

  /** Thinking: between requests. Connected: request sent, not accepted. Held: accepted, blocked.
      Dropped: the round ended and the connection was closed, the participant has not noticed yet. */
  datatype Phase = Thinking | Connected | Held | Dropped

  /** `done` counts the requests that have returned. */
  datatype Actor = Actor(done: nat, phase: Phase)

  datatype Server =
    | Collecting(round: Round)
    | Finished(files: map<nat, string>)     // a round ended with code 2: the main loop goes on to finish()
    | Failed                                // a round ended with code 1: the main loop stops the pod

  datatype State = State(
    pass: nat,                      // rounds completed
    server: Server,
    order: seq<nat>,                // participants accepted in the current (or the last) round, in order
    actors: seq<Actor>)

  datatype Event = Issue(who: nat) | Accept(who: nat) | Close | Return(who: nat)

  ghost predicate Valid(c: Config) {
    && c.m > 0 && c.n > 0
    && |c.prog| == c.m + c.n && |c.home| == c.n
    && (forall i :: 0 <= i < c.n ==> c.home[i] < c.m)
    && (forall i :: 0 <= i < c.m ==>
          |c.prog[i]| == 1 && c.prog[i][0].command == Tnet && c.json(c.prog[i][0].payload).Some?)
    && (forall i, k :: c.m <= i < c.m + c.n && 0 <= k < |c.prog[i]| ==> c.prog[i][k].command != Blank)
    // the connections of one round have different peer addresses
    && (forall i, j, k :: 0 <= i < j < c.m + c.n && (j < c.m || c.m <= i) && 0 <= k < |c.prog[i]| && k < |c.prog[j]| ==>
          c.prog[i][k].address != c.prog[j][k].address)
  }

  predicate IsWorker(c: Config, i: int) { c.m <= i < c.m + c.n }

  function Expected(c: Config, pass: nat): nat {
    if pass == 0 then c.m else c.n
  }

  function Initial(c: Config): State {
    State(0, Collecting(Fresh(c.m)), [], seq(c.m + c.n, _ => Actor(0, Thinking)))
  }

  /** The kernel closes the accepted connections when the process that holds them exits. */
  function Drop(actors: seq<Actor>): (dropped: seq<Actor>)
    ensures |dropped| == |actors|
    ensures forall i :: 0 <= i < |actors| ==>
      dropped[i] == if actors[i].phase == Held then Actor(actors[i].done, Dropped) else actors[i]
  {
    seq(|actors|, i requires 0 <= i < |actors| => if actors[i].phase == Held then Actor(actors[i].done, Dropped) else actors[i])
  }

  ghost predicate Enabled(c: Config, s: State, e: Event)
    requires Valid(c) && |s.actors| == c.m + c.n
  {
    match e
    case Issue(i) =>
      && i < |s.actors| && s.actors[i].phase == Thinking && s.actors[i].done < |c.prog[i]|
      && (IsWorker(c, i) ==> s.actors[c.home[i - c.m]].done == 1)
    case Accept(i) =>
      && i < |s.actors| && s.actors[i].phase == Connected && s.actors[i].done < |c.prog[i]|
      && s.server.Collecting? && s.server.round.remaining > 0
    case Close => s.server.Collecting? && s.server.round.remaining == 0
    case Return(i) => i < |s.actors| && s.actors[i].phase == Dropped
  }

  ghost function Apply(c: Config, s: State, e: Event): (t: State)
    requires Valid(c) && |s.actors| == c.m + c.n && Enabled(c, s, e)
    ensures |t.actors| == |s.actors|
  {
    match e
    case Issue(i) => s.(actors := s.actors[i := Actor(s.actors[i].done, Connected)])
    case Accept(i) =>
      var held := s.actors[i := Actor(s.actors[i].done, Held)];
      var o := Admit(s.server.round, c.prog[i][s.actors[i].done], s.pass == 0, c.json);
      if o.Going? then s.(server := Collecting(o.round), order := s.order + [i], actors := held)
      else s.(server := Failed, actors := Drop(held))
    case Close =>
      var code := ExitCode(s.server.round);
      var t := s.(pass := s.pass + 1, actors := Drop(s.actors));
      if code == 2 then t.(server := Finished(s.server.round.results))
      else if code == 0 then t.(server := Collecting(Fresh(c.n)), order := [])
      else t.(server := Failed)
    case Return(i) => s.(actors := s.actors[i := Actor(s.actors[i].done + 1, Thinking)])
  }

  /** A run: a sequence of events, each possible where it happens. */
  ghost predicate Possible(c: Config, s: State, run: seq<Event>)
    requires Valid(c) && |s.actors| == c.m + c.n
    decreases |run|
  {
    run == [] || (Enabled(c, s, run[0]) && Possible(c, Apply(c, s, run[0]), run[1..]))
  }

  ghost function After(c: Config, s: State, run: seq<Event>): (t: State)
    requires Valid(c) && |s.actors| == c.m + c.n && Possible(c, s, run)
    ensures |t.actors| == |s.actors|
    decreases |run|
  {
    if run == [] then s else After(c, Apply(c, s, run[0]), run[1..])
  }

  // ---------------------------------------------------------------------------------------------
  // The invariant

  /** In round `pass` every worker is waiting for, or past, its request number pass - 1. */
  ghost predicate ActorOk(c: Config, pass: nat, i: int, a: Actor)
    requires Valid(c) && 0 <= i < c.m + c.n
  {
    && (a.phase == Connected || a.phase == Held ==> a.done < |c.prog[i]|)
    && (if i < c.m then
          if pass == 0 then a.done == 0 && a.phase != Dropped
          else (a.done == 0 && a.phase == Dropped) || (a.done == 1 && a.phase == Thinking)
        else if pass == 0 then a.done == 0 && a.phase == Thinking
        else if a.phase == Dropped then a.done + 2 == pass
        else a.done + 1 == pass)
  }

  ghost predicate ActorsOk(c: Config, pass: nat, actors: seq<Actor>)
    requires Valid(c)
  {
    |actors| == c.m + c.n && forall i :: 0 <= i < c.m + c.n ==> ActorOk(c, pass, i, actors[i])
  }

  /** The request that participant i contributes to round `pass`. */
  function Slot(pass: nat): nat {
    if pass == 0 then 0 else pass - 1
  }

  predicate InRound(c: Config, pass: nat, i: int) {
    if pass == 0 then 0 <= i < c.m else IsWorker(c, i)
  }

  ghost predicate Contributes(c: Config, pass: nat, i: int)
    requires Valid(c)
  {
    InRound(c, pass, i) && Slot(pass) < |c.prog[i]|
  }

  function Contribution(c: Config, pass: nat, i: int): Request
    requires Valid(c) && Contributes(c, pass, i)
  {
    c.prog[i][Slot(pass)]
  }

  predicate Acceptable(command: Command, firstPass: bool) {
    if firstPass then command == Tnet
    else command != Fail && command != Blank && command != Time && command != Tnet
  }

  /** `order` lists participants of round `pass`, none twice, whose requests all carry `command`. */
  ghost predicate OrderOk(c: Config, pass: nat, order: seq<nat>, command: Command)
    requires Valid(c)
  {
    && Distinct(order)
    && (forall k :: 0 <= k < |order| ==> Contributes(c, pass, order[k]))
    && (forall k :: 0 <= k < |order| ==> Contribution(c, pass, order[k]).command == command)
    && (order != [] ==> Acceptable(command, pass == 0))
  }

  /** Result file n - k holds the k-th accepted result. */
  ghost predicate FilesOk(c: Config, pass: nat, order: seq<nat>, files: map<nat, string>)
    requires Valid(c) && forall k :: 0 <= k < |order| ==> Contributes(c, pass, order[k])
  {
    && |order| <= c.n
    && (forall k :: 0 <= k < |order| ==>
          c.n - k in files && files[c.n - k] == RStrip(Contribution(c, pass, order[k]).payload))
    && (forall f :: f in files ==> c.n - |order| < f <= c.n)
  }

  /** The round state is the one the accepted participants led to. */
  ghost predicate RoundOk(c: Config, pass: nat, order: seq<nat>, r: Round)
    requires Valid(c)
  {
    && OrderOk(c, pass, order, r.expectedCommand)
    && r.remaining + |order| == Expected(c, pass)
    && (forall a :: a in r.known ==> exists k :: 0 <= k < |order| && Contribution(c, pass, order[k]).address == a)
    && (order == [] ==> r == Fresh(Expected(c, pass)))
    && (order != [] ==> r.command == Some(r.expectedCommand))
    && (pass > 0 ==> r.netClients == map[])
    && (r.expectedCommand == Rslt ==> FilesOk(c, pass, order, r.results))
  }

  /** The accepted participants are those that are held. */
  ghost predicate HeldOk(order: seq<nat>, actors: seq<Actor>) {
    && (forall k :: 0 <= k < |order| ==> order[k] < |actors| && actors[order[k]].phase == Held)
    && (forall i :: 0 <= i < |actors| && actors[i].phase == Held ==> i in order)
  }

  /** All workers send the same command as their request number k, and one a later round accepts. */
  ghost predicate AgreeAt(c: Config, k: nat)
    requires Valid(c)
  {
    && k < |c.prog[c.m]|
    && (forall i :: IsWorker(c, i) ==> k < |c.prog[i]| && c.prog[i][k].command == c.prog[c.m][k].command)
    && Acceptable(c.prog[c.m][k].command, false)
  }

  ghost predicate History(c: Config, rounds: nat)
    requires Valid(c)
  {
    forall k :: 0 <= k < rounds ==> AgreeAt(c, k) && c.prog[c.m][k].command != Rslt
  }

  /** The workers agree on every request up to the first result, and results are what they send last. */
  ghost predicate CompletesAt(c: Config, rounds: nat)
    requires Valid(c)
  {
    rounds > 0 && History(c, rounds - 1) && AgreeAt(c, rounds - 1) && c.prog[c.m][rounds - 1].command == Rslt
  }

  ghost predicate ServerOk(c: Config, s: State)
    requires Valid(c)
  {
    match s.server
    case Collecting(r) =>
      && RoundOk(c, s.pass, s.order, r) && HeldOk(s.order, s.actors)
      && History(c, Slot(s.pass))
    case Finished(files) =>
      && s.pass >= 2 && CompletesAt(c, s.pass - 1) && HeldOk([], s.actors)
      && OrderOk(c, s.pass - 1, s.order, Rslt) && |s.order| == c.n
      && FilesOk(c, s.pass - 1, s.order, files)
    case Failed => true
  }

  ghost predicate Inv(c: Config, s: State)
    requires Valid(c)
  {
    && |s.actors| == c.m + c.n
    && (!s.server.Failed? ==> ActorsOk(c, s.pass, s.actors) && ServerOk(c, s))
  }

  lemma {:induction false} InitialInv(c: Config)
    requires Valid(c)
    ensures Inv(c, Initial(c))
  {
  }

  /** A participant that was not accepted yet has an address the round does not know. */
  lemma {:induction false} NewAddress(c: Config, pass: nat, order: seq<nat>, r: Round, i: nat)
    requires Valid(c) && RoundOk(c, pass, order, r) && Contributes(c, pass, i) && i !in order
    ensures Contribution(c, pass, i).address !in r.known
  {
    forall k | 0 <= k < |order| ensures Contribution(c, pass, order[k]).address != Contribution(c, pass, i).address {
      assert order[k] != i;
    }
  }

  /** The round state after a request from a new address was counted. */
  ghost predicate Counted(r: Round, q: Request, t: Round)
    requires r.remaining > 0
  {
    && t.remaining == r.remaining - 1 && t.known == r.known + {q.address}
    && t.command == Some(q.command) && t.expectedCommand == q.command
    && (q.command != Tnet ==> t.netClients == r.netClients)
    && t.results == if q.command == Rslt then r.results[r.remaining := RStrip(q.payload)] else r.results
  }

  lemma {:induction false} AdmitNew(r: Round, q: Request, firstPass: bool, json: JsonHave)
    requires r.remaining > 0 && q.address !in r.known && q.command != Blank
    requires r.expectedCommand != Blank ==> Acceptable(r.expectedCommand, firstPass)
    requires firstPass ==> q.command == Tnet && json(q.payload).Some?
    ensures var o := Admit(r, q, firstPass, json);
            && (o.Going? <==> Acceptable(q.command, firstPass)
                              && (r.expectedCommand == Blank || q.command == r.expectedCommand))
            && (o.Going? ==> Counted(r, q, o.round))
  {
  }

  lemma {:induction false} CountedOrder(c: Config, pass: nat, order: seq<nat>, i: nat, committed: Command, command: Command)
    requires Valid(c) && OrderOk(c, pass, order, committed) && Contributes(c, pass, i) && i !in order
    requires Contribution(c, pass, i).command == command && Acceptable(command, pass == 0) && (order == [] || committed == command)
    ensures OrderOk(c, pass, order + [i], command)
  {
    var longer := order + [i];
    assert forall k :: 0 <= k < |longer| ==> longer[k] == if k < |order| then order[k] else i;
  }

  lemma {:induction false} CountedFiles(c: Config, pass: nat, order: seq<nat>, i: nat, files: map<nat, string>)
    requires Valid(c) && OrderOk(c, pass, order, Rslt) && Contributes(c, pass, i)
    requires FilesOk(c, pass, order, files) && |order| < c.n
    ensures var longer := order + [i];
            && (forall k :: 0 <= k < |longer| ==> Contributes(c, pass, longer[k]))
            && FilesOk(c, pass, longer, files[c.n - |order| := RStrip(Contribution(c, pass, i).payload)])
  {
    var longer := order + [i];
    assert forall k :: 0 <= k < |longer| ==> longer[k] == if k < |order| then order[k] else i;
  }

  /** What admitting the request of a connected participant does to a good round. */
  lemma {:induction false} AddressesGrow(c: Config, pass: nat, order: seq<nat>, i: nat, known: set<Address>)
    requires Valid(c) && Contributes(c, pass, i) && forall k :: 0 <= k < |order| ==> Contributes(c, pass, order[k])
    requires forall a :: a in known ==> exists k :: 0 <= k < |order| && Contribution(c, pass, order[k]).address == a
    ensures var longer := order + [i];
            forall a :: a in known + {Contribution(c, pass, i).address} ==>
              exists k :: 0 <= k < |longer| && Contribution(c, pass, longer[k]).address == a
  {
    var longer := order + [i];
    forall a | a in known + {Contribution(c, pass, i).address}
      ensures exists k :: 0 <= k < |longer| && Contribution(c, pass, longer[k]).address == a
    {
      if a == Contribution(c, pass, i).address {
        assert longer[|order|] == i;
      } else {
        var k :| 0 <= k < |order| && Contribution(c, pass, order[k]).address == a;
        assert longer[k] == order[k];
      }
    }
  }

  lemma {:induction false} AdmitSlot(c: Config, pass: nat, order: seq<nat>, r: Round, i: nat)
    requires Valid(c) && RoundOk(c, pass, order, r) && r.remaining > 0
    requires Contributes(c, pass, i) && i !in order
    ensures var q := Contribution(c, pass, i); var o := Admit(r, q, pass == 0, c.json);
            && (o.Going? <==> Acceptable(q.command, pass == 0) && (order == [] || q.command == r.expectedCommand))
            && (o.Going? ==> RoundOk(c, pass, order + [i], o.round))
  {
    var q := Contribution(c, pass, i);
    NewAddress(c, pass, order, r, i);
    assert order != [] ==> r.expectedCommand != Blank;
    AdmitNew(r, q, pass == 0, c.json);
    var o := Admit(r, q, pass == 0, c.json);
    if o.Going? {
      var t := o.round;
      CountedOrder(c, pass, order, i, r.expectedCommand, q.command);
      AddressesGrow(c, pass, order, i, r.known);
      if q.command == Rslt { CountedFiles(c, pass, order, i, r.results); }
    }
  }

  lemma {:induction false} AcceptActors(c: Config, pass: nat, order: seq<nat>, actors: seq<Actor>, i: nat)
    requires Valid(c) && ActorsOk(c, pass, actors) && HeldOk(order, actors)
    requires i < |actors| && actors[i].phase == Connected
    ensures var held := actors[i := Actor(actors[i].done, Held)];
            ActorsOk(c, pass, held) && HeldOk(order + [i], held)
    ensures i !in order && Contributes(c, pass, i) && actors[i].done == Slot(pass)
  {
    var held, longer := actors[i := Actor(actors[i].done, Held)], order + [i];
    assert ActorOk(c, pass, i, actors[i]);
    assert forall k :: 0 <= k < |longer| ==> longer[k] == if k < |order| then order[k] else i;
    forall j | 0 <= j < |held| && held[j].phase == Held ensures j in longer {
      if j != i { assert j in order; } else { assert longer[|order|] == i; }
    }
    forall j | 0 <= j < c.m + c.n ensures ActorOk(c, pass, j, held[j]) {
      assert ActorOk(c, pass, j, actors[j]);
    }
  }

  lemma {:induction false} AcceptKeepsInv(c: Config, s: State, i: nat)
    requires Valid(c) && Inv(c, s) && Enabled(c, s, Accept(i))
    ensures Inv(c, Apply(c, s, Accept(i)))
    ensures Contributes(c, s.pass, i)
    ensures var q := Contribution(c, s.pass, i);
            Apply(c, s, Accept(i)).server.Failed? <==>
              !(Acceptable(q.command, s.pass == 0) && (s.order == [] || q.command == s.server.round.expectedCommand))
  {
    AcceptActors(c, s.pass, s.order, s.actors, i);
    AdmitSlot(c, s.pass, s.order, s.server.round, i);
  }

  /** A full round holds every participant of the round, so they all agree. */
  lemma {:induction false} FullRound(c: Config, pass: nat, order: seq<nat>, command: Command)
    requires Valid(c) && OrderOk(c, pass, order, command) && |order| == Expected(c, pass)
    ensures order != [] && Acceptable(command, pass == 0)
    ensures forall i :: InRound(c, pass, i) ==>
      i in order && Contributes(c, pass, i) && Contribution(c, pass, i).command == command
    ensures pass > 0 ==> AgreeAt(c, pass - 1) && c.prog[c.m][pass - 1].command == command
  {
    var lo, hi := if pass == 0 then 0 else c.m, if pass == 0 then c.m else c.m + c.n;
    var ids: seq<int> := order;
    assert forall k :: 0 <= k < |ids| ==> InRound(c, pass, order[k]);
    DistinctCovers(ids, lo, hi);
    forall i | InRound(c, pass, i)
      ensures i in order && Contributes(c, pass, i) && Contribution(c, pass, i).command == command
    {
      assert i in ids;
      var k :| 0 <= k < |ids| && ids[k] == i;
      assert order[k] == i;
    }
    if pass > 0 {
      assert InRound(c, pass, c.m);
      forall i | IsWorker(c, i) ensures pass - 1 < |c.prog[i]| && c.prog[i][pass - 1].command == command {
        assert InRound(c, pass, i);
      }
    }
  }

  /** When everybody in the round is held, closing it moves everybody to the next round. */
  lemma {:induction false} CloseActors(c: Config, pass: nat, order: seq<nat>, actors: seq<Actor>)
    requires Valid(c) && ActorsOk(c, pass, actors) && HeldOk(order, actors)
    requires forall i :: InRound(c, pass, i) ==> i in order
    ensures ActorsOk(c, pass + 1, Drop(actors)) && HeldOk([], Drop(actors))
  {
    forall i | 0 <= i < c.m + c.n ensures ActorOk(c, pass + 1, i, Drop(actors)[i]) {
      assert ActorOk(c, pass, i, actors[i]);
      if InRound(c, pass, i) { assert i in order; }
    }
  }

  /** A full round ends with code 2 if it collected results, and with code 0 otherwise. */
  lemma {:induction false} CloseCode(c: Config, pass: nat, order: seq<nat>, r: Round)
    requires Valid(c) && RoundOk(c, pass, order, r) && r.remaining == 0
    ensures ExitCode(r) == 2 || ExitCode(r) == 0
    ensures ExitCode(r) == 2 <==> r.expectedCommand == Rslt
    ensures r.expectedCommand == Rslt ==> pass > 0
  {
    FullRound(c, pass, order, r.expectedCommand);
  }

  lemma {:induction false} CloseHistory(c: Config, pass: nat, command: Command)
    requires Valid(c) && History(c, Slot(pass))
    requires pass > 0 ==> AgreeAt(c, pass - 1) && c.prog[c.m][pass - 1].command == command
    ensures pass > 0 && command == Rslt ==> CompletesAt(c, pass)
    ensures pass == 0 || command != Rslt ==> History(c, pass)
  {
  }

  lemma {:induction false} CloseKeepsInv(c: Config, s: State)
    requires Valid(c) && Inv(c, s) && Enabled(c, s, Close)
    ensures Inv(c, Apply(c, s, Close))
    ensures s.pass > 0 ==> |c.prog[c.m]| >= s.pass
    ensures var t := Apply(c, s, Close);
            !t.server.Failed? && (t.server.Finished? <==> s.pass > 0 && c.prog[c.m][s.pass - 1].command == Rslt)
  {
    var r := s.server.round;
    FullRound(c, s.pass, s.order, r.expectedCommand);
    CloseCode(c, s.pass, s.order, r);
    CloseActors(c, s.pass, s.order, s.actors);
    CloseHistory(c, s.pass, r.expectedCommand);
  }

  /** Changing one participant that is not held, and does not become held. */
  lemma {:induction false} SetActor(c: Config, pass: nat, order: seq<nat>, actors: seq<Actor>, i: nat, a: Actor)
    requires Valid(c) && ActorsOk(c, pass, actors) && HeldOk(order, actors)
    requires i < |actors| && actors[i].phase != Held && a.phase != Held && ActorOk(c, pass, i, a)
    ensures ActorsOk(c, pass, actors[i := a]) && HeldOk(order, actors[i := a])
  {
    var after := actors[i := a];
    forall j | 0 <= j < c.m + c.n ensures ActorOk(c, pass, j, after[j]) {
      assert ActorOk(c, pass, j, actors[j]);
    }
  }

  function Waiters(s: State): seq<nat> {
    if s.server.Collecting? then s.order else []
  }

  lemma {:induction false} IssueKeepsInv(c: Config, s: State, i: nat)
    requires Valid(c) && Inv(c, s) && Enabled(c, s, Issue(i))
    ensures Inv(c, Apply(c, s, Issue(i)))
  {
    if !s.server.Failed? {
      assert ActorOk(c, s.pass, i, s.actors[i]);
      if IsWorker(c, i) {
        var h := c.home[i - c.m];
        assert ActorOk(c, s.pass, h, s.actors[h]);
      }
      SetActor(c, s.pass, Waiters(s), s.actors, i, Actor(s.actors[i].done, Connected));
    }
  }

  lemma {:induction false} ReturnKeepsInv(c: Config, s: State, i: nat)
    requires Valid(c) && Inv(c, s) && Enabled(c, s, Return(i))
    ensures Inv(c, Apply(c, s, Return(i)))
  {
    if !s.server.Failed? {
      assert ActorOk(c, s.pass, i, s.actors[i]);
      SetActor(c, s.pass, Waiters(s), s.actors, i, Actor(s.actors[i].done + 1, Thinking));
    }
  }

  lemma {:induction false} StepKeepsInv(c: Config, s: State, e: Event)
    requires Valid(c) && Inv(c, s) && Enabled(c, s, e)
    ensures Inv(c, Apply(c, s, e))
  {
    match e
    case Accept(i) => AcceptKeepsInv(c, s, i);
    case Close => CloseKeepsInv(c, s);
    case Issue(i) => IssueKeepsInv(c, s, i);
    case Return(i) => ReturnKeepsInv(c, s, i);
  }

  lemma {:induction false} RunKeepsInv(c: Config, s: State, run: seq<Event>)
    requires Valid(c) && Inv(c, s) && Possible(c, s, run)
    ensures Inv(c, After(c, s, run))
    decreases |run|
  {
    if run != [] {
      StepKeepsInv(c, s, run[0]);
      RunKeepsInv(c, Apply(c, s, run[0]), run[1..]);
    }
  }

  // ---------------------------------------------------------------------------------------------
  // Lockstep

  /** How often `e` occurs in a run. */
  function Count(run: seq<Event>, e: Event): nat {
    if run == [] then 0 else (if run[0] == e then 1 else 0) + Count(run[1..], e)
  }

  function Issued(a: Actor): nat {
    a.done + if a.phase == Thinking then 0 else 1
  }

  /** The actor states count the requests sent and returned in the run, failed or not. */
  lemma {:induction false} CountsMatch(c: Config, s: State, run: seq<Event>, i: nat)
    requires Valid(c) && |s.actors| == c.m + c.n && i < |s.actors| && Possible(c, s, run)
    ensures After(c, s, run).actors[i].done == s.actors[i].done + Count(run, Return(i))
    ensures Issued(After(c, s, run).actors[i]) == Issued(s.actors[i]) + Count(run, Issue(i))
    decreases |run|
  {
    if run != [] { CountsMatch(c, Apply(c, s, run[0]), run[1..], i); }
  }

  /** What the invariant says about the numbers of steps taken. */
  lemma {:induction false} StepNumbers(c: Config, pass: nat, actors: seq<Actor>)
    requires Valid(c) && ActorsOk(c, pass, actors)
    ensures forall i, j :: IsWorker(c, i) && IsWorker(c, j) ==> actors[i].done <= Issued(actors[j])
    ensures forall i, j :: IsWorker(c, i) && IsWorker(c, j) ==> actors[i].done <= actors[j].done + 1
    ensures forall i, j :: 0 <= i < c.m && 0 <= j < c.m ==> actors[i].done <= Issued(actors[j])
    ensures forall i, j :: IsWorker(c, i) && 0 <= j < c.m && Issued(actors[i]) > 0 ==> Issued(actors[j]) > 0
  {
    assert forall i :: 0 <= i < c.m + c.n ==> ActorOk(c, pass, i, actors[i]);
  }

  /** Barrier lockstep: after any run in which the sync pod has not failed, no worker's k-th request has returned
      unless every worker has sent its k-th, and no container's first request has returned unless all have sent
      theirs. So the numbers of completed steps of two workers never differ by more than one. */
  lemma {:induction false} Lockstep(c: Config, run: seq<Event>)
    requires Valid(c) && Possible(c, Initial(c), run) && !After(c, Initial(c), run).server.Failed?
    ensures forall i, j :: IsWorker(c, i) && IsWorker(c, j) ==> Count(run, Return(i)) <= Count(run, Issue(j))
    ensures forall i, j :: IsWorker(c, i) && IsWorker(c, j) ==> Count(run, Return(i)) <= Count(run, Return(j)) + 1
    ensures forall i, j :: 0 <= i < c.m && 0 <= j < c.m ==> Count(run, Return(i)) <= Count(run, Issue(j))
    ensures forall i, j :: IsWorker(c, i) && 0 <= j < c.m && Count(run, Issue(i)) > 0 ==> Count(run, Issue(j)) > 0
  {
    var s := After(c, Initial(c), run);
    assert ActorsOk(c, s.pass, s.actors) by {
      InitialInv(c);
      RunKeepsInv(c, Initial(c), run);
    }
    StepNumbers(c, s.pass, s.actors);
    forall i: nat | i < c.m + c.n
      ensures s.actors[i].done == Count(run, Return(i)) && Issued(s.actors[i]) == Count(run, Issue(i))
    {
      CountsMatch(c, Initial(c), run, i);
    }
  }

  // ---------------------------------------------------------------------------------------------
  // Termination

  function PhaseRank(p: Phase): nat {
    match p case Thinking => 0 case Connected => 1 case Held => 2 case Dropped => 3
  }

  /** The steps an actor has taken. */
  function Rank(a: Actor): nat {
    4 * a.done + PhaseRank(a.phase)
  }

  function Work(actors: seq<Actor>): nat {
    if actors == [] then 0 else Rank(actors[0]) + Work(actors[1..])
  }

  function Bound(prog: seq<seq<Request>>): nat {
    if prog == [] then 0 else 4 * |prog[0]| + Bound(prog[1..])
  }

  lemma {:induction false} WorkGrows(a: seq<Actor>, b: seq<Actor>, i: nat)
    requires |a| == |b| && i < |a| && Rank(a[i]) < Rank(b[i])
    requires forall k :: 0 <= k < |a| ==> Rank(a[k]) <= Rank(b[k])
    ensures Work(a) < Work(b)
  {
    if i == 0 { WorkMonotone(a[1..], b[1..]); } else { WorkGrows(a[1..], b[1..], i - 1); }
  }

  lemma {:induction false} WorkMonotone(a: seq<Actor>, b: seq<Actor>)
    requires |a| == |b| && forall k :: 0 <= k < |a| ==> Rank(a[k]) <= Rank(b[k])
    ensures Work(a) <= Work(b)
  {
    if a != [] { WorkMonotone(a[1..], b[1..]); }
  }

  /** Nobody goes past the end of its program, whether or not the sync pod has failed; and an open round
      that is full holds somebody. */
  ghost predicate Sane(c: Config, s: State)
    requires Valid(c)
  {
    && |s.actors| == c.m + c.n
    && (forall i :: 0 <= i < |s.actors| ==> Issued(s.actors[i]) <= |c.prog[i]|)
  }

  lemma {:induction false} SaneBound(actors: seq<Actor>, prog: seq<seq<Request>>)
    requires |actors| == |prog| && forall i :: 0 <= i < |actors| ==> Issued(actors[i]) <= |prog[i]|
    ensures Work(actors) <= Bound(prog)
  {
    if actors != [] { SaneBound(actors[1..], prog[1..]); }
  }

  lemma {:induction false} DropWorks(actors: seq<Actor>)
    ensures Work(actors) <= Work(Drop(actors))
    ensures forall i :: 0 <= i < |actors| && actors[i].phase == Held ==> Work(actors) < Work(Drop(actors))
    ensures forall i :: 0 <= i < |actors| ==> Issued(Drop(actors)[i]) == Issued(actors[i])
  {
    WorkMonotone(actors, Drop(actors));
    forall i | 0 <= i < |actors| && actors[i].phase == Held ensures Work(actors) < Work(Drop(actors)) {
      WorkGrows(actors, Drop(actors), i);
    }
  }

  lemma {:induction false} SetWorks(actors: seq<Actor>, i: nat, a: Actor)
    requires i < |actors| && Rank(actors[i]) < Rank(a)
    ensures Work(actors) < Work(actors[i := a])
  {
    WorkGrows(actors, actors[i := a], i);
  }

  lemma {:induction false} CloseWorks(c: Config, s: State)
    requires Valid(c) && Inv(c, s) && Enabled(c, s, Close)
    ensures Work(s.actors) < Work(Drop(s.actors))
  {
    FullRound(c, s.pass, s.order, s.server.round.expectedCommand);
    DropWorks(s.actors);
    assert s.actors[s.order[0]].phase == Held;
  }

  lemma {:induction false} StepSane(c: Config, s: State, e: Event)
    requires Valid(c) && Sane(c, s) && Enabled(c, s, e)
    ensures Sane(c, Apply(c, s, e))
  {
  }

  /** Every step takes some participant further. */
  lemma {:induction false} StepWorks(c: Config, s: State, e: Event)
    requires Valid(c) && Inv(c, s) && Enabled(c, s, e)
    ensures Work(s.actors) < Work(Apply(c, s, e).actors)
  {
    match e
    case Close =>
      CloseWorks(c, s);
    case Accept(i) =>
      SetWorks(s.actors, i, Actor(s.actors[i].done, Held));
      DropWorks(s.actors[i := Actor(s.actors[i].done, Held)]);
    case Issue(i) =>
      SetWorks(s.actors, i, Actor(s.actors[i].done, Connected));
    case Return(i) =>
      SetWorks(s.actors, i, Actor(s.actors[i].done + 1, Thinking));
  }

  lemma {:induction false} RunWorks(c: Config, s: State, run: seq<Event>)
    requires Valid(c) && Inv(c, s) && Sane(c, s) && Possible(c, s, run)
    ensures Work(s.actors) + |run| <= Bound(c.prog)
    ensures Sane(c, After(c, s, run))
    decreases |run|
  {
    if run == [] {
      SaneBound(s.actors, c.prog);
    } else {
      StepWorks(c, s, run[0]);
      StepSane(c, s, run[0]);
      StepKeepsInv(c, s, run[0]);
      RunWorks(c, Apply(c, s, run[0]), run[1..]);
    }
  }

  /** No run is longer than four steps for each request of each participant. */
  lemma {:induction false} RunsAreBounded(c: Config, run: seq<Event>)
    requires Valid(c) && Possible(c, Initial(c), run)
    ensures |run| <= Bound(c.prog)
  {
    InitialInv(c);
    RunWorks(c, Initial(c), run);
  }

  // ---------------------------------------------------------------------------------------------
  // How runs end

  /** Where a run of agreeing workers can be. */
  ghost predicate OnTrack(c: Config, rounds: nat, s: State)
    requires Valid(c) && CompletesAt(c, rounds)
  {
    Inv(c, s) && !s.server.Failed? && s.pass <= rounds + 1 && (s.server.Finished? <==> s.pass == rounds + 1)
  }

  lemma {:induction false} StepOnTrack(c: Config, rounds: nat, s: State, e: Event)
    requires Valid(c) && CompletesAt(c, rounds) && OnTrack(c, rounds, s) && Enabled(c, s, e)
    ensures OnTrack(c, rounds, Apply(c, s, e))
  {
    StepKeepsInv(c, s, e);
    if e.Accept? {
      AcceptKeepsInv(c, s, e.who);
      if s.pass > 0 {
        assert c.prog[e.who][s.pass - 1].command == c.prog[c.m][s.pass - 1].command;
        if s.order != [] {
          assert Contribution(c, s.pass, s.order[0]).command == s.server.round.expectedCommand;
          assert c.prog[s.order[0]][s.pass - 1].command == c.prog[c.m][s.pass - 1].command;
        }
      } else if s.order != [] {
        assert Contribution(c, s.pass, s.order[0]).command == s.server.round.expectedCommand;
      }
    } else if e.Close? {
      CloseKeepsInv(c, s);
    }
  }

  lemma {:induction false} RunOnTrack(c: Config, rounds: nat, s: State, run: seq<Event>)
    requires Valid(c) && CompletesAt(c, rounds) && OnTrack(c, rounds, s) && Possible(c, s, run)
    ensures OnTrack(c, rounds, After(c, s, run))
    decreases |run|
  {
    if run != [] {
      StepOnTrack(c, rounds, s, run[0]);
      RunOnTrack(c, rounds, Apply(c, s, run[0]), run[1..]);
    }
  }

  /** A round that is not full misses one of its participants. */
  lemma {:induction false} Missing(c: Config, pass: nat, order: seq<nat>, command: Command) returns (i: nat)
    requires Valid(c) && OrderOk(c, pass, order, command) && |order| < Expected(c, pass)
    ensures InRound(c, pass, i) && i !in order
  {
    var lo, hi := if pass == 0 then 0 else c.m, if pass == 0 then c.m else c.m + c.n;
    var ids: seq<int> := order;
    assert forall k :: 0 <= k < |ids| ==> InRound(c, pass, order[k]);
    DistinctCovers(ids, lo, hi);
    var x :| lo <= x < hi && x !in ids;
    i := x;
  }

  /** Workers that agree are never stuck before the run has finished. */
  lemma {:induction false} NotStuck(c: Config, rounds: nat, s: State) returns (e: Event)
    requires Valid(c) && CompletesAt(c, rounds) && OnTrack(c, rounds, s) && !s.server.Finished?
    ensures Enabled(c, s, e)
  {
    var r := s.server.round;
    if r.remaining == 0 { return Close; }
    var i := Missing(c, s.pass, s.order, r.expectedCommand);
    assert ActorOk(c, s.pass, i, s.actors[i]);
    match s.actors[i].phase
    case Connected => return Accept(i);
    case Dropped => return Return(i);
    case Thinking =>
      if s.pass > 0 {
        var h := c.home[i - c.m];
        assert ActorOk(c, s.pass, h, s.actors[h]);
        assert AgreeAt(c, s.pass - 1);
        if s.actors[h].phase == Dropped { return Return(h); }
      }
      return Issue(i);
  }

  /** If all workers send the same SYNC ... SYNC, RSLT commands, then no run makes the sync pod fail, a run that cannot
      be continued has finished, and a finished one has gone through exactly the workers' rounds. */
  lemma {:induction false} AgreeingRunsFinish(c: Config, rounds: nat, run: seq<Event>)
    requires Valid(c) && CompletesAt(c, rounds) && Possible(c, Initial(c), run)
    ensures !After(c, Initial(c), run).server.Failed?
    ensures After(c, Initial(c), run).server.Finished? || exists e :: Enabled(c, After(c, Initial(c), run), e)
    ensures After(c, Initial(c), run).server.Finished? ==> After(c, Initial(c), run).pass == rounds + 1
  {
    InitialInv(c);
    RunOnTrack(c, rounds, Initial(c), run);
    var s := After(c, Initial(c), run);
    if !s.server.Finished? {
      var e := NotStuck(c, rounds, s);
    }
  }

  /** From anywhere on track the run can be completed. */
  lemma {:induction false} CompleteFrom(c: Config, rounds: nat, s: State) returns (run: seq<Event>)
    requires Valid(c) && CompletesAt(c, rounds) && OnTrack(c, rounds, s) && Sane(c, s)
    ensures Possible(c, s, run) && After(c, s, run).server.Finished?
    decreases Bound(c.prog) - Work(s.actors)
  {
    if s.server.Finished? { return []; }
    var e := NotStuck(c, rounds, s);
    var t := Apply(c, s, e);
    StepWorks(c, s, e);
    StepSane(c, s, e);
    StepOnTrack(c, rounds, s, e);
    SaneBound(s.actors, c.prog);
    SaneBound(t.actors, c.prog);
    var rest := CompleteFrom(c, rounds, t);
    run := [e] + rest;
    assert run[1..] == rest;
  }

  /** A run can finish exactly when the workers agree on every command up to their first result and none of
      these is one a later round refuses. In particular, if two workers differ before that, no run finishes. */
  lemma {:induction false} FinishesExactlyIfAgreed(c: Config)
    requires Valid(c)
    ensures (exists run :: Possible(c, Initial(c), run) && After(c, Initial(c), run).server.Finished?)
       <==> (exists rounds :: CompletesAt(c, rounds))
  {
    if rounds: nat :| CompletesAt(c, rounds) {
      InitialInv(c);
      var run := CompleteFrom(c, rounds, Initial(c));
    }
    if run :| Possible(c, Initial(c), run) && After(c, Initial(c), run).server.Finished? {
      FinishedAgreed(c, run);
    }
  }

  lemma {:induction false} FinishedAgreed(c: Config, run: seq<Event>)
    requires Valid(c) && Possible(c, Initial(c), run) && After(c, Initial(c), run).server.Finished?
    ensures var s := After(c, Initial(c), run); s.pass > 0 && CompletesAt(c, s.pass - 1)
  {
    InitialInv(c);
    RunKeepsInv(c, Initial(c), run);
  }

  // ---------------------------------------------------------------------------------------------
  // The collected results

  /** Whom the sync pod accepted, in order, over the whole run. */
  function Accepts(run: seq<Event>): seq<nat> {
    if run == [] then [] else (if run[0].Accept? then [run[0].who] else []) + Accepts(run[1..])
  }

  predicate IsSuffix<T(==)>(s: seq<T>, t: seq<T>) {
    |s| <= |t| && t[|t| - |s|..] == s
  }

  lemma {:induction false} OrderIsRecent(c: Config, s: State, run: seq<Event>)
    requires Valid(c) && |s.actors| == c.m + c.n && Possible(c, s, run)
    requires !After(c, s, run).server.Failed?
    ensures IsSuffix(After(c, s, run).order, s.order + Accepts(run))
    decreases |run|
  {
    if run == [] {
      assert s.order + [] == s.order;
    } else {
      var t := Apply(c, s, run[0]);
      if t.server.Failed? { FailedForever(c, t, run[1..]); }
      OrderIsRecent(c, t, run[1..]);
      var more := Accepts(run[1..]);
      if run[0].Accept? {
        assert s.order + Accepts(run) == t.order + more;
      } else if t.order == s.order {
        assert Accepts(run) == more;
      } else {
        assert Accepts(run) == more && [] + more == more;
        SuffixOfLonger(After(c, s, run).order, s.order, more);
      }
    }
  }

  lemma {:induction false} SuffixOfLonger<T>(s: seq<T>, a: seq<T>, t: seq<T>)
    requires IsSuffix(s, t)
    ensures IsSuffix(s, a + t)
  {
    var u := a + t;
    assert u[|u| - |s|..] == t[|t| - |s|..];
  }

  lemma {:induction false} FailedForever(c: Config, s: State, run: seq<Event>)
    requires Valid(c) && |s.actors| == c.m + c.n && Possible(c, s, run) && s.server.Failed?
    ensures After(c, s, run).server.Failed?
    decreases |run|
  {
    if run != [] { FailedForever(c, Apply(c, s, run[0]), run[1..]); }
  }

  /** One file per worker: file n - k holds the payload of request number rounds - 1 of worker last[k]. */
  ghost predicate ResultFiles(c: Config, rounds: nat, last: seq<nat>, files: map<nat, string>)
    requires Valid(c) && rounds > 0
  {
    && |last| == c.n && Distinct(last)
    && (forall i :: i in last <==> IsWorker(c, i))
    && (forall f :: f in files <==> 1 <= f <= c.n)
    && (forall k :: 0 <= k < c.n ==>
          && last[k] < |c.prog| && rounds - 1 < |c.prog[last[k]]|
          && c.prog[last[k]][rounds - 1].command == Rslt
          && files[c.n - k] == RStrip(c.prog[last[k]][rounds - 1].payload))
  }

  lemma {:induction false} FullResults(c: Config, pass: nat, last: seq<nat>, files: map<nat, string>)
    requires Valid(c) && pass > 0 && OrderOk(c, pass, last, Rslt) && |last| == c.n
    requires FilesOk(c, pass, last, files)
    ensures ResultFiles(c, pass, last, files)
  {
    FullRound(c, pass, last, Rslt);
    forall i | i in last ensures IsWorker(c, i) {
      var k :| 0 <= k < |last| && last[k] == i;
      assert Contributes(c, pass, last[k]);
    }
    forall i | IsWorker(c, i) ensures i in last {
      assert InRound(c, pass, i);
    }
    forall f | 1 <= f <= c.n ensures f in files {
      var k := c.n - f;
      assert Contributes(c, pass, last[k]) && c.n - k in files;
    }
  }

  lemma {:induction false} FinishedFiles(c: Config, s: State)
    requires Valid(c) && Inv(c, s) && s.server.Finished?
    ensures s.pass >= 2 && ResultFiles(c, s.pass - 1, s.order, s.server.files)
  {
    FullResults(c, s.pass - 1, s.order, s.server.files);
  }

  /** The last n participants accepted in a run. */
  function LastAccepted(run: seq<Event>, n: nat): seq<nat> {
    var all := Accepts(run);
    if n <= |all| then all[|all| - n..] else []
  }

  lemma {:induction false} RunOrder(c: Config, run: seq<Event>)
    requires Valid(c) && Possible(c, Initial(c), run) && !After(c, Initial(c), run).server.Failed?
    ensures IsSuffix(After(c, Initial(c), run).order, Accepts(run))
  {
    OrderIsRecent(c, Initial(c), run);
    assert [] + Accepts(run) == Accepts(run);
  }

  lemma {:induction false} FinishedOrder(c: Config, run: seq<Event>)
    requires Valid(c) && Possible(c, Initial(c), run) && After(c, Initial(c), run).server.Finished?
    ensures var s := After(c, Initial(c), run);
            Inv(c, s) && c.n <= |Accepts(run)| && s.order == LastAccepted(run, c.n)
  {
    RunOrder(c, run);
    var order := After(c, Initial(c), run).order;
    assert Inv(c, After(c, Initial(c), run)) by {
      InitialInv(c);
      RunKeepsInv(c, Initial(c), run);
    }
    assert |order| == c.n;
  }

  /** A run that finishes does so with one result per worker, the files in the reverse of the order in which
      the last n connections of the run were accepted; finish() then reads exactly these. */
  lemma {:induction false} FinishedResults(c: Config, run: seq<Event>)
    requires Valid(c) && Possible(c, Initial(c), run)
    ensures var s := After(c, Initial(c), run);
            s.server.Finished? ==>
              s.pass >= 2 && c.n <= |Accepts(run)| && ResultFiles(c, s.pass - 1, LastAccepted(run, c.n), s.server.files)
  {
    var s := After(c, Initial(c), run);
    if s.server.Finished? {
      FinishedOrder(c, run);
      FinishedWith(c, s, LastAccepted(run, c.n));
    }
  }

  lemma {:induction false} FinishedWith(c: Config, s: State, last: seq<nat>)
    requires Valid(c) && Inv(c, s) && s.server.Finished? && s.order == last
    ensures s.pass >= 2 && ResultFiles(c, s.pass - 1, last, s.server.files)
  {
    FinishedFiles(c, s);
  }
}

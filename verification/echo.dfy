/** The client/server workload (pod_files/client.py, pod_files/server.py). */
module Echo {
  // The client sends a message, the server reads all of it and sends one back, over two byte channels with short reads
  // and writes. Connection errors are left out; each channel keeps up to a fixed number of bytes.

  /** msgSize bytes per message; the client goes on while it has sent fewer than nbytes bytes, or, if timed, while its
      time is not up. */
  datatype Config = Config(msgSize: nat, nbytes: nat, timed: bool, upCapacity: nat, downCapacity: nat)

  predicate ConfigOk(c: Config) {
    c.msgSize > 0 && c.upCapacity >= 1 && c.downCapacity >= 1
  }

  /** The client tests its loop condition, has nleft bytes to send or to receive, or has ended. */
  datatype Client = Testing | Sending(nleft: nat) | Receiving(nleft: nat) | Ended

  /** The server has ntotal bytes of a message, has ntotal bytes still to send, or has returned. */
  datatype Server = Reading(ntotal: nat) | Writing(ntotal: nat) | Returned

  /** up and down are the bytes under way; dataSent, read, written and received count bytes since the beginning. */
  datatype State = State(client: Client, server: Server, up: nat, down: nat,
                         dataSent: nat, read: nat, written: nat, received: nat, npass: nat)

  datatype Event =
    | Test(timeLeft: bool)
    | Send(n: nat)
    | Read(n: nat)
    | Write(n: nat)
    | Receive(n: nat)
    | EndOfFile

  function Init(): State {
    State(Testing, Reading(0), 0, 0, 0, 0, 0, 0, 0)
  }

  /** The condition of the client's loop. */
  predicate GoesOn(c: Config, sent: nat, timeLeft: bool) {
    (c.nbytes > 0 && sent < c.nbytes) || (c.timed && timeLeft)
  }

  predicate Enabled(c: Config, s: State, e: Event) {
    match e
    case Test(_) => s.client.Testing?
    case Send(n) => s.client.Sending? && 1 <= n <= s.client.nleft && s.up + n <= c.upCapacity
    case Read(n) => s.server.Reading? && 1 <= n <= s.up && s.server.ntotal + n <= c.msgSize
    case Write(n) => s.server.Writing? && 1 <= n <= s.server.ntotal && s.down + n <= c.downCapacity
    case Receive(n) => s.client.Receiving? && 1 <= n <= s.client.nleft && n <= s.down
    case EndOfFile => s.client.Ended? && s.server.Reading? && s.up == 0
  }

  function Apply(c: Config, s: State, e: Event): State
    requires Enabled(c, s, e)
  {
    match e
    case Test(timeLeft) => s.(client := if GoesOn(c, s.dataSent, timeLeft) then Sending(c.msgSize) else Ended)
    case Send(n) =>
      s.(client := if s.client.nleft > n then Sending(s.client.nleft - n) else Receiving(c.msgSize),
         up := s.up + n, dataSent := s.dataSent + n)
    case Read(n) =>
      s.(server := if s.server.ntotal + n < c.msgSize then Reading(s.server.ntotal + n) else Writing(c.msgSize),
         up := s.up - n, read := s.read + n)
    case Write(n) =>
      s.(server := if s.server.ntotal > n then Writing(s.server.ntotal - n) else Reading(0),
         down := s.down + n, written := s.written + n)
    case Receive(n) =>
      s.(client := if s.client.nleft > n then Receiving(s.client.nleft - n) else Testing,
         npass := if s.client.nleft > n then s.npass else s.npass + 1,
         down := s.down - n, received := s.received + n)
    case EndOfFile => s.(server := Returned)
  }

  predicate Possible(c: Config, events: seq<Event>)
    decreases |events|, 0
  {
    if events == [] then true
    else
      var before := events[..|events| - 1];
      Possible(c, before) && Enabled(c, After(c, before), events[|events| - 1])
  }

  function After(c: Config, events: seq<Event>): State
    requires Possible(c, events)
    decreases |events|, 1
  {
    if events == [] then Init() else Apply(c, After(c, events[..|events| - 1]), events[|events| - 1])
  }

  // ---------------------------------------------------------------------------------------------
  // The invariant

  /** Where the bytes of the current pass are. */
  predicate Phases(c: Config, s: State) {
    match s.client
    case Testing => s.server == Reading(0) && s.up == 0 && s.down == 0
    case Ended => (s.server == Reading(0) || s.server == Returned) && s.up == 0 && s.down == 0
    case Sending(nleft) =>
      0 < nleft <= c.msgSize && s.down == 0 && s.server.Reading? && s.server.ntotal + s.up == c.msgSize - nleft
    case Receiving(nleft) =>
      0 < nleft <= c.msgSize &&
      match s.server
      case Reading(0) => if s.up > 0 then s.up == c.msgSize == nleft && s.down == 0 else s.down == nleft
      case Reading(ntotal) => ntotal < c.msgSize && ntotal + s.up == c.msgSize == nleft && s.down == 0
      case Writing(ntotal) => 0 < ntotal && s.up == 0 && ntotal + s.down == nleft
      case Returned => false
  }

  /** The bytes of the current pass that the client has sent and received. */
  function SentInPass(c: Config, s: State): int {
    match s.client case Sending(nleft) => c.msgSize - nleft case Receiving(_) => c.msgSize case _ => 0
  }

  function ReceivedInPass(c: Config, s: State): int {
    match s.client case Receiving(nleft) => c.msgSize - nleft case _ => 0
  }

  /** `whole` is npass * msgSize: the bytes of the passes that are over. */
  predicate Inv(c: Config, s: State, whole: nat) {
    && Phases(c, s)
    && s.up <= c.upCapacity && s.down <= c.downCapacity
    && s.dataSent == s.read + s.up && s.written == s.received + s.down
    && s.dataSent == whole + SentInPass(c, s) && s.received == whole + ReceivedInPass(c, s)
  }

  /** What is known about the loop condition. */
  predicate Limits(c: Config, s: State, whole: nat) {
    && (s.client.Ended? && c.nbytes > 0 ==> whole >= c.nbytes)
    && (!c.timed && (s.client.Sending? || s.client.Receiving?) ==> whole < c.nbytes)
    && (!c.timed ==> if c.nbytes == 0 then whole == 0 else whole < c.nbytes + c.msgSize)
  }

  function Whole(c: Config, s: State): (w: nat) {
    s.npass * c.msgSize
  }

  lemma {:induction false} TestKeeps(c: Config, s: State, e: Event, whole: nat)
    requires ConfigOk(c) && Inv(c, s, whole) && Limits(c, s, whole) && Enabled(c, s, e) && (e.Test? || e.EndOfFile?)
    ensures Inv(c, Apply(c, s, e), whole) && Limits(c, Apply(c, s, e), whole)
  {
  }

  lemma {:induction false} UpKeeps(c: Config, s: State, e: Event, whole: nat)
    requires ConfigOk(c) && Inv(c, s, whole) && Limits(c, s, whole) && Enabled(c, s, e) && (e.Send? || e.Read?)
    ensures Inv(c, Apply(c, s, e), whole) && Limits(c, Apply(c, s, e), whole)
  {
  }

  lemma {:induction false} DownKeeps(c: Config, s: State, e: Event, whole: nat)
    requires ConfigOk(c) && Inv(c, s, whole) && Limits(c, s, whole) && Enabled(c, s, e) && (e.Write? || e.Receive?)
    ensures var t := Apply(c, s, e); var more := if t.npass == s.npass then whole else whole + c.msgSize;
            Inv(c, t, more) && Limits(c, t, more)
  {
  }

  lemma {:induction false} NextWhole(n: nat, m: nat, size: nat, whole: nat, more: nat)
    requires whole == n * size
    requires if m == n then more == whole else m == n + 1 && more == whole + size
    ensures more == m * size
  {
  }

  lemma {:induction false} ApplyKeeps(c: Config, s: State, e: Event, whole: nat) returns (more: nat)
    requires ConfigOk(c) && Inv(c, s, whole) && Limits(c, s, whole) && Enabled(c, s, e)
    ensures var t := Apply(c, s, e);
            && Inv(c, t, more) && Limits(c, t, more)
            && if t.npass == s.npass then more == whole else t.npass == s.npass + 1 && more == whole + c.msgSize
  {
    more := if Apply(c, s, e).npass == s.npass then whole else whole + c.msgSize;
    if e.Test? || e.EndOfFile? { TestKeeps(c, s, e, whole); }
    else if e.Send? || e.Read? { UpKeeps(c, s, e, whole); }
    else { DownKeeps(c, s, e, whole); }
  }

  lemma {:induction false} RunKeeps(c: Config, events: seq<Event>)
    requires ConfigOk(c) && Possible(c, events)
    ensures var s := After(c, events); Inv(c, s, Whole(c, s)) && Limits(c, s, Whole(c, s))
  {
    if events != [] {
      var s := After(c, events[..|events| - 1]);
      RunKeeps(c, events[..|events| - 1]);
      var more := ApplyKeeps(c, s, events[|events| - 1], Whole(c, s));
      NextWhole(s.npass, After(c, events).npass, c.msgSize, Whole(c, s), more);
    }
  }

  // ---------------------------------------------------------------------------------------------
  // Main results

  /** Conservation: no byte is lost or made up, and the server never answers more than it was asked. */
  lemma {:induction false} BytesConserved(c: Config, events: seq<Event>)
    requires ConfigOk(c) && Possible(c, events)
    ensures var s := After(c, events);
            && s.dataSent == s.read + s.up && s.written == s.received + s.down
            && s.received <= s.written <= s.read <= s.dataSent
  {
    RunKeeps(c, events);
    var s := After(c, events);
    assert Inv(c, s, Whole(c, s));
    InOrder(c, s, Whole(c, s));
  }

  lemma {:induction false} InOrder(c: Config, s: State, whole: nat)
    requires ConfigOk(c) && Inv(c, s, whole)
    ensures s.received <= s.written <= s.read <= s.dataSent
  {
  }

  /** At every pass boundary exactly the messages of the passes have gone each way and both channels are empty. */
  lemma {:induction false} PassBoundary(c: Config, events: seq<Event>)
    requires ConfigOk(c) && Possible(c, events)
    requires After(c, events).client.Testing? || After(c, events).client.Ended?
    ensures var s := After(c, events);
            && s.dataSent == s.read == s.written == s.received == s.npass * c.msgSize
            && s.up == 0 && s.down == 0
  {
    RunKeeps(c, events);
    var s := After(c, events);
    assert Inv(c, s, Whole(c, s));
    AtBoundary(c, s, Whole(c, s));
  }

  lemma {:induction false} AtBoundary(c: Config, s: State, whole: nat)
    requires ConfigOk(c) && Inv(c, s, whole) && (s.client.Testing? || s.client.Ended?)
    ensures s.dataSent == s.read == s.written == s.received == whole && s.up == 0 && s.down == 0
  {
    InOrder(c, s, whole);
  }

  /** A client limited by bytes alone ends as soon as it has sent enough, which is less than one message too much. */
  lemma {:induction false} EnoughAndNotMore(c: Config, events: seq<Event>)
    requires ConfigOk(c) && Possible(c, events) && After(c, events).client.Ended?
    ensures c.nbytes > 0 ==> After(c, events).dataSent >= c.nbytes
    ensures !c.timed && c.nbytes > 0 ==> After(c, events).dataSent < c.nbytes + c.msgSize
    ensures !c.timed && c.nbytes == 0 ==> After(c, events).dataSent == 0
  {
    RunKeeps(c, events);
    var s := After(c, events);
    assert Inv(c, s, Whole(c, s)) && Limits(c, s, Whole(c, s));
    AtBoundary(c, s, Whole(c, s));
  }

  /** The event that can happen next. */
  function Next(c: Config, s: State): Event {
    match s.client
    case Testing => Test(false)
    case Ended => EndOfFile
    case Sending(_) => if s.up < c.upCapacity then Send(1) else Read(1)
    case Receiving(_) =>
      if s.down > 0 then Receive(1) else if s.server.Writing? then Write(1) else Read(1)
  }

  lemma {:induction false} NextEnabled(c: Config, s: State, whole: nat)
    requires ConfigOk(c) && Inv(c, s, whole) && s.server != Returned
    ensures Enabled(c, s, Next(c, s))
  {
  }

  /** No deadlock: until the server has returned, which it does only after the client has ended, something can
      happen. */
  lemma {:induction false} NeverStuck(c: Config, events: seq<Event>)
    requires ConfigOk(c) && Possible(c, events)
    ensures After(c, events).server == Returned ==> After(c, events).client.Ended?
    ensures After(c, events).server != Returned ==> Possible(c, events + [Next(c, After(c, events))])
  {
    RunKeeps(c, events);
    var s := After(c, events);
    assert Inv(c, s, Whole(c, s));
    if s.server != Returned {
      NextEnabled(c, s, Whole(c, s));
      assert (events + [Next(c, s)])[..|events|] == events;
    }
  }

  /** The number of events so far, at most: one for every byte that moved, one for every test, one for the end. */
  function Steps(s: State): nat {
    s.dataSent + s.read + s.written + s.received + s.npass
    + (if s.client.Testing? then 0 else 1) + (if s.server.Returned? then 1 else 0)
  }

  lemma {:induction false} StepCounts(c: Config, s: State, e: Event)
    requires Enabled(c, s, e)
    ensures Steps(Apply(c, s, e)) > Steps(s)
  {
  }

  lemma {:induction false} StepsBound(c: Config, events: seq<Event>)
    requires ConfigOk(c) && Possible(c, events)
    ensures |events| <= Steps(After(c, events))
  {
    if events != [] {
      StepsBound(c, events[..|events| - 1]);
      StepCounts(c, After(c, events[..|events| - 1]), events[|events| - 1]);
    }
  }

  lemma {:induction false} PassesBelow(n: nat, size: nat)
    requires size >= 1
    ensures n <= n * size
  {
  }

  lemma {:induction false} StepsAtMost(c: Config, s: State, whole: nat)
    requires ConfigOk(c) && !c.timed && Inv(c, s, whole) && Limits(c, s, whole) && s.npass <= whole
    ensures Steps(s) <= 5 * (c.nbytes + c.msgSize) + 2
  {
    InOrder(c, s, whole);
  }

  /** A client limited by bytes alone ends: its runs have a bounded length, and end with both sides ended. */
  lemma {:induction false} RunsEnd(c: Config, events: seq<Event>)
    requires ConfigOk(c) && !c.timed && Possible(c, events)
    ensures |events| <= 5 * (c.nbytes + c.msgSize) + 2
  {
    RunKeeps(c, events);
    StepsBound(c, events);
    var s := After(c, events);
    assert Inv(c, s, Whole(c, s)) && Limits(c, s, Whole(c, s));
    PassesBelow(s.npass, c.msgSize);
    StepsAtMost(c, s, Whole(c, s));
  }

  // ---------------------------------------------------------------------------------------------
  // How many passes there are

  /** What the client found at its tests, in order: whether time was left. */
  function Tests(events: seq<Event>): seq<bool> {
    if events == [] then []
    else
      var last := events[|events| - 1];
      Tests(events[..|events| - 1]) + if last.Test? then [last.timeLeft] else []
  }

  /** After k passes there is a reason for another one: too few bytes went out, or time is left to a timed client. */
  predicate Another(c: Config, k: nat, timeLeft: bool) {
    k * c.msgSize < c.nbytes || (c.timed && timeLeft)
  }

  /** There was a reason for every pass that was begun, and none after the last. */
  ghost predicate PassesOk(c: Config, s: State, tests: seq<bool>) {
    && |tests| == s.npass + (if s.client.Testing? then 0 else 1)
    && (forall k :: 0 <= k < s.npass ==> Another(c, k, tests[k]))
    && (!s.client.Testing? ==> (Another(c, s.npass, tests[s.npass]) <==> !s.client.Ended?))
  }

  lemma {:induction false} TestOk(c: Config, s: State, tests: seq<bool>, timeLeft: bool)
    requires PassesOk(c, s, tests) && s.client.Testing? && s.dataSent == s.npass * c.msgSize
    ensures PassesOk(c, Apply(c, s, Test(timeLeft)), tests + [timeLeft])
  {
    assert Another(c, s.npass, timeLeft) <==> s.dataSent < c.nbytes || (c.timed && timeLeft);
  }

  lemma {:induction false} OtherOk(c: Config, s: State, e: Event, tests: seq<bool>)
    requires PassesOk(c, s, tests) && Enabled(c, s, e) && !e.Test?
    ensures PassesOk(c, Apply(c, s, e), tests)
  {
  }

  /** The client makes a pass exactly as long as there is a reason for one: with its k-th test it ends, if and only if k
      passes are enough bytes and it is not timed or its time is up. */
  lemma {:induction false} PassesExactly(c: Config, events: seq<Event>)
    requires ConfigOk(c) && Possible(c, events)
    ensures PassesOk(c, After(c, events), Tests(events))
  {
    if events != [] {
      var before, e := events[..|events| - 1], events[|events| - 1];
      PassesExactly(c, before);
      if e.Test? {
        PassBoundary(c, before);
        TestOk(c, After(c, before), Tests(before), e.timeLeft);
      } else {
        OtherOk(c, After(c, before), e, Tests(before));
        assert Tests(events) == Tests(before) + [] == Tests(before);
      }
    }
  }
}

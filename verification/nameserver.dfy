/** The nameserver of the sync pod (class nameserver in sync.py). */
module NameServer {
  import opened Basics

  /** Peer addresses and IP addresses are opaque to the nameserver; names are the keys of its messages. */
  type Address = nat
  type Name = string
  type Ip = string
  type Binding = map<Name, Ip>

  /** One member of a JSON request: the items of a `have` dict, the names of a `rqst` list, or something else. */
  datatype Item = Have(items: seq<(Name, Ip)>) | Rqst(names: seq<Name>) | Unknown

  /** What get_command() returned: nothing usable, or a request. */
  datatype Message = Unusable | Command(from: Address, items: seq<Item>)

  datatype Pending = Pending(have: Binding, want: set<Name>)

  /** The value of the nameserver: its three dictionaries, and what was written to each connection. */
  datatype State = State(
    addrs: Binding,
    requests: map<Address, Pending>,
    clients: set<Address>,
    sent: map<Address, seq<Binding>>)

  const START := State(map[], map[], {}, map[])

  // ---------------------------------------------------------------------------------------------
  // process_command

  function Enter(addrs: Binding, items: seq<(Name, Ip)>): Binding {
    if items == [] then addrs
    else
      var last := |items| - 1;
      Enter(addrs, items[..last])[items[last].0 := items[last].1]
  }

  function Sought(s: State, a: Address): Pending {
    if a in s.requests then s.requests[a] else Pending(map[], {})
  }

  function Ask(s: State, a: Address, names: seq<Name>): State {
    var p := Sought(s, a);
    s.(requests := s.requests[a := Pending(p.have, p.want + (set n | n in names))],
       clients := if names == [] then s.clients else s.clients + {a})
  }

  function TakeItem(s: State, a: Address, item: Item): State {
    match item
    case Have(items) => s.(addrs := Enter(s.addrs, items))
    case Rqst(names) => Ask(s, a, names)
    case Unknown => s
  }

  function TakeItems(s: State, a: Address, items: seq<Item>): State {
    if items == [] then s
    else
      var last := |items| - 1;
      TakeItem(TakeItems(s, a, items[..last]), a, items[last])
  }

  function Process(s: State, m: Message): State {
    match m
    case Unusable => s
    case Command(a, items) => TakeItems(s, a, items)
  }

  // ---------------------------------------------------------------------------------------------
  // satisfy_requests

  /** A pending request after the known names were moved from want to have. */
  function Fill(addrs: Binding, p: Pending): Pending {
    Pending(p.have + (map n | n in p.want && n in addrs :: addrs[n]), p.want - addrs.Keys)
  }

  /** Requests that had names to move and have none left; these are answered. */
  predicate Answered(addrs: Binding, p: Pending) {
    p.want != {} && Fill(addrs, p).want == {}
  }

  function Log(s: State, a: Address): seq<Binding> {
    if a in s.sent then s.sent[a] else []
  }

  /** The requesters that get their answer. */
  ghost function Complete(s: State): set<Address> {
    set a | a in s.requests && Answered(s.addrs, s.requests[a])
  }

  /** The log of a connection after its answer was written. */
  function WithReply(s: State, a: Address): seq<Binding>
    requires a in s.requests
  {
    Log(s, a) + [Fill(s.addrs, s.requests[a]).have]
  }

  ghost function Satisfy(s: State): State {
    var done := Complete(s);
    State(
      s.addrs,
      map a | a in s.requests && a !in done :: Fill(s.addrs, s.requests[a]),
      s.clients - done,
      map a | a in s.sent.Keys + done ::
        if a in done then WithReply(s, a) else s.sent[a])
  }

  ghost function Step(s: State, m: Message): State {
    Satisfy(Process(s, m))
  }

  /** The requesters with an open connection are those who still want a name. */
  ghost predicate Connected(s: State) {
    s.clients == set a | a in s.requests && s.requests[a].want != {}
  }

  lemma {:induction false} ProcessConnected(s: State, m: Message)
    requires Connected(s)
    ensures Connected(Process(s, m))
  {
    if m.Command? { TakeConnected(s, m.from, m.items); }
  }

  lemma {:induction false} TakeConnected(s: State, a: Address, items: seq<Item>)
    requires Connected(s)
    ensures Connected(TakeItems(s, a, items))
  {
    if items != [] {
      var last := |items| - 1;
      TakeConnected(s, a, items[..last]);
      var t := TakeItems(s, a, items[..last]);
      if items[last].Rqst? && items[last].names != [] {
        assert items[last].names[0] in TakeItem(t, a, items[last]).requests[a].want;
      }
    }
  }

  /** Whoever is answered has a connection to be answered on. */
  lemma {:induction false} SatisfyConnected(s: State)
    requires Connected(s)
    ensures Complete(s) <= s.clients && Connected(Satisfy(s))
  {
    var t := Satisfy(s);
    forall a | a in t.requests ensures t.requests[a].want != {} <==> a in t.clients {
      assert t.requests[a] == Fill(s.addrs, s.requests[a]) && !Answered(s.addrs, s.requests[a]);
      assert s.requests[a].want == {} ==> t.requests[a].want == {};
    }
  }

  /** The requests part way through satisfy_requests(): `todo` are the requesters not looked at yet. */
  ghost predicate RequestsSoFar(was: State, todo: set<Address>, requests: map<Address, Pending>) {
    && todo <= requests.Keys == was.requests.Keys
    && (forall a :: a in requests ==>
          requests[a] == if a in todo then was.requests[a] else Fill(was.addrs, was.requests[a]))
  }

  ghost predicate SentSoFar(was: State, satisfied: set<Address>, sent: map<Address, seq<Binding>>) {
    && satisfied <= was.requests.Keys
    && sent.Keys == was.sent.Keys + satisfied
    && (forall a :: a in sent ==> sent[a] == if a in satisfied then WithReply(was, a) else was.sent[a])
  }

  ghost predicate PartWay(was: State, now: State, todo: set<Address>, satisfied: set<Address>) {
    && now.addrs == was.addrs
    && RequestsSoFar(was, todo, now.requests)
    && satisfied == Complete(was) - todo
    && now.clients == was.clients - satisfied
    && SentSoFar(was, satisfied, now.sent)
  }

  ghost function SatisfyOne(s: State, a: Address): State
    requires a in s.requests
  {
    var t := s.(requests := s.requests[a := Fill(s.addrs, s.requests[a])]);
    if Answered(s.addrs, s.requests[a]) then t.(clients := s.clients - {a}, sent := s.sent[a := WithReply(s, a)]) else t
  }

  lemma {:induction false} CompleteOne(was: State, todo: set<Address>, a: Address)
    requires a in todo && a in was.requests
    ensures Complete(was) - (todo - {a}) ==
      Complete(was) - todo + if Answered(was.addrs, was.requests[a]) then {a} else {}
  {
  }

  lemma {:induction false} RequestsOne(was: State, todo: set<Address>, requests: map<Address, Pending>, a: Address)
    requires RequestsSoFar(was, todo, requests) && a in todo
    ensures requests[a] == was.requests[a]
    ensures RequestsSoFar(was, todo - {a}, requests[a := Fill(was.addrs, was.requests[a])])
  {
  }

  lemma {:induction false} SentOne(was: State, satisfied: set<Address>, sent: map<Address, seq<Binding>>, a: Address)
    requires SentSoFar(was, satisfied, sent) && a !in satisfied && a in was.requests
    ensures SentSoFar(was, satisfied + {a}, sent[a := WithReply(was, a)])
    ensures (if a in sent then sent[a] else []) == Log(was, a)
  {
  }

  lemma {:induction false} PartWayOne(was: State, now: State, todo: set<Address>, satisfied: set<Address>, a: Address)
    requires PartWay(was, now, todo, satisfied) && a in todo
    ensures now.requests[a] == was.requests[a]
    ensures PartWay(was, SatisfyOne(now, a), todo - {a},
                    if Answered(was.addrs, was.requests[a]) then satisfied + {a} else satisfied)
  {
    RequestsOne(was, todo, now.requests, a);
    CompleteOne(was, todo, a);
    if Answered(was.addrs, was.requests[a]) {
      SentOne(was, satisfied, now.sent, a);
      assert WithReply(now, a) == WithReply(was, a);
    }
  }

  lemma {:induction false} PartWayDone(was: State, now: State, satisfied: set<Address>)
    requires PartWay(was, now, {}, satisfied)
    ensures now.(requests := now.requests - satisfied) == Satisfy(was)
  {
    var end := Satisfy(was);
    assert satisfied == Complete(was);
    assert now.requests - satisfied == end.requests by {
      assert (now.requests - satisfied).Keys == end.requests.Keys;
    }
    assert now.sent == end.sent by {
      assert now.sent.Keys == end.sent.Keys;
    }
  }

  // ---------------------------------------------------------------------------------------------
  // The class

  class Server {
    var addrs: Binding
    var requests: map<Address, Pending>
    var clients: set<Address>
    var sent: map<Address, seq<Binding>>

    ghost function Value(): State
      reads this
    {
      State(addrs, requests, clients, sent)
    }

    constructor ()
      ensures Value() == START && Connected(Value())
    {
      addrs, requests, clients, sent := map[], map[], {}, map[];
    }

    /** One accepted request: offers are entered, wanted names are noted with the connection to answer on. */
    method ProcessCommand(m: Message)
      modifies this
      ensures Value() == Process(old(Value()), m)
    {
      if m.Unusable? { return; }
      var a := m.from;
      for i := 0 to |m.items|
        invariant Value() == TakeItems(old(Value()), a, m.items[..i])
      {
        assert m.items[..i + 1][..i] == m.items[..i];
        match m.items[i] {
          case Have(items) => Offer(items);
          case Rqst(names) => Want(a, names);
          case Unknown =>
        }
      }
      assert m.items[..|m.items|] == m.items;
    }

    method Offer(items: seq<(Name, Ip)>)
      modifies this
      ensures Value() == old(Value()).(addrs := Enter(old(addrs), items))
    {
      for k := 0 to |items|
        invariant Value() == old(Value()).(addrs := Enter(old(addrs), items[..k]))
      {
        assert items[..k + 1][..k] == items[..k];
        addrs := addrs[items[k].0 := items[k].1];
      }
      assert items[..|items|] == items;
    }

    method Want(a: Address, names: seq<Name>)
      modifies this
      ensures Value() == Ask(old(Value()), a, names)
    {
      if a !in requests { requests := requests[a := Pending(map[], {})]; }
      ghost var p := Sought(old(Value()), a);
      for k := 0 to |names|
        invariant addrs == old(addrs) && sent == old(sent)
        invariant a in requests && requests == old(requests)[a := requests[a]]
        invariant requests[a].have == p.have && requests[a].want == p.want + Elements(names[..k])
        invariant clients == if k == 0 then old(clients) else old(clients) + {a}
      {
        if a !in clients { clients := clients + {a}; }
        assert Elements(names[..k + 1]) == Elements(names[..k]) + {names[k]};
        requests := requests[a := Pending(requests[a].have, requests[a].want + {names[k]})];
      }
      assert Elements(names[..|names|]) == set n | n in names;
    }

    /** One requester's turn in satisfy_requests(); one who is answered must have a connection. */
    method Serve(a: Address) returns (answered: bool)
      requires a in requests && (Answered(addrs, requests[a]) ==> a in clients)
      modifies this
      ensures answered == Answered(old(addrs), old(requests)[a])
      ensures Value() == SatisfyOne(old(Value()), a)
    {
      var p := requests[a];
      var found := set n | n in p.want && n in addrs;
      ghost var filled := Fill(addrs, p);
      if found == {} {
        assert forall n :: n in p.want && n in addrs ==> n in found;
        assert filled.want == p.want && filled.have == p.have;
        assert requests[a := p] == requests;
        return false;
      }
      var have, want := p.have + (map n | n in found :: addrs[n]), p.want - found;
      assert (map n | n in found :: addrs[n]) == (map n | n in p.want && n in addrs :: addrs[n]);
      assert want == filled.want;
      requests := requests[a := Pending(have, want)];
      if want == {} {
        sent := sent[a := (if a in sent then sent[a] else []) + [have]];
        clients := clients - {a};
      }
      answered := want == {};
    }

    /** The requests in turn; the ones that became complete are answered, closed and removed at the end. */
    method SatisfyRequests()
      requires Complete(Value()) <= clients
      modifies this
      ensures Value() == Satisfy(old(Value()))
    {
      var todo, satisfied: set<Address> := requests.Keys, {};
      assert PartWay(old(Value()), Value(), todo, satisfied);
      while todo != {}
        invariant PartWay(old(Value()), Value(), todo, satisfied)
        decreases |todo|
      {
        var a :| a in todo;
        PartWayOne(old(Value()), Value(), todo, satisfied, a);
        var answered := Serve(a);
        todo := todo - {a};
        if answered { satisfied := satisfied + {a}; }
      }
      PartWayDone(old(Value()), Value(), satisfied);
      requests := requests - satisfied;
    }

    /** One turn of run(). */
    method Turn(m: Message)
      requires Connected(Value())
      modifies this
      ensures Value() == Step(old(Value()), m) && Connected(Value())
    {
      ProcessConnected(Value(), m);
      ProcessCommand(m);
      SatisfyConnected(Value());
      SatisfyRequests();
    }
  }

  // ---------------------------------------------------------------------------------------------
  // Whole runs

  function NamesOf(item: Item): set<Name> {
    if item.Rqst? then set n | n in item.names else {}
  }

  /** All names a message asks for. */
  function Asked(items: seq<Item>): set<Name> {
    if items == [] then {} else Asked(items[..|items| - 1]) + NamesOf(items[|items| - 1])
  }

  function Offered(items: seq<Item>): set<(Name, Ip)> {
    if items == [] then {}
    else
      var last := items[|items| - 1];
      Offered(items[..|items| - 1]) + if last.Have? then set p | p in last.items else {}
  }

  /** Requests come on new connections: no two of the messages have the same peer address. */
  ghost predicate FreshRun(ms: seq<Message>) {
    forall i, j :: 0 <= i < j < |ms| && ms[i].Command? && ms[j].Command? ==> ms[i].from != ms[j].from
  }

  predicate HasRequest(items: seq<Item>) {
    items != [] && (HasRequest(items[..|items| - 1]) || items[|items| - 1].Rqst?)
  }

  /** A request that names nothing. */
  predicate AsksForNothing(m: Message) {
    m.Command? && HasRequest(m.items) && Asked(m.items) == {}
  }

  ghost function Run(ms: seq<Message>): State {
    if ms == [] then START else Step(Run(ms[..|ms| - 1]), ms[|ms| - 1])
  }

  /** In every run, be its peers new or not, the requesters who want a name are the open connections, so nobody is
      answered without one. */
  lemma {:induction false} AlwaysConnected(ms: seq<Message>, m: Message)
    ensures Connected(Run(ms)) && Complete(Process(Run(ms), m)) <= Process(Run(ms), m).clients
  {
    if ms != [] {
      AlwaysConnected(ms[..|ms| - 1], ms[|ms| - 1]);
      ProcessConnected(Run(ms[..|ms| - 1]), ms[|ms| - 1]);
      SatisfyConnected(Process(Run(ms[..|ms| - 1]), ms[|ms| - 1]));
    }
    ProcessConnected(Run(ms), m);
    SatisfyConnected(Process(Run(ms), m));
  }

  /** The names the message on connection `a` asked for, {} if there was none. */
  ghost function Wanted(ms: seq<Message>, a: Address): set<Name> {
    if ms == [] then {}
    else
      var last := ms[|ms| - 1];
      if last.Command? && last.from == a then Asked(last.items) else Wanted(ms[..|ms| - 1], a)
  }

  /** The message on connection `a` asked for nothing. */
  ghost predicate Idle(ms: seq<Message>, a: Address) {
    ms != [] &&
    var last := ms[|ms| - 1];
    (AsksForNothing(last) && last.from == a) || Idle(ms[..|ms| - 1], a)
  }

  ghost function OfferedBy(ms: seq<Message>): set<(Name, Ip)> {
    if ms == [] then {}
    else
      var last := ms[|ms| - 1];
      OfferedBy(ms[..|ms| - 1]) + if last.Command? then Offered(last.items) else {}
  }

  /** Every binding was offered by somebody. */
  ghost predicate Genuine(b: Binding, offers: set<(Name, Ip)>) {
    forall n :: n in b ==> (n, b[n]) in offers
  }

  ghost function NamesIn(offers: set<(Name, Ip)>): set<Name> {
    set p | p in offers :: p.0
  }

  /** The request of `a` that is still waiting. */
  ghost predicate WaitingOk(p: Pending, wanted: set<Name>, addrs: Binding, offers: set<(Name, Ip)>) {
    && (p.want == {} ==> wanted == {}) && p.want !! addrs.Keys
    && p.have.Keys <= addrs.Keys
    && p.have.Keys + p.want == wanted
    && Genuine(p.have, offers)
  }

  /** The one reply that was sent. */
  ghost predicate RepliedOk(log: seq<Binding>, wanted: set<Name>, addrs: Binding, offers: set<(Name, Ip)>) {
    |log| == 1 && log[0].Keys == wanted && wanted != {} && wanted <= addrs.Keys && Genuine(log[0], offers)
  }

  /** After each step the requesters who want something are the open connections, none of them waits for a known
      name, everybody else who asked for something has one reply, and who asked for nothing stays listed. */
  ghost predicate Inv(ms: seq<Message>, s: State) {
    && Connected(s) && s.requests.Keys !! s.sent.Keys
    && s.addrs.Keys == NamesIn(OfferedBy(ms)) && Genuine(s.addrs, OfferedBy(ms))
    && (forall a :: a in s.requests ==> WaitingOk(s.requests[a], Wanted(ms, a), s.addrs, OfferedBy(ms)))
    && (forall a :: a in s.sent ==> RepliedOk(s.sent[a], Wanted(ms, a), s.addrs, OfferedBy(ms)))
    && (forall a :: Wanted(ms, a) != {} ==> a in s.requests || a in s.sent)
    && (forall a :: Idle(ms, a) <==> a in s.requests && Wanted(ms, a) == {})
  }

  lemma {:induction false} EnterAll(addrs: Binding, items: seq<(Name, Ip)>)
    ensures var t := Enter(addrs, items);
            && t.Keys == addrs.Keys + (set p | p in items :: p.0)
            && (forall n :: n in t ==> (n in addrs && t[n] == addrs[n]) || (n, t[n]) in items)
  {
    if items != [] {
      var last := |items| - 1;
      EnterAll(addrs, items[..last]);
      assert items == items[..last] + [items[last]];
      assert (set p | p in items :: p.0) == (set p | p in items[..last] :: p.0) + {items[last].0};
    }
  }

  /** What a message from a new connection does to the requests. */
  lemma {:induction false} TakeRequests(s: State, a: Address, items: seq<Item>)
    requires a !in s.requests
    ensures TakeItems(s, a, items).requests ==
            if HasRequest(items) then s.requests[a := Pending(map[], Asked(items))] else s.requests
  {
    if items != [] {
      var before, item := items[..|items| - 1], items[|items| - 1];
      TakeRequests(s, a, before);
      var t := TakeItems(s, a, before);
      AskedHasRequest(before);
      if item.Rqst? {
        assert Sought(t, a) == Pending(map[], Asked(before));
        assert Asked(items) == Asked(before) + NamesOf(item);
        assert TakeItem(t, a, item).requests == t.requests[a := Pending(map[], Asked(items))];
      } else {
        assert NamesOf(item) == {} && Asked(items) == Asked(before);
      }
    }
  }

  /** What it does to the names. */
  lemma {:induction false} TakeNames(s: State, a: Address, items: seq<Item>)
    ensures var t := TakeItems(s, a, items);
            && t.sent == s.sent
            && t.addrs.Keys == s.addrs.Keys + NamesIn(Offered(items))
            && (forall n :: n in t.addrs ==> (n in s.addrs && t.addrs[n] == s.addrs[n]) || (n, t.addrs[n]) in Offered(items))
  {
    if items != [] {
      var before, item := items[..|items| - 1], items[|items| - 1];
      TakeNames(s, a, before);
      assert items == before + [item];
      if item.Have? {
        EnterAll(TakeItems(s, a, before).addrs, item.items);
        HaveNames(before, item.items);
      } else {
        assert Offered(items) == Offered(before);
      }
    }
  }

  lemma {:induction false} AskedHasRequest(items: seq<Item>)
    ensures Asked(items) != {} ==> HasRequest(items)
  {
    if items != [] { AskedHasRequest(items[..|items| - 1]); }
  }

  lemma {:induction false} HaveNames(before: seq<Item>, offers: seq<(Name, Ip)>)
    ensures var items := before + [Have(offers)];
            && Offered(items) == Offered(before) + (set p | p in offers)
            && NamesIn(Offered(items)) == NamesIn(Offered(before)) + (set p | p in offers :: p.0)
  {
    var items := before + [Have(offers)];
    assert items[..|before|] == before;
    assert Offered(items) == Offered(before) + (set p | p in offers);
  }

  /** A pending request between process_command() and satisfy_requests(): it may want known names. */
  ghost predicate PendingOk(p: Pending, wanted: set<Name>, addrs: Binding, offers: set<(Name, Ip)>) {
    && (p.want == {} ==> wanted == {})
    && p.have.Keys <= addrs.Keys && p.have.Keys + p.want == wanted && Genuine(p.have, offers)
  }

  ghost predicate Mid(ms: seq<Message>, s: State) {
    && Connected(s) && s.requests.Keys !! s.sent.Keys
    && s.addrs.Keys == NamesIn(OfferedBy(ms)) && Genuine(s.addrs, OfferedBy(ms))
    && (forall a :: a in s.requests ==> PendingOk(s.requests[a], Wanted(ms, a), s.addrs, OfferedBy(ms)))
    && (forall a :: a in s.sent ==> RepliedOk(s.sent[a], Wanted(ms, a), s.addrs, OfferedBy(ms)))
    && (forall a :: Wanted(ms, a) != {} ==> a in s.requests || a in s.sent)
    && (forall a :: Idle(ms, a) <==> a in s.requests && Wanted(ms, a) == {})
  }

  lemma {:induction false} FillOk(p: Pending, wanted: set<Name>, addrs: Binding, offers: set<(Name, Ip)>)
    requires PendingOk(p, wanted, addrs, offers) && Genuine(addrs, offers)
    ensures if Answered(addrs, p) then RepliedOk([Fill(addrs, p).have], wanted, addrs, offers)
            else WaitingOk(Fill(addrs, p), wanted, addrs, offers)
  {
    var q := Fill(addrs, p);
    assert q.have.Keys == p.have.Keys + p.want * addrs.Keys;
    assert q.have.Keys + q.want == wanted;
  }

  lemma {:induction false} SatisfyEach(ms: seq<Message>, s: State, a: Address)
    requires Mid(ms, s) && a in s.requests
    ensures if Answered(s.addrs, s.requests[a]) then RepliedOk(WithReply(s, a), Wanted(ms, a), s.addrs, OfferedBy(ms))
            else WaitingOk(Fill(s.addrs, s.requests[a]), Wanted(ms, a), s.addrs, OfferedBy(ms))
  {
    FillOk(s.requests[a], Wanted(ms, a), s.addrs, OfferedBy(ms));
    assert WithReply(s, a) == [] + [Fill(s.addrs, s.requests[a]).have] == [Fill(s.addrs, s.requests[a]).have];
  }

  lemma {:induction false} SatisfyInv(ms: seq<Message>, s: State)
    requires Mid(ms, s)
    ensures Inv(ms, Satisfy(s))
  {
    forall a | a in s.requests
      ensures if Answered(s.addrs, s.requests[a]) then RepliedOk(WithReply(s, a), Wanted(ms, a), s.addrs, OfferedBy(ms))
              else WaitingOk(Fill(s.addrs, s.requests[a]), Wanted(ms, a), s.addrs, OfferedBy(ms))
    {
      SatisfyEach(ms, s, a);
    }
    SatisfyConnected(s);
  }

  lemma {:induction false} NewcomerWantedNothing(ms: seq<Message>, a: Address)
    requires forall i :: 0 <= i < |ms| && ms[i].Command? ==> ms[i].from != a
    ensures Wanted(ms, a) == {} && !Idle(ms, a)
  {
    if ms != [] { NewcomerWantedNothing(ms[..|ms| - 1], a); }
  }

  lemma {:induction false} GenuineMore(b: Binding, offers: set<(Name, Ip)>, more: set<(Name, Ip)>)
    requires Genuine(b, offers) && offers <= more
    ensures Genuine(b, more)
  {
  }

  /** More offers take nothing away. */
  lemma {:induction false} StillPending(ms: seq<Message>, s: State, addrs: Binding, offers: set<(Name, Ip)>)
    requires Inv(ms, s) && s.addrs.Keys <= addrs.Keys && OfferedBy(ms) <= offers
    ensures forall b :: b in s.requests ==> PendingOk(s.requests[b], Wanted(ms, b), addrs, offers)
    ensures forall b :: b in s.sent ==> RepliedOk(s.sent[b], Wanted(ms, b), addrs, offers)
  {
    forall b | b in s.requests ensures PendingOk(s.requests[b], Wanted(ms, b), addrs, offers) {
      GenuineMore(s.requests[b].have, OfferedBy(ms), offers);
    }
    forall b | b in s.sent ensures RepliedOk(s.sent[b], Wanted(ms, b), addrs, offers) {
      GenuineMore(s.sent[b][0], OfferedBy(ms), offers);
    }
  }

  lemma {:induction false} OneMore(ms: seq<Message>, m: Message)
    ensures var all := ms + [m];
            && OfferedBy(all) == OfferedBy(ms) + (if m.Command? then Offered(m.items) else {})
            && (forall b :: Wanted(all, b) == if m.Command? && b == m.from then Asked(m.items) else Wanted(ms, b))
            && (forall b :: Idle(all, b) <==> (AsksForNothing(m) && b == m.from) || Idle(ms, b))
  {
    var all := ms + [m];
    assert all[..|ms|] == ms && all[|ms|] == m;
  }

  lemma {:induction false} FreshBefore(ms: seq<Message>, m: Message)
    requires FreshRun(ms + [m]) && m.Command?
    ensures Wanted(ms, m.from) == {} && !Idle(ms, m.from)
  {
    var all := ms + [m];
    assert all[|ms|] == m;
    forall i | 0 <= i < |ms| && ms[i].Command? ensures ms[i].from != m.from {
      assert all[i] == ms[i];
    }
    NewcomerWantedNothing(ms, m.from);
  }

  lemma {:induction false} ProcessAddrs(ms: seq<Message>, s: State, m: Message)
    requires Inv(ms, s) && m.Command? && m.from !in s.requests
    ensures var t := Process(s, m); var offers := OfferedBy(ms + [m]);
            && s.addrs.Keys <= t.addrs.Keys && OfferedBy(ms) <= offers && t.sent == s.sent
            && t.addrs.Keys == NamesIn(offers) && Genuine(t.addrs, offers)
  {
    TakeNames(s, m.from, m.items);
    OneMore(ms, m);
    assert NamesIn(OfferedBy(ms) + Offered(m.items)) == NamesIn(OfferedBy(ms)) + NamesIn(Offered(m.items));
  }

  lemma {:induction false} WithNewcomer(ms: seq<Message>, m: Message, requests: map<Address, Pending>, addrs: Binding,
                     offers: set<(Name, Ip)>, b: Address)
    requires m.Command? && b in requests
    requires b == m.from ==> requests[b] == Pending(map[], Asked(m.items))
    requires b != m.from ==> PendingOk(requests[b], Wanted(ms, b), addrs, offers)
    ensures PendingOk(requests[b], Wanted(ms + [m], b), addrs, offers)
  {
    OneMore(ms, m);
  }

  /** Adding the request of a newcomer to a good state. */
  lemma {:induction false} MidWith(ms: seq<Message>, m: Message, s: State, t: State)
    requires Inv(ms, s) && m.Command? && Wanted(ms, m.from) == {} && !Idle(ms, m.from)
    requires s.addrs.Keys <= t.addrs.Keys && OfferedBy(ms) <= OfferedBy(ms + [m])
    requires t.addrs.Keys == NamesIn(OfferedBy(ms + [m])) && Genuine(t.addrs, OfferedBy(ms + [m]))
    requires t.sent == s.sent && Connected(t)
    requires t.requests == if HasRequest(m.items) then s.requests[m.from := Pending(map[], Asked(m.items))] else s.requests
    ensures Mid(ms + [m], t)
  {
    var all, offers := ms + [m], OfferedBy(ms + [m]);
    StillPending(ms, s, t.addrs, offers);
    AskedHasRequest(m.items);
    assert m.from !in s.requests && m.from !in s.sent;
    forall b | b in t.requests ensures PendingOk(t.requests[b], Wanted(all, b), t.addrs, offers) {
      WithNewcomer(ms, m, t.requests, t.addrs, offers, b);
    }
    OneMore(ms, m);
  }

  lemma {:induction false} ProcessCommandMid(ms: seq<Message>, s: State, m: Message, t: State)
    requires FreshRun(ms + [m]) && Inv(ms, s) && m.Command? && t == Process(s, m)
    ensures Mid(ms + [m], t)
  {
    FreshBefore(ms, m);
    ProcessAddrs(ms, s, m);
    ProcessConnected(s, m);
    TakeRequests(s, m.from, m.items);
    MidWith(ms, m, s, t);
  }

  lemma {:induction false} ProcessMid(ms: seq<Message>, s: State, m: Message)
    requires FreshRun(ms + [m]) && Inv(ms, s)
    ensures Mid(ms + [m], Process(s, m))
  {
    if m.Command? {
      ProcessCommandMid(ms, s, m, Process(s, m));
    } else {
      OneMore(ms, m);
      StillPending(ms, s, s.addrs, OfferedBy(ms));
    }
  }

  lemma {:induction false} RunInv(ms: seq<Message>)
    requires FreshRun(ms)
    ensures Inv(ms, Run(ms))
  {
    if ms != [] {
      var before, last := ms[..|ms| - 1], ms[|ms| - 1];
      assert ms == before + [last];
      RunInv(before);
      ProcessMid(before, Run(before), last);
      SatisfyInv(ms, Process(Run(before), last));
    }
  }

  /** Exactly once, and at once: after any run of requests from fresh connections, a connection has a reply exactly
      if it asked for something and every name it asked for has been offered; it has one reply, which binds exactly
      the names asked for, each to an address somebody offered for it; and everybody else who asked is still
      waiting. As this holds after every step, the reply goes out in the step that supplies the last name. */
  lemma {:induction false} ExactlyOnce(ms: seq<Message>, a: Address)
    requires FreshRun(ms)
    ensures a in Run(ms).sent <==> Wanted(ms, a) != {} && Wanted(ms, a) <= NamesIn(OfferedBy(ms))
    ensures a in Run(ms).sent ==>
      && |Run(ms).sent[a]| == 1
      && Run(ms).sent[a][0].Keys == Wanted(ms, a)
      && forall n :: n in Run(ms).sent[a][0] ==> (n, Run(ms).sent[a][0][n]) in OfferedBy(ms)
    ensures a in Run(ms).clients <==> Wanted(ms, a) != {} && !(Wanted(ms, a) <= NamesIn(OfferedBy(ms)))
    ensures a in Run(ms).requests <==> a in Run(ms).clients || Idle(ms, a)
  {
    RunInv(ms);
    var s := Run(ms);
    if a in s.clients {
      var n :| n in s.requests[a].want;
      assert n in Wanted(ms, a) && n !in s.addrs;
    }
  }

  lemma {:induction false} IdleIs(ms: seq<Message>, a: Address)
    ensures Idle(ms, a) <==> exists i :: 0 <= i < |ms| && AsksForNothing(ms[i]) && ms[i].from == a
  {
    if ms != [] {
      var before := ms[..|ms| - 1];
      IdleIs(before, a);
      assert forall i :: 0 <= i < |before| ==> before[i] == ms[i];
    }
  }

  lemma {:induction false} ListedOrIdle(ms: seq<Message>, a: Address)
    requires FreshRun(ms)
    ensures a in Run(ms).requests <==> a in Run(ms).clients || Idle(ms, a)
    ensures Idle(ms, a) ==> a !in Run(ms).clients
  {
    ExactlyOnce(ms, a);
    RunInv(ms);
  }

  /** The listed requesters are those with an open connection exactly if no message asked for nothing: the code adds
      the connection only with the first name, and drops a request only when a name was found for it. */
  lemma {:induction false} ConnectionsExactly(ms: seq<Message>)
    requires FreshRun(ms)
    ensures Run(ms).requests.Keys == Run(ms).clients <==> forall i :: 0 <= i < |ms| ==> !AsksForNothing(ms[i])
  {
    if i :| 0 <= i < |ms| && AsksForNothing(ms[i]) {
      IdleIs(ms, ms[i].from);
      ListedOrIdle(ms, ms[i].from);
      assert ms[i].from in Run(ms).requests.Keys && ms[i].from !in Run(ms).clients;
    } else {
      forall a ensures a in Run(ms).requests.Keys <==> a in Run(ms).clients {
        IdleIs(ms, a);
        ListedOrIdle(ms, a);
      }
    }
  }

  // ---------------------------------------------------------------------------------------------
  // Which of several offers of a name counts

  /** The offers of a message, and of a run, in order. */
  function OffersOf(items: seq<Item>): seq<(Name, Ip)> {
    if items == [] then []
    else
      var last := items[|items| - 1];
      OffersOf(items[..|items| - 1]) + if last.Have? then last.items else []
  }

  function OffersIn(ms: seq<Message>): seq<(Name, Ip)> {
    if ms == [] then []
    else
      var last := ms[|ms| - 1];
      OffersIn(ms[..|ms| - 1]) + if last.Command? then OffersOf(last.items) else []
  }

  lemma {:induction false} EnterLast(addrs: Binding, offers: seq<(Name, Ip)>, before: seq<(Name, Ip)>)
    requires LastWins(addrs, before)
    ensures LastWins(Enter(addrs, offers), before + offers)
  {
    if offers == [] {
      assert before + offers == before;
    } else {
      var last := |offers| - 1;
      EnterLast(addrs, offers[..last], before);
      LastWinsStep(Enter(addrs, offers[..last]), before + offers[..last], offers[last].0, offers[last].1);
      assert before + offers == before + offers[..last] + [(offers[last].0, offers[last].1)];
    }
  }

  lemma {:induction false} TakeLast(s: State, a: Address, items: seq<Item>, before: seq<(Name, Ip)>)
    requires LastWins(s.addrs, before)
    ensures LastWins(TakeItems(s, a, items).addrs, before + OffersOf(items))
  {
    if items == [] {
      assert before + OffersOf(items) == before;
    } else {
      var front, last := items[..|items| - 1], items[|items| - 1];
      TakeLast(s, a, front, before);
      if last.Have? {
        EnterLast(TakeItems(s, a, front).addrs, last.items, before + OffersOf(front));
        assert before + OffersOf(items) == before + OffersOf(front) + last.items;
      } else {
        assert OffersOf(items) == OffersOf(front);
      }
    }
  }

  /** After any run the server knows the names that were offered, each at the address of its last offer. */
  lemma {:induction false} LastOfferCounts(ms: seq<Message>)
    ensures LastWins(Run(ms).addrs, OffersIn(ms))
  {
    if ms != [] {
      var front, last := ms[..|ms| - 1], ms[|ms| - 1];
      LastOfferCounts(front);
      if last.Command? {
        TakeLast(Run(front), last.from, last.items, OffersIn(front));
      } else {
        assert OffersIn(ms) == OffersIn(front) + [] == OffersIn(front);
      }
    }
  }

  /** Name n is known after step u. */
  ghost predicate KnownAt(ms: seq<Message>, u: int, n: Name)
    requires 0 <= u < |ms|
  {
    n in Run(ms[..u + 1]).addrs
  }

  /** Step t is the first one from step i on after which name n is known. */
  ghost predicate KnownFrom(ms: seq<Message>, i: int, t: int, n: Name) {
    0 <= i <= t < |ms| && KnownAt(ms, t, n) && forall u :: i <= u < t ==> !KnownAt(ms, u, n)
  }

  /** v is the last address offered for n when n was first known at or after the request of connection a. */
  ghost predicate BoundFor(ms: seq<Message>, a: Address, n: Name, v: Ip) {
    exists i, t :: 0 <= i < |ms| && ms[i].Command? && ms[i].from == a && KnownFrom(ms, i, t, n)
      && v == Run(ms[..t + 1]).addrs[n]
  }

  ghost predicate AllBound(ms: seq<Message>, a: Address, b: Binding) {
    forall n :: n in b ==> BoundFor(ms, a, n, b[n])
  }

  lemma {:induction false} BoundLater(ms: seq<Message>, m: Message, a: Address, n: Name, v: Ip)
    requires BoundFor(ms, a, n, v)
    ensures BoundFor(ms + [m], a, n, v)
  {
    var i, t :| 0 <= i < |ms| && ms[i].Command? && ms[i].from == a && KnownFrom(ms, i, t, n)
      && v == Run(ms[..t + 1]).addrs[n];
    var all := ms + [m];
    forall u | 0 <= u <= t ensures KnownAt(all, u, n) == KnownAt(ms, u, n) { assert all[..u + 1] == ms[..u + 1]; }
    assert all[..t + 1] == ms[..t + 1];
    assert all[i] == ms[i] && KnownFrom(all, i, t, n);
  }

  lemma {:induction false} AskedBy(ms: seq<Message>, a: Address) returns (i: nat)
    requires Wanted(ms, a) != {}
    ensures i < |ms| && ms[i].Command? && ms[i].from == a
  {
    var last := ms[|ms| - 1];
    if last.Command? && last.from == a {
      i := |ms| - 1;
    } else {
      i := AskedBy(ms[..|ms| - 1], a);
    }
  }

  /** Known names stay known. */
  lemma {:induction false} StillKnown(ms: seq<Message>, u: nat, n: Name)
    requires u <= |ms| && n in Run(ms[..u]).addrs
    ensures n in Run(ms).addrs
    decreases |ms|
  {
    if u < |ms| {
      var front := ms[..|ms| - 1];
      assert front[..u] == ms[..u];
      StillKnown(front, u, n);
      var last := ms[|ms| - 1];
      if last.Command? { TakeNames(Run(front), last.from, last.items); }
    } else {
      assert ms[..u] == ms;
    }
  }

  /** A name that a waiting requester gets now was not known since it asked. */
  lemma {:induction false} BoundNow(ms: seq<Message>, m: Message, a: Address, n: Name, i: nat)
    requires n in Run(ms + [m]).addrs
    requires (i < |ms| && ms[i].Command? && ms[i].from == a && n !in Run(ms).addrs)
          || (i == |ms| && m.Command? && m.from == a)
    ensures BoundFor(ms + [m], a, n, Run(ms + [m]).addrs[n])
  {
    var all := ms + [m];
    assert all[..|ms| + 1] == all && all[i] == if i < |ms| then ms[i] else m;
    forall u | i <= u < |ms| ensures !KnownAt(all, u, n) {
      assert all[..u + 1] == ms[..u + 1];
      if n in Run(ms[..u + 1]).addrs { StillKnown(ms, u + 1, n); }
    }
    assert KnownFrom(all, i, |ms|, n);
  }

  /** Every name that was moved was bound so. */
  ghost predicate Bindings(ms: seq<Message>, s: State) {
    && (forall a :: a in s.requests ==> AllBound(ms, a, s.requests[a].have))
    && (forall a :: a in s.sent ==> forall k :: 0 <= k < |s.sent[a]| ==> AllBound(ms, a, s.sent[a][k]))
  }

  lemma {:induction false} AllBoundLater(ms: seq<Message>, m: Message, a: Address, b: Binding)
    requires AllBound(ms, a, b)
    ensures AllBound(ms + [m], a, b)
  {
    forall n | n in b ensures BoundFor(ms + [m], a, n, b[n]) { BoundLater(ms, m, a, n, b[n]); }
  }

  /** Filling a request binds the names it gets to their last offers. */
  lemma {:induction false} FillBound(ms: seq<Message>, m: Message, a: Address, p: Pending, i: nat)
    requires AllBound(ms, a, p.have)
    requires if i < |ms| then ms[i].Command? && ms[i].from == a && p.want !! Run(ms).addrs.Keys
             else i == |ms| && m.Command? && m.from == a
    ensures AllBound(ms + [m], a, Fill(Run(ms + [m]).addrs, p).have)
  {
    var addrs := Run(ms + [m]).addrs;
    var b := Fill(addrs, p).have;
    forall n | n in b ensures BoundFor(ms + [m], a, n, b[n]) {
      if n in p.want && n in addrs {
        BoundNow(ms, m, a, n, i);
      } else {
        BoundLater(ms, m, a, n, b[n]);
      }
    }
  }

  /** One request between processing a message and answering. */
  lemma {:induction false} RequestBound(ms: seq<Message>, m: Message, s: State, t: State, a: Address)
    requires FreshRun(ms + [m]) && Inv(ms, s) && s == Run(ms) && t == Process(s, m) && Bindings(ms, s) && a in t.requests
    ensures AllBound(ms + [m], a, Fill(t.addrs, t.requests[a]).have)
  {
    RunOneMore(ms, m);
    if m.Command? && a == m.from {
      FreshBefore(ms, m);
      TakeRequests(s, m.from, m.items);
      FillBound(ms, m, a, t.requests[a], |ms|);
    } else {
      OthersUnchanged(s, m, a);
      WaitingBound(ms, m, s, t.addrs, a);
    }
  }

  lemma {:induction false} RunOneMore(ms: seq<Message>, m: Message)
    ensures Run(ms + [m]).addrs == Process(Run(ms), m).addrs
  {
    assert (ms + [m])[..|ms|] == ms;
  }

  /** A message changes no request but its own. */
  lemma {:induction false} OthersUnchanged(s: State, m: Message, a: Address)
    requires m.Command? ==> a != m.from
    ensures var t := Process(s, m); (a in t.requests <==> a in s.requests) && (a in s.requests ==> t.requests[a] == s.requests[a])
  {
    if m.Command? { OthersKept(s, m.from, m.items, a); }
  }

  lemma {:induction false} OthersKept(s: State, from: Address, items: seq<Item>, a: Address)
    requires a != from
    ensures var t := TakeItems(s, from, items);
            (a in t.requests <==> a in s.requests) && (a in s.requests ==> t.requests[a] == s.requests[a])
  {
    if items != [] { OthersKept(s, from, items[..|items| - 1], a); }
  }

  lemma {:induction false} WaitingBound(ms: seq<Message>, m: Message, s: State, addrs: Binding, a: Address)
    requires Inv(ms, s) && s == Run(ms) && Bindings(ms, s) && addrs == Run(ms + [m]).addrs && a in s.requests
    ensures AllBound(ms + [m], a, Fill(addrs, s.requests[a]).have)
  {
    assert WaitingOk(s.requests[a], Wanted(ms, a), s.addrs, OfferedBy(ms));
    if s.requests[a].want == {} {
      assert Fill(addrs, s.requests[a]).have == s.requests[a].have;
      AllBoundLater(ms, m, a, s.requests[a].have);
    } else {
      var i := AskedBy(ms, a);
      FillBound(ms, m, a, s.requests[a], i);
    }
  }

  /** The logs of a connection after a step: as before, or with the answer. */
  lemma {:induction false} SentAfter(s: State, m: Message, a: Address, log: seq<Binding>)
    requires a in Satisfy(Process(s, m)).sent && log == Satisfy(Process(s, m)).sent[a]
    ensures var t := Process(s, m);
            if a in Complete(t) then log == Log(s, a) + [Fill(t.addrs, t.requests[a]).have] else a in s.sent && log == s.sent[a]
  {
    if m.Command? { TakeNames(s, m.from, m.items); }
  }

  lemma {:induction false} SentBound(ms: seq<Message>, m: Message, s: State, t: State, a: Address, k: nat)
    requires FreshRun(ms + [m]) && Inv(ms, s) && s == Run(ms) && t == Process(s, m) && Bindings(ms, s)
    requires a in Satisfy(t).sent && k < |Satisfy(t).sent[a]|
    ensures AllBound(ms + [m], a, Satisfy(t).sent[a][k])
  {
    var log := Satisfy(t).sent[a];
    SentAfter(s, m, a, log);
    if a in Complete(t) && k == |log| - 1 {
      RequestBound(ms, m, s, t, a);
    } else {
      OldLogBound(ms, m, s, a, k);
    }
  }

  lemma {:induction false} OldLogBound(ms: seq<Message>, m: Message, s: State, a: Address, k: nat)
    requires Bindings(ms, s) && a in s.sent && k < |s.sent[a]|
    ensures AllBound(ms + [m], a, s.sent[a][k])
  {
    AllBoundLater(ms, m, a, s.sent[a][k]);
  }

  lemma {:induction false} RunBindings(ms: seq<Message>)
    requires FreshRun(ms)
    ensures Bindings(ms, Run(ms))
  {
    if ms != [] {
      var front, m := ms[..|ms| - 1], ms[|ms| - 1];
      assert ms == front + [m];
      RunInv(front);
      RunBindings(front);
      var s, t := Run(front), Process(Run(front), m);
      forall a | a in Run(ms).requests ensures AllBound(ms, a, Run(ms).requests[a].have) {
        RequestBound(front, m, s, t, a);
      }
      forall a, k | a in Run(ms).sent && 0 <= k < |Run(ms).sent[a]| ensures AllBound(ms, a, Run(ms).sent[a][k]) {
        SentBound(front, m, s, t, a, k);
      }
    }
  }

  /** Name n has been offered by step u. */
  ghost predicate OfferedAt(ms: seq<Message>, u: int, n: Name)
    requires 0 <= u < |ms|
  {
    Occurs(OffersIn(ms[..u + 1]), n)
  }

  lemma {:induction false} KnownIsOffered(ms: seq<Message>, u: int, n: Name)
    requires 0 <= u < |ms|
    ensures KnownAt(ms, u, n) <==> OfferedAt(ms, u, n)
  {
    LastOfferCounts(ms[..u + 1]);
  }

  /** What a reply says: each name is bound to the address that was its last offer at the first step, from the one of the
      request on, by which it had been offered at all. */
  lemma {:induction false} ReplyBinds(ms: seq<Message>, a: Address, n: Name) returns (i: nat, t: nat, last: nat)
    requires FreshRun(ms) && a in Run(ms).sent && Run(ms).sent[a] != [] && n in Run(ms).sent[a][0]
    ensures i <= t < |ms| && ms[i].Command? && ms[i].from == a
    ensures OfferedAt(ms, t, n) && forall u :: i <= u < t ==> !OfferedAt(ms, u, n)
    ensures IsLast(OffersIn(ms[..t + 1]), n, last) && Run(ms).sent[a][0][n] == OffersIn(ms[..t + 1])[last].1
  {
    RunBindings(ms);
    var v := Run(ms).sent[a][0][n];
    assert BoundFor(ms, a, n, v);
    i, t :| 0 <= i < |ms| && ms[i].Command? && ms[i].from == a && KnownFrom(ms, i, t, n)
      && v == Run(ms[..t + 1]).addrs[n];
    forall u | 0 <= u < |ms| ensures KnownAt(ms, u, n) <==> OfferedAt(ms, u, n) { KnownIsOffered(ms, u, n); }
    LastOfferCounts(ms[..t + 1]);
    last := HasLast(OffersIn(ms[..t + 1]), n);
  }
}

/** One round of the sync pod: sync_one() and the result collection of finish(). */
module SyncRound {
  import opened Basics

  /** A peer address as accept() reports it. */
  datatype Address = Address(ip: string, port: int)

  /** What read_token() produced for one accepted connection. */
  datatype ReadResult =
    | Token(text: string)
    | NoToken            // the peer closed before the prefix, or sent an empty token
    | BadRead            // read_token raised

  datatype Conn = Conn(address: Address, read: ReadResult)

  /** The first four characters of a message in lower case, sorted by what sync_one() compares them with. */
  datatype Command = Blank | Time | Tnet | Rslt | Fail | Sync | Other(text: string)

  function ReadCommand(text: string): Command {
    if text == "" then Blank
    else if text == "time" then Time
    else if text == "tnet" then Tnet
    else if text == "rslt" then Rslt
    else if text == "fail" then Fail
    else if text == "sync" then Sync
    else Other(text)
  }

  /** The command and payload of a token that carries the right nonce. */
  datatype Request = Request(address: Address, command: Command, payload: string)

  datatype Parsed = Skip | Raise | Req(request: Request)

  /** json.loads of a TNET payload: the items of its `have` member, or None if the payload is unusable. */
  type JsonHave = string -> Option<seq<(string, string)>>

  datatype Failure =
    | Duplicate(address: Address)
    | WrongCommand(command: Command)
    | LateTimeSync
    | Reported(payload: string)

  /** The local variables of sync_one()'s accept loop. */
  datatype Round = Round(
    remaining: nat,                       // expected_clients, counted down
    known: set<Address>,
    expectedCommand: Command,             // Blank while unset: the code tests it for truth
    tsClients: seq<Address>,
    netClients: map<string, string>,
    results: map<nat, string>,            // result file number -> text
    command: Option<Command>)             // the loop variable `command`

  datatype Outcome = Going(round: Round) | FailHard(why: Failure) | Crash

  /** How the child process ends, or that it still waits for connections. */
  datatype Exit = Waiting | Code(status: int)

  function Fresh(expected: nat): Round {
    Round(expected, {}, Blank, [], map[], map[], None)
  }

  const ETH0 := "eth0@"

  function HaveEntry(ip: string, item: (string, string)): string {
    if ETH0 <= item.0 then ip else item.1
  }

  /** The name table after the `have` items of one client were entered, the last occurrence of a name winning. */
  function AddHave(nets: map<string, string>, ip: string, have: seq<(string, string)>): map<string, string> {
    if have == [] then nets
    else
      var last := |have| - 1;
      AddHave(nets, ip, have[..last])[have[last].0 := HaveEntry(ip, have[last])]
  }

  /** The position of the first blank of `s`, or |s|. */
  function FirstBlank(s: string): (k: nat)
    ensures k <= |s|
    ensures forall i :: 0 <= i < k ==> s[i] != ' '
    ensures k < |s| ==> s[k] == ' '
  {
    if s == [] || s[0] == ' ' then 0 else 1 + FirstBlank(s[1..])
  }

  /** Splitting off the nonce and reading the command. */
  function Parse(conn: Conn, nonce: string): Parsed {
    match conn.read
    case BadRead => Raise
    case NoToken => Skip
    case Token(text) =>
      var k := FirstBlank(text);
      if k == |text| || text[..k] != nonce then Skip
      else Req(ReadRequest(conn.address, text[k + 1..]))
  }

  /** What stands behind the nonce: four characters of command, and the payload. */
  function ReadRequest(address: Address, body: string): Request {
    var split := if |body| < 4 then |body| else 4;
    Request(address, ReadCommand(Lower(body[..split])), LStrip(body[split..]))
  }

  /** What sync_one() does with one request that carries the right nonce. */
  function Admit(r: Round, q: Request, firstPass: bool, json: JsonHave): Outcome
    requires r.remaining > 0
  {
    if q.address in r.known then FailHard(Duplicate(q.address))
    else if r.expectedCommand != Blank && q.command != r.expectedCommand then FailHard(WrongCommand(q.command))
    else
      var seen := r.(known := r.known + {q.address}, command := Some(q.command),
                     expectedCommand := if r.expectedCommand != Blank then r.expectedCommand else q.command);
      var counted := seen.(remaining := r.remaining - 1);
      if q.command == Time || q.command == Tnet then
        if !firstPass then FailHard(LateTimeSync)
        else if q.command == Time then
          if WordCount(q.payload) == 3 then Going(counted.(tsClients := r.tsClients + [q.address])) else Crash
        else
          match json(q.payload)
          case None => Going(seen)
          case Some(have) =>
            Going(counted.(tsClients := r.tsClients + [q.address],
                           netClients := AddHave(r.netClients, q.address.ip, have)))
      else if q.command == Rslt then
        Going(counted.(results := r.results[r.remaining := RStrip(q.payload)]))
      else if q.command == Fail then FailHard(Reported(q.payload))
      else Going(counted)
  }

  function Step(r: Round, conn: Conn, nonce: string, firstPass: bool, json: JsonHave): Outcome
    requires r.remaining > 0
  {
    match Parse(conn, nonce)
    case Skip => Going(r)
    case Raise => Crash
    case Req(q) => Admit(r, q, firstPass, json)
  }

  /** The accept loop over a queue of incoming connections. */
  function Collect(r: Round, conns: seq<Conn>, nonce: string, firstPass: bool, json: JsonHave): Outcome
    decreases |conns|
  {
    if r.remaining == 0 || conns == [] then Going(r)
    else
      var next := Step(r, conns[0], nonce, firstPass, json);
      if next.Going? then Collect(next.round, conns[1..], nonce, firstPass, json) else next
  }

  /** The code of a round all of whose clients were accepted. Registering names reuses the variable
      `command`; a round for no clients at all reads it unset, which is an uncaught error. */
  function ExitCode(r: Round): int {
    if r.netClients != map[] then 0
    else match r.command
         case None => 1
         case Some(c) => if c == Rslt then 2 else 0
  }

  function ExitOf(o: Outcome): Exit {
    match o
    case Going(r) => if r.remaining > 0 then Waiting else Code(ExitCode(r))
    case FailHard(_) => Code(1)
    case Crash => Code(1)
  }

  /** What the rest of the pod sees of a round: the exit code, the result files, the names sent to the
      nameserver and the clients that got a timestamp reply. */
  ghost predicate Observed(o: Outcome, exit: Exit, files: map<nat, string>, registered: map<string, string>,
                           replied: seq<Address>)
  {
    && exit == ExitOf(o)
    && (o.Going? ==> files == o.round.results)
    && (o.Going? && exit.Code? ==> registered == o.round.netClients && replied == o.round.tsClients)
  }

  /** The body of the accept loop for one request, updating the loop's variables in the order of the code. */
  method Handle(before: Round, q: Request, firstPass: bool, json: JsonHave) returns (o: Outcome)
    requires before.remaining > 0
    ensures o == Admit(before, q, firstPass, json)
  {
    var r := before;
    if q.address in r.known { return FailHard(Duplicate(q.address)); }
    r := r.(known := r.known + {q.address});
    if r.expectedCommand != Blank {
      if q.command != r.expectedCommand { return FailHard(WrongCommand(q.command)); }
    } else {
      r := r.(expectedCommand := q.command);
    }
    r := r.(command := Some(q.command));
    match q.command {
      case Time =>
        if !firstPass { return FailHard(LateTimeSync); }
        if WordCount(q.payload) != 3 { return Crash; }
        r := r.(tsClients := r.tsClients + [q.address]);
      case Tnet =>
        if !firstPass { return FailHard(LateTimeSync); }
        var have := json(q.payload);
        if have.None? { return Going(r); }
        var nets := EnterNames(r.netClients, q.address.ip, have.value);
        r := r.(netClients := nets, tsClients := r.tsClients + [q.address]);
      case Rslt =>
        r := r.(results := r.results[r.remaining := RStrip(q.payload)]);
      case Fail =>
        return FailHard(Reported(q.payload));
      case _ =>
    }
    r := r.(remaining := r.remaining - 1);
    o := Going(r);
  }

  /** sync_one(): accept connections in order until the expected number was counted. */
  method SyncOne(conns: seq<Conn>, nonce: string, expected: nat, firstPass: bool, json: JsonHave)
    returns (exit: Exit, files: map<nat, string>, registered: map<string, string>, replied: seq<Address>)
    ensures Observed(Collect(Fresh(expected), conns, nonce, firstPass, json), exit, files, registered, replied)
  {
    files, registered, replied := map[], map[], [];
    var state := Going(Fresh(expected));
    var i := 0;
    while state.Going? && state.round.remaining > 0 && i < |conns|
      invariant 0 <= i <= |conns|
      invariant (if state.Going? then Collect(state.round, conns[i..], nonce, firstPass, json) else state)
             == Collect(Fresh(expected), conns, nonce, firstPass, json)
      decreases |conns| - i
    {
      CollectOne(state.round, conns, i, nonce, firstPass, json);
      match Parse(conns[i], nonce) {
        case Skip =>
        case Raise => state := Crash;
        case Req(q) => state := Handle(state.round, q, firstPass, json);
      }
      i := i + 1;
    }
    if !state.Going? { return Code(1), files, registered, replied; }
    var r := state.round;
    files := r.results;
    if r.remaining > 0 { return Waiting, files, registered, replied; }
    replied := r.tsClients;
    var command := r.command;
    if r.netClients != map[] {
      // the message to the nameserver is built in the same variable
      registered, command := r.netClients, Some(Other("nsrq"));
    }
    if command.None? { return Code(1), files, registered, replied; }
    exit := Code(if command.value == Rslt then 2 else 0);
  }

  lemma {:induction false} CollectOne(r: Round, conns: seq<Conn>, i: nat, nonce: string, firstPass: bool, json: JsonHave)
    requires r.remaining > 0 && i < |conns|
    ensures var next := Step(r, conns[i], nonce, firstPass, json);
            Collect(r, conns[i..], nonce, firstPass, json) ==
            if next.Going? then Collect(next.round, conns[i + 1..], nonce, firstPass, json) else next
  {
    assert conns[i..][1..] == conns[i + 1..];
  }

  /** The loop that enters one client's names, an eth0 name at the address the connection came from. */
  method EnterNames(nets: map<string, string>, ip: string, have: seq<(string, string)>)
    returns (out: map<string, string>)
    ensures out == AddHave(nets, ip, have)
  {
    out := nets;
    for i := 0 to |have|
      invariant out == AddHave(nets, ip, have[..i])
    {
      assert have[..i + 1][..i] == have[..i];
      out := out[have[i].0 := if ETH0 <= have[i].0 then ip else have[i].1];
    }
    assert have[..|have|] == have;
  }

  /** finish(): the result files 1..expected in order, each parsed as JSON by `parse`; one that is absent or does not
      parse contributes the empty datum None. For no files at all the code counts over a number, which is an error. */
  method WorkerResults<D>(files: map<nat, string>, expected: nat, parse: string -> Option<D>)
    returns (ok: bool, data: seq<Option<D>>)
    ensures ok <==> expected > 0
    ensures ok ==> |data| == expected
    ensures ok ==> forall i, d :: 0 <= i < expected ==>
              (data[i] == Some(d) <==> i + 1 in files && parse(files[i + 1]) == Some(d))
  {
    ok, data := expected > 0, [];
    if !ok { return; }
    for i := 1 to expected + 1
      invariant |data| == i - 1
      invariant forall k, d :: 0 <= k < i - 1 ==>
                  (data[k] == Some(d) <==> k + 1 in files && parse(files[k + 1]) == Some(d))
    {
      var datum := None;
      if i in files { datum := parse(files[i]); }
      data := data + [datum];
    }
  }

  // ---------------------------------------------------------------------------------------------
  // Reading a request

  /** How the commands are spelled. */
  function Word(c: Command): string {
    match c
    case Blank => ""
    case Time => "time"
    case Tnet => "tnet"
    case Rslt => "rslt"
    case Fail => "fail"
    case Sync => "sync"
    case Other(text) => text
  }

  /** A word is read as the command it spells, and as Other only if it spells no other one. */
  lemma {:induction false} CommandSpelled(text: string)
    ensures Word(ReadCommand(text)) == text
    ensures ReadCommand(text).Other? <==> text !in {"", "time", "tnet", "rslt", "fail", "sync"}
  {
  }

  /** The token begins with the nonce and a blank. A nonce with a blank in it is never met. */
  predicate Authentic(conn: Conn, nonce: string) {
    && conn.read.Token? && ' ' !in nonce
    && |nonce| < |conn.read.text| && conn.read.text[..|nonce|] == nonce && conn.read.text[|nonce|] == ' '
  }

  lemma {:induction false} FirstBlankAfter(nonce: string, rest: string)
    requires ' ' !in nonce
    ensures FirstBlank(nonce + " " + rest) == |nonce|
  {
    var s := nonce + " " + rest;
    assert s[|nonce|] == ' ';
    forall i | 0 <= i < |nonce| ensures s[i] != ' ' { assert s[i] == nonce[i]; }
  }

  function Head(body: string): (head: string)
    ensures |head| == if |body| < 4 then |body| else 4
    ensures head <= body
  {
    body[..if |body| < 4 then |body| else 4]
  }

  /** q is what a client said that sent `body` behind the nonce: its first four characters, in lower case, spell the
      command, and the payload is the rest without leading blanks. */
  ghost predicate Says(q: Request, address: Address, body: string) {
    && q.address == address
    && Word(q.command) == Lower(Head(body)) && q.command == ReadCommand(Word(q.command))
    && q.payload == LStrip(body[|Head(body)|..])
  }

  lemma {:induction false} Cut(nonce: string, body: string, text: string)
    requires text == nonce + " " + body
    ensures |nonce| < |text| && text[..|nonce|] == nonce && text[|nonce| + 1..] == body
  {
  }

  lemma {:induction false} ParseBody(conn: Conn, nonce: string, body: string)
    requires ' ' !in nonce && conn.read.Token? && conn.read.text == nonce + " " + body
    ensures Parse(conn, nonce) == Req(ReadRequest(conn.address, body))
  {
    FirstBlankAfter(nonce, body);
    Cut(nonce, body, conn.read.text);
  }

  lemma {:induction false} ReadSays(address: Address, body: string)
    ensures Says(ReadRequest(address, body), address, body)
  {
    CommandSpelled(Lower(Head(body)));
  }

  lemma {:induction false} AuthenticSplit(conn: Conn, nonce: string)
    requires Authentic(conn, nonce)
    ensures conn.read.text == nonce + " " + conn.read.text[|nonce| + 1..]
  {
  }

  lemma {:induction false} OnlyAuthentic(conn: Conn, nonce: string)
    requires Parse(conn, nonce).Req?
    ensures Authentic(conn, nonce)
  {
    var text, k := conn.read.text, FirstBlank(conn.read.text);
    assert text[..k] == nonce && text[k] == ' ';
    forall i | 0 <= i < |nonce| ensures nonce[i] != ' ' { assert nonce[i] == text[..k][i] == text[i]; }
  }

  function RequestOf(conn: Conn, nonce: string): Request
    requires conn.read.Token? && |nonce| < |conn.read.text|
  {
    ReadRequest(conn.address, conn.read.text[|nonce| + 1..])
  }

  /** What a connection comes to: a request exactly if its token begins with the nonce and a blank, an error exactly if
      reading raised, and otherwise nothing. */
  lemma {:induction false} ParseExactly(conn: Conn, nonce: string)
    ensures Parse(conn, nonce).Raise? <==> conn.read.BadRead?
    ensures Parse(conn, nonce).Req? <==> Authentic(conn, nonce)
    ensures Authentic(conn, nonce) ==> Parse(conn, nonce) == Req(RequestOf(conn, nonce))
  {
    if Authentic(conn, nonce) {
      AuthenticSplit(conn, nonce);
      ParseBody(conn, nonce, conn.read.text[|nonce| + 1..]);
    } else if Parse(conn, nonce).Req? {
      OnlyAuthentic(conn, nonce);
    }
  }

  /** What __do_sync_command() sends is read back: the command, whatever its case, and the payload. */
  lemma {:induction false} SentIsRead(conn: Conn, nonce: string, body: string, word: string, payload: string)
    requires ' ' !in nonce && |word| == 4 && (payload != [] ==> !IsSpace(payload[0]))
    requires conn.read == Token(nonce + " " + body) && body == word + (" " + payload)
    ensures Parse(conn, nonce) == Req(Request(conn.address, ReadCommand(Lower(word)), payload))
  {
    ParseBody(conn, nonce, body);
    HeadOf(word, " " + payload);
    BlankBefore(payload);
  }

  lemma {:induction false} HeadOf(word: string, rest: string)
    requires |word| == 4
    ensures Head(word + rest) == word && (word + rest)[4..] == rest
  {
  }

  lemma {:induction false} BlankBefore(payload: string)
    requires payload != [] ==> !IsSpace(payload[0])
    ensures LStrip(" " + payload) == payload
  {
    assert (" " + payload)[1..] == payload;
  }

  /** The connections whose token begins with the nonce. */
  function WithNonce(conns: seq<Conn>, nonce: string): seq<Conn> {
    if conns == [] then []
    else (if Authentic(conns[0], nonce) then [conns[0]] else []) + WithNonce(conns[1..], nonce)
  }

  lemma {:induction false} CollectCons(r: Round, conn: Conn, rest: seq<Conn>, nonce: string, firstPass: bool, json: JsonHave)
    requires r.remaining > 0
    ensures var next := Step(r, conn, nonce, firstPass, json);
            Collect(r, [conn] + rest, nonce, firstPass, json) ==
            if next.Going? then Collect(next.round, rest, nonce, firstPass, json) else next
  {
    assert ([conn] + rest)[1..] == rest;
  }

  lemma {:induction false} WithNonceCons(conn: Conn, rest: seq<Conn>, nonce: string)
    ensures WithNonce([conn] + rest, nonce) ==
            if Authentic(conn, nonce) then [conn] + WithNonce(rest, nonce) else WithNonce(rest, nonce)
  {
    assert ([conn] + rest)[1..] == rest;
  }

  /** Strangers change nothing: a round is decided by the connections with the nonce alone. */
  lemma {:induction false} StrangersChangeNothing(r: Round, conns: seq<Conn>, nonce: string, firstPass: bool, json: JsonHave)
    requires forall i :: 0 <= i < |conns| ==> !conns[i].read.BadRead?
    ensures Collect(r, conns, nonce, firstPass, json) == Collect(r, WithNonce(conns, nonce), nonce, firstPass, json)
    decreases |conns|
  {
    if r.remaining > 0 && conns != [] {
      var conn, rest := conns[0], conns[1..];
      assert conns == [conn] + rest;
      WithNonceCons(conn, rest, nonce);
      CollectCons(r, conn, rest, nonce, firstPass, json);
      ParseExactly(conn, nonce);
      var next := Step(r, conn, nonce, firstPass, json);
      if next.Going? { StrangersChangeNothing(next.round, rest, nonce, firstPass, json); }
      if Authentic(conn, nonce) { CollectCons(r, conn, WithNonce(rest, nonce), nonce, firstPass, json); }
    }
  }

  /** So with nobody who knows the nonce the round stays as it was. */
  lemma {:induction false} NobodyKnows(r: Round, conns: seq<Conn>, nonce: string, firstPass: bool, json: JsonHave)
    requires forall i :: 0 <= i < |conns| ==> !conns[i].read.BadRead? && !Authentic(conns[i], nonce)
    ensures Collect(r, conns, nonce, firstPass, json) == Going(r)
  {
    StrangersChangeNothing(r, conns, nonce, firstPass, json);
    NoneWithNonce(conns, nonce);
  }

  lemma {:induction false} NoneWithNonce(conns: seq<Conn>, nonce: string)
    requires forall i :: 0 <= i < |conns| ==> !Authentic(conns[i], nonce)
    ensures WithNonce(conns, nonce) == []
  {
    if conns != [] { NoneWithNonce(conns[1..], nonce); }
  }

  // ---------------------------------------------------------------------------------------------
  // What a round accepts

  /** What the clients with the nonce said, in order. */
  function Requests(conns: seq<Conn>, nonce: string): seq<Request> {
    if conns == [] then []
    else if Authentic(conns[0], nonce) then [RequestOf(conns[0], nonce)] + Requests(conns[1..], nonce)
    else Requests(conns[1..], nonce)
  }

  /** The accept loop seen as a loop over requests alone. */
  function Serve(r: Round, qs: seq<Request>, firstPass: bool, json: JsonHave): Outcome
    decreases |qs|
  {
    if r.remaining == 0 || qs == [] then Going(r)
    else
      var next := Admit(r, qs[0], firstPass, json);
      if next.Going? then Serve(next.round, qs[1..], firstPass, json) else next
  }

  lemma {:induction false} StepExactly(r: Round, conn: Conn, nonce: string, firstPass: bool, json: JsonHave)
    requires r.remaining > 0 && !conn.read.BadRead?
    ensures Step(r, conn, nonce, firstPass, json) ==
            if Authentic(conn, nonce) then Admit(r, RequestOf(conn, nonce), firstPass, json) else Going(r)
  {
    ParseExactly(conn, nonce);
  }

  /** One connection more, with the verdict on it known. */
  lemma {:induction false} OneConnection(r: Round, conns: seq<Conn>, nonce: string, firstPass: bool, json: JsonHave,
                                         next: Outcome, qs: seq<Request>, rest: seq<Request>)
    requires r.remaining > 0 && conns != [] && next == Step(r, conns[0], nonce, firstPass, json)
    requires next.Going? ==> Collect(next.round, conns[1..], nonce, firstPass, json) == Serve(next.round, rest, firstPass, json)
    requires if qs == rest then next == Going(r) else qs != [] && qs[1..] == rest && next == Admit(r, qs[0], firstPass, json)
    ensures Collect(r, conns, nonce, firstPass, json) == Serve(r, qs, firstPass, json)
  {
  }

  lemma {:induction false} RequestsStep(conns: seq<Conn>, nonce: string, qs: seq<Request>, rest: seq<Request>)
    requires conns != [] && qs == Requests(conns, nonce) && rest == Requests(conns[1..], nonce)
    ensures !Authentic(conns[0], nonce) ==> qs == rest
    ensures Authentic(conns[0], nonce) ==> qs != rest && qs != [] && qs[0] == RequestOf(conns[0], nonce) && qs[1..] == rest
  {
    if Authentic(conns[0], nonce) {
      assert qs == [RequestOf(conns[0], nonce)] + rest;
      assert |qs| == |rest| + 1;
    }
  }

  /** Connections without the nonce are invisible: unless a read fails outright, only the requests that carry
      the nonce, in their order, decide a round. */
  lemma {:induction false} OnlyRequestsCount(r: Round, conns: seq<Conn>, nonce: string, firstPass: bool, json: JsonHave)
    requires forall i :: 0 <= i < |conns| ==> !conns[i].read.BadRead?
    ensures Collect(r, conns, nonce, firstPass, json) == Serve(r, Requests(conns, nonce), firstPass, json)
    decreases |conns|
  {
    if r.remaining > 0 && conns != [] {
      var qs, rest := Requests(conns, nonce), Requests(conns[1..], nonce);
      var next := Step(r, conns[0], nonce, firstPass, json);
      if next.Going? { OnlyRequestsCount(next.round, conns[1..], nonce, firstPass, json); }
      StepExactly(r, conns[0], nonce, firstPass, json);
      RequestsStep(conns, nonce, qs, rest);
      OneConnection(r, conns, nonce, firstPass, json, next, qs, rest);
    }
  }

  /** Requests from distinct peers, none of them known yet. */
  ghost predicate NewPeers(known: set<Address>, qs: seq<Request>) {
    && (forall i, j :: 0 <= i < j < |qs| ==> qs[i].address != qs[j].address)
    && (forall i :: 0 <= i < |qs| ==> qs[i].address !in known)
  }

  lemma {:induction false} NewPeersStep(known: set<Address>, qs: seq<Request>)
    requires qs != []
    ensures NewPeers(known, qs) <==>
      qs[0].address !in known && NewPeers(known + {qs[0].address}, qs[1..])
  {
    var rest := qs[1..];
    assert forall i :: 0 < i < |qs| ==> qs[i] == rest[i - 1];
    assert forall i :: 0 <= i < |rest| ==> rest[i] == qs[i + 1];
  }

  /** Empty commands up to position k, and the command c from there on. */
  ghost predicate BlanksThen(qs: seq<Request>, k: nat, c: Command) {
    && k <= |qs|
    && (forall i :: 0 <= i < k ==> qs[i].command == Blank)
    && (forall i :: k <= i < |qs| ==> qs[i].command == c)
  }

  lemma {:induction false} BlanksThenStep(qs: seq<Request>, k: nat, c: Command)
    requires qs != []
    ensures qs[0].command == Blank ==> (BlanksThen(qs, k + 1, c) <==> BlanksThen(qs[1..], k, c))
    ensures BlanksThen(qs, 0, c) <==> qs[0].command == c && BlanksThen(qs[1..], 0, c)
  {
    var rest := qs[1..];
    assert forall i :: 0 < i < |qs| ==> qs[i] == rest[i - 1];
    assert forall i :: 0 <= i < |rest| ==> rest[i] == qs[i + 1];
  }

  /** The round is committed to command `c`. */
  ghost predicate Committed(r: Round, c: Command) {
    c != Blank && r.expectedCommand == c && r.command == Some(c)
  }

  /** The round has seen at most empty commands, and is committed to nothing. */
  ghost predicate Uncommitted(r: Round) {
    r.expectedCommand == Blank && r.command in {None, Some(Blank)} && r.netClients == map[]
  }

  /** Once a round is committed to another command, it does not end the run. */
  lemma {:induction false} OtherCommandNeverEnds(r: Round, c: Command, qs: seq<Request>, firstPass: bool, json: JsonHave)
    requires Committed(r, c) && c != Rslt
    ensures ExitOf(Serve(r, qs, firstPass, json)) != Code(2)
    decreases |qs|
  {
    if r.remaining > 0 && qs != [] {
      var next := Admit(r, qs[0], firstPass, json);
      if next.Going? {
        assert Committed(next.round, c);
        OtherCommandNeverEnds(next.round, c, qs[1..], firstPass, json);
      }
    }
  }

  /** The files written while the last |qs| results are admitted, above whatever was written before. */
  ghost predicate Filed(before: map<nat, string>, after: map<nat, string>, qs: seq<Request>) {
    && (forall k: nat :: 1 <= k <= |qs| ==> k in after && after[k] == RStrip(qs[|qs| - k].payload))
    && (forall k: nat :: k > |qs| && k in before ==> k in after && after[k] == before[k])
    && (forall k: nat :: k in after ==> k in before || 1 <= k <= |qs|)
  }

  /** A round committed to results ends the run exactly if the remaining requests are results from new,
      distinct peers; the countdown then numbers the files. */
  lemma {:induction false} ResultsOnly(r: Round, qs: seq<Request>, firstPass: bool, json: JsonHave)
    requires Committed(r, Rslt) && r.remaining == |qs| && r.netClients == map[]
    ensures var o := Serve(r, qs, firstPass, json);
            && (ExitOf(o) == Code(2) <==> NewPeers(r.known, qs) && BlanksThen(qs, 0, Rslt))
            && (ExitOf(o) == Code(2) ==> Filed(r.results, o.round.results, qs))
    decreases |qs|
  {
    if qs != [] {
      var q, rest := qs[0], qs[1..];
      NewPeersStep(r.known, qs);
      BlanksThenStep(qs, 0, Rslt);
      var next := Admit(r, q, firstPass, json);
      if next.Going? {
        assert Committed(next.round, Rslt) && q.command == Rslt;
        assert next.round.known == r.known + {q.address} && next.round.remaining == |rest|;
        ResultsOnly(next.round, rest, firstPass, json);
        var o := Serve(next.round, rest, firstPass, json);
        assert Serve(r, qs, firstPass, json) == o;
        if ExitOf(o) == Code(2) {
          FiledMore(r.results, next.round.results, o.round.results, qs);
        }
      } else {
        assert q.address in r.known || q.command != Rslt;
      }
    }
  }

  lemma {:induction false} FiledMore(before: map<nat, string>, mid: map<nat, string>, after: map<nat, string>, qs: seq<Request>)
    requires qs != [] && mid == before[|qs| := RStrip(qs[0].payload)] && Filed(mid, after, qs[1..])
    ensures Filed(before, after, qs)
  {
    var rest := qs[1..];
    forall k: nat | 1 <= k <= |qs| ensures k in after && after[k] == RStrip(qs[|qs| - k].payload) {
      if k < |qs| {
        assert k in after && after[k] == RStrip(rest[|rest| - k].payload);
        assert rest[|rest| - k] == qs[|qs| - k];
      } else {
        assert k in mid;
      }
    }
  }

  /** The first non-empty command decides: a result commits the round to results, any other one keeps it from
      ending the run. */
  lemma {:induction false} FirstCommand(r: Round, qs: seq<Request>, firstPass: bool, json: JsonHave)
    requires Uncommitted(r) && r.remaining == |qs| && qs != [] && qs[0].command != Blank
    ensures var o := Serve(r, qs, firstPass, json);
            && (ExitOf(o) == Code(2) <==> NewPeers(r.known, qs) && BlanksThen(qs, 0, Rslt))
            && (ExitOf(o) == Code(2) ==> Filed(r.results, o.round.results, qs))
  {
    var q, rest := qs[0], qs[1..];
    var next := Admit(r, q, firstPass, json);
    NewPeersStep(r.known, qs);
    BlanksThenStep(qs, 0, Rslt);
    if next.Going? {
      assert Committed(next.round, q.command);
      if q.command != Rslt {
        OtherCommandNeverEnds(next.round, q.command, rest, firstPass, json);
      } else {
        assert next.round.known == r.known + {q.address} && next.round.remaining == |rest|;
        ResultsOnly(next.round, rest, firstPass, json);
        var o := Serve(next.round, rest, firstPass, json);
        assert Serve(r, qs, firstPass, json) == o;
        if ExitOf(o) == Code(2) { FiledMore(r.results, next.round.results, o.round.results, qs); }
      }
    }
  }

  /** After k empty commands there follow only results, at least one of them. */
  ghost predicate EndsWithResults(qs: seq<Request>, k: nat) {
    k < |qs| && BlanksThen(qs, k, Rslt)
  }

  /** A round that has seen only empty commands. */
  lemma {:induction false} UncommittedEnds(r: Round, qs: seq<Request>, firstPass: bool, json: JsonHave)
    requires Uncommitted(r) && r.remaining == |qs|
    ensures var o := Serve(r, qs, firstPass, json);
            && (ExitOf(o) == Code(2) <==> NewPeers(r.known, qs) && exists k: nat :: EndsWithResults(qs, k))
            && (ExitOf(o) == Code(2) ==>
                  forall k: nat :: EndsWithResults(qs, k) ==> Filed(r.results, o.round.results, qs[k..]))
    decreases |qs|
  {
    if qs == [] {
    } else if qs[0].command != Blank {
      FirstCommand(r, qs, firstPass, json);
      assert EndsWithResults(qs, 0) <==> BlanksThen(qs, 0, Rslt);
      assert forall k: nat :: EndsWithResults(qs, k) ==> k == 0;
      assert qs[0..] == qs;
    } else {
      var q, rest := qs[0], qs[1..];
      NewPeersStep(r.known, qs);
      var next := Admit(r, q, firstPass, json);
      forall k: nat
        ensures EndsWithResults(qs, k + 1) <==> EndsWithResults(rest, k)
        ensures k <= |rest| ==> qs[k + 1..] == rest[k..]
      {
        BlanksThenStep(qs, k, Rslt);
      }
      assert !EndsWithResults(qs, 0);
      forall k: nat | EndsWithResults(qs, k) ensures k > 0 && EndsWithResults(rest, k - 1) && qs[k..] == rest[k - 1..] {
        assert k > 0;
        assert EndsWithResults(qs, (k - 1) + 1) <==> EndsWithResults(rest, k - 1);
      }
      if next.Going? {
        assert next.round.known == r.known + {q.address} && next.round.remaining == |rest|;
        UncommittedEnds(next.round, rest, firstPass, json);
        assert Serve(r, qs, firstPass, json) == Serve(next.round, rest, firstPass, json);
      }
    }
  }

  /** The result files of a round are numbered from the end: file j holds the result that came j-th from the end. */
  ghost predicate FilesHold(files: map<nat, string>, qs: seq<Request>, n: int) {
    && n <= |qs|
    && (forall j: nat :: j in files <==> 1 <= j <= n)
    && (forall j: nat :: 1 <= j <= n ==> files[j] == RStrip(qs[|qs| - j].payload))
  }

  lemma {:induction false} FiledFromNothing(files: map<nat, string>, qs: seq<Request>, k: nat)
    requires k <= |qs| && Filed(map[], files, qs[k..])
    ensures FilesHold(files, qs, |qs| - k)
  {
    var rest := qs[k..];
    forall j: nat | 1 <= j <= |rest| ensures j in files && files[j] == RStrip(qs[|qs| - j].payload) {
      assert rest[|rest| - j] == qs[|qs| - j];
    }
  }

  /** The round that ends the run: N requests from distinct peers, results but for empty commands at the
      beginning. */
  lemma {:induction false} EndsTheRun(qs: seq<Request>, firstPass: bool, json: JsonHave)
    ensures var o := Serve(Fresh(|qs|), qs, firstPass, json);
            && (ExitOf(o) == Code(2) <==> NewPeers({}, qs) && exists k: nat :: EndsWithResults(qs, k))
            && (ExitOf(o) == Code(2) ==>
                  forall k: nat :: EndsWithResults(qs, k) ==> FilesHold(o.round.results, qs, |qs| - k))
  {
    var r := Fresh(|qs|);
    var o := Serve(r, qs, firstPass, json);
    UncommittedEnds(r, qs, firstPass, json);
    if ExitOf(o) == Code(2) {
      forall k: nat | EndsWithResults(qs, k) ensures FilesHold(o.round.results, qs, |qs| - k) {
        FiledFromNothing(o.round.results, qs, k);
      }
    }
  }

  // ---------------------------------------------------------------------------------------------
  // When a round can end although its requests disagree

  /** How many requests the loop looks at. */
  function Looked(r: Round, qs: seq<Request>, firstPass: bool, json: JsonHave): (n: nat)
    ensures n <= |qs|
    decreases |qs|
  {
    if r.remaining == 0 || qs == [] then 0
    else
      var next := Admit(r, qs[0], firstPass, json);
      1 + if next.Going? then Looked(next.round, qs[1..], firstPass, json) else 0
  }

  /** All clients of a round were accepted. */
  predicate Completed(o: Outcome) {
    o.Going? && o.round.remaining == 0
  }

  /** A committed round that did not fail saw only its command. */
  lemma {:induction false} CommittedAgrees(r: Round, c: Command, qs: seq<Request>, firstPass: bool, json: JsonHave)
    requires Committed(r, c) && Serve(r, qs, firstPass, json).Going?
    ensures BlanksThen(qs[..Looked(r, qs, firstPass, json)], 0, c)
    decreases |qs|
  {
    if r.remaining > 0 && qs != [] {
      var next := Admit(r, qs[0], firstPass, json);
      assert Committed(next.round, c);
      CommittedAgrees(next.round, c, qs[1..], firstPass, json);
      var looked := qs[..Looked(r, qs, firstPass, json)];
      assert looked[1..] == qs[1..][..Looked(next.round, qs[1..], firstPass, json)];
      BlanksThenStep(looked, 0, c);
    }
  }

  /** What the agreement check does guarantee: a round that did not fail saw empty commands first, and then one
      command only. */
  lemma {:induction false} SeenCommands(r: Round, qs: seq<Request>, firstPass: bool, json: JsonHave)
    returns (k: nat, c: Command)
    requires r.expectedCommand == Blank && Serve(r, qs, firstPass, json).Going?
    ensures BlanksThen(qs[..Looked(r, qs, firstPass, json)], k, c)
    ensures qs != [] && qs[0].command != Blank ==> k == 0
    decreases |qs|
  {
    k, c := 0, Blank;
    if r.remaining > 0 && qs != [] {
      var next := Admit(r, qs[0], firstPass, json);
      var looked := qs[..Looked(r, qs, firstPass, json)];
      assert looked[1..] == qs[1..][..Looked(next.round, qs[1..], firstPass, json)];
      if qs[0].command != Blank {
        c := qs[0].command;
        assert Committed(next.round, c);
        CommittedAgrees(next.round, c, qs[1..], firstPass, json);
        BlanksThenStep(looked, 0, c);
      } else {
        k, c := SeenCommands(next.round, qs[1..], firstPass, json);
        BlanksThenStep(looked, k, c);
        k := k + 1;
      }
    }
  }

  ghost predicate OneCommand(qs: seq<Request>) {
    forall i, j :: 0 <= i < |qs| && 0 <= j < |qs| ==> qs[i].command == qs[j].command
  }

  /** A round for n clients that completes with the requests `qs` has looked only at requests with one command. */
  ghost predicate CompletesAgreed(n: nat, qs: seq<Request>, firstPass: bool, json: JsonHave) {
    Completed(Serve(Fresh(n), qs, firstPass, json)) ==> OneCommand(qs[..Looked(Fresh(n), qs, firstPass, json)])
  }

  /** n results from distinct peers, none of them `other`. */
  function Results(n: nat, other: Address): (qs: seq<Request>)
    ensures |qs| == n && forall i :: 0 <= i < n ==> qs[i].command == Rslt
  {
    seq(n, i requires 0 <= i < n => Request(Address(other.ip, other.port + 1 + i), Rslt, ""))
  }

  /** The agreement check tests `expected_command` for truth. So the first request decides whether completion means
      agreement: exactly if its command is not empty, or no other client is waited for. */
  lemma {:induction false} AgreementExactly(n: nat, q: Request, firstPass: bool, json: JsonHave)
    requires n > 0
    ensures (forall rest: seq<Request> :: CompletesAgreed(n, [q] + rest, firstPass, json))
       <==> n == 1 || q.command != Blank
  {
    if q.command != Blank {
      forall rest: seq<Request> ensures CompletesAgreed(n, [q] + rest, firstPass, json) {
        if Serve(Fresh(n), [q] + rest, firstPass, json).Going? {
          var k, c := SeenCommands(Fresh(n), [q] + rest, firstPass, json);
        }
      }
    } else if n == 1 {
      forall rest: seq<Request> ensures CompletesAgreed(n, [q] + rest, firstPass, json) {
        var next := Admit(Fresh(1), q, firstPass, json);
        assert next.Going? && next.round.remaining == 0;
        assert Looked(next.round, ([q] + rest)[1..], firstPass, json) == 0;
      }
    } else {
      var rest := Results(n - 1, q.address);
      BlankThenResults(n, q, rest, firstPass, json);
      assert !CompletesAgreed(n, [q] + rest, firstPass, json);
    }
  }

  /** An empty command and then results: the run ends although the requests disagree. */
  lemma {:induction false} BlankThenResults(n: nat, q: Request, rest: seq<Request>, firstPass: bool, json: JsonHave)
    requires n > 1 && q.command == Blank && rest == Results(n - 1, q.address)
    ensures var qs := [q] + rest;
            && ExitOf(Serve(Fresh(n), qs, firstPass, json)) == Code(2)
            && !OneCommand(qs[..Looked(Fresh(n), qs, firstPass, json)])
  {
    var qs := [q] + rest;
    assert EndsWithResults(qs, 1);
    assert NewPeers({}, qs);
    EndsTheRun(qs, firstPass, json);
    LookedAtAll(Fresh(n), qs, firstPass, json);
    assert qs[..n] == qs && qs[0].command == Blank && qs[1].command == Rslt;
  }

  /** A round completed by no more requests than it waits for has looked at all of them. */
  lemma {:induction false} LookedAtAll(r: Round, qs: seq<Request>, firstPass: bool, json: JsonHave)
    requires |qs| <= r.remaining && Completed(Serve(r, qs, firstPass, json))
    ensures Looked(r, qs, firstPass, json) == |qs|
    decreases |qs|
  {
    if r.remaining > 0 && qs != [] {
      var next := Admit(r, qs[0], firstPass, json);
      LookedAtAll(next.round, qs[1..], firstPass, json);
    }
  }

  // ---------------------------------------------------------------------------------------------
  // A whole round, by what its requests are

  /** A request that is not counted: one for the time and names whose payload is unusable. */
  predicate Uncounted(q: Request, json: JsonHave) {
    q.command == Tnet && json(q.payload).None?
  }

  function Counted(qs: seq<Request>, json: JsonHave): (n: nat)
    ensures n <= |qs|
  {
    if qs == [] then 0 else Counted(qs[..|qs| - 1], json) + if Uncounted(qs[|qs| - 1], json) then 0 else 1
  }

  /** Request i ends the run: its peer has spoken before, its command is not one that was given before, it asks for the
      time in a later round or in words that are not three, or it reports a failure. */
  ghost predicate Refused(qs: seq<Request>, i: int, firstPass: bool)
    requires 0 <= i < |qs|
  {
    || (exists j :: 0 <= j < i && qs[j].address == qs[i].address)
    || (exists j :: 0 <= j < i && qs[j].command != Blank && qs[j].command != qs[i].command)
    || (qs[i].command in {Time, Tnet} && !firstPass)
    || (qs[i].command == Time && WordCount(qs[i].payload) != 3)
    || qs[i].command == Fail
  }

  /** The peers that are sent the time, in order. */
  function TimePeers(qs: seq<Request>, json: JsonHave): seq<Address> {
    if qs == [] then []
    else
      var last := qs[|qs| - 1];
      TimePeers(qs[..|qs| - 1], json)
      + if last.command in {Time, Tnet} && !Uncounted(last, json) then [last.address] else []
  }

  /** The names in a payload, an eth0 name at the address the connection came from. */
  function NamesOf(ip: string, have: seq<(string, string)>): seq<(string, string)> {
    seq(|have|, i requires 0 <= i < |have| => (have[i].0, if "eth0@" <= have[i].0 then ip else have[i].1))
  }

  /** All names given, in order. */
  function NamesGiven(qs: seq<Request>, json: JsonHave): seq<(string, string)> {
    if qs == [] then []
    else
      var last := qs[|qs| - 1];
      NamesGiven(qs[..|qs| - 1], json)
      + if last.command == Tnet && !Uncounted(last, json) then NamesOf(last.address.ip, json(last.payload).value) else []
  }

  /** How many of n clients are still missing. */
  function Missing(qs: seq<Request>, n: nat, json: JsonHave): nat {
    if Counted(qs, json) < n then n - Counted(qs, json) else 0
  }

  /** The results of a round for n clients, in order: one that finds k clients missing goes into file k. */
  function ResultsGiven(qs: seq<Request>, n: nat, json: JsonHave): seq<(nat, string)> {
    if qs == [] then []
    else
      var front, last := qs[..|qs| - 1], qs[|qs| - 1];
      ResultsGiven(front, n, json) + if last.command == Rslt then [(Missing(front, n, json), RStrip(last.payload))] else []
  }

  ghost predicate CommandsOk(r: Round, qs: seq<Request>) {
    && (forall i :: 0 <= i < |qs| && qs[i].command != Blank ==> qs[i].command == r.expectedCommand)
    && (r.expectedCommand != Blank ==> exists i :: 0 <= i < |qs| && qs[i].command == r.expectedCommand)
    && r.command == (if qs == [] then None else Some(qs[|qs| - 1].command))
  }

  ghost predicate PeersOk(known: set<Address>, qs: seq<Request>) {
    forall a :: a in known <==> exists i :: 0 <= i < |qs| && qs[i].address == a
  }

  /** The variables of the loop after it has admitted the requests qs, of n clients. */
  ghost predicate Tells(r: Round, qs: seq<Request>, n: nat, json: JsonHave) {
    && r.remaining == n - Counted(qs, json)
    && PeersOk(r.known, qs) && CommandsOk(r, qs)
    && r.tsClients == TimePeers(qs, json)
    && LastWins(r.netClients, NamesGiven(qs, json))
    && LastWins(r.results, ResultsGiven(qs, n, json))
  }

  lemma {:induction false} NamesEntered(nets: map<string, string>, ip: string, have: seq<(string, string)>,
                                        before: seq<(string, string)>)
    requires LastWins(nets, before)
    ensures LastWins(AddHave(nets, ip, have), before + NamesOf(ip, have))
  {
    if have == [] {
      assert before + NamesOf(ip, have) == before;
    } else {
      var last := |have| - 1;
      var entry := (have[last].0, HaveEntry(ip, have[last]));
      NamesEntered(nets, ip, have[..last], before);
      LastWinsStep(AddHave(nets, ip, have[..last]), before + NamesOf(ip, have[..last]), entry.0, entry.1);
      assert NamesOf(ip, have) == NamesOf(ip, have[..last]) + [entry];
      assert before + NamesOf(ip, have) == before + NamesOf(ip, have[..last]) + [entry];
    }
  }

  /** A request is admitted exactly if it is not refused. */
  lemma {:induction false} AdmittedExactly(r: Round, done: seq<Request>, q: Request, n: nat, firstPass: bool, json: JsonHave)
    requires Tells(r, done, n, json) && r.remaining > 0
    ensures Admit(r, q, firstPass, json).Going? <==> !Refused(done + [q], |done|, firstPass)
  {
    var all := done + [q];
    assert all[|done|] == q && forall j :: 0 <= j < |done| ==> all[j] == done[j];
    KnownPeer(r, done, q, all);
    OtherCommand(r, done, q, all);
  }

  lemma {:induction false} KnownPeer(r: Round, done: seq<Request>, q: Request, all: seq<Request>)
    requires PeersOk(r.known, done) && |all| == |done| + 1 && forall j :: 0 <= j < |done| ==> all[j] == done[j]
    ensures q.address in r.known <==> exists j :: 0 <= j < |done| && all[j].address == q.address
  {
    if q.address in r.known {
      var j :| 0 <= j < |done| && done[j].address == q.address;
      assert all[j].address == q.address;
    }
    if exists j :: 0 <= j < |done| && all[j].address == q.address {
      var j :| 0 <= j < |done| && all[j].address == q.address;
      assert done[j].address == q.address;
    }
  }

  lemma {:induction false} OtherCommand(r: Round, done: seq<Request>, q: Request, all: seq<Request>)
    requires CommandsOk(r, done) && |all| == |done| + 1 && forall j :: 0 <= j < |done| ==> all[j] == done[j]
    ensures r.expectedCommand != Blank && q.command != r.expectedCommand <==>
            exists j :: 0 <= j < |done| && all[j].command != Blank && all[j].command != q.command
  {
    if r.expectedCommand != Blank && q.command != r.expectedCommand {
      var j :| 0 <= j < |done| && done[j].command == r.expectedCommand;
      assert all[j].command != Blank && all[j].command != q.command;
    }
    if exists j :: 0 <= j < |done| && all[j].command != Blank && all[j].command != q.command {
      var j :| 0 <= j < |done| && all[j].command != Blank && all[j].command != q.command;
      assert done[j].command == r.expectedCommand;
    }
  }

  lemma {:induction false} FilesMore(files: map<nat, string>, done: seq<Request>, q: Request, n: nat, json: JsonHave,
                                     after: map<nat, string>)
    requires LastWins(files, ResultsGiven(done, n, json))
    requires after == if q.command == Rslt then files[Missing(done, n, json) := RStrip(q.payload)] else files
    ensures LastWins(after, ResultsGiven(done + [q], n, json))
  {
    assert (done + [q])[..|done|] == done;
    if q.command == Rslt {
      LastWinsStep(files, ResultsGiven(done, n, json), Missing(done, n, json), RStrip(q.payload));
    } else {
      assert ResultsGiven(done, n, json) + [] == ResultsGiven(done, n, json);
    }
  }

  lemma {:induction false} TellsMore(r: Round, done: seq<Request>, q: Request, n: nat, firstPass: bool, json: JsonHave,
                                     next: Round)
    requires Tells(r, done, n, json) && r.remaining > 0 && Admit(r, q, firstPass, json) == Going(next)
    ensures Tells(next, done + [q], n, json)
  {
    PeersMore(r.known, done, q);
    CommandsMore(r, done, q, next);
    FilesMore(r.results, done, q, n, json, next.results);
    NamesMore(r.netClients, done, q, json, next.netClients);
    CountMore(done, q, json);
  }

  lemma {:induction false} CountMore(done: seq<Request>, q: Request, json: JsonHave)
    ensures Counted(done + [q], json) == Counted(done, json) + if Uncounted(q, json) then 0 else 1
    ensures TimePeers(done + [q], json) ==
            TimePeers(done, json) + if q.command in {Time, Tnet} && !Uncounted(q, json) then [q.address] else []
    ensures NamesGiven(done + [q], json) ==
            NamesGiven(done, json)
            + if q.command == Tnet && !Uncounted(q, json) then NamesOf(q.address.ip, json(q.payload).value) else []
  {
    assert (done + [q])[..|done|] == done;
  }

  lemma {:induction false} NamesMore(nets: map<string, string>, done: seq<Request>, q: Request, json: JsonHave,
                                     after: map<string, string>)
    requires LastWins(nets, NamesGiven(done, json))
    requires after == if q.command == Tnet && !Uncounted(q, json)
                      then AddHave(nets, q.address.ip, json(q.payload).value) else nets
    ensures LastWins(after, NamesGiven(done + [q], json))
  {
    CountMore(done, q, json);
    if q.command == Tnet && !Uncounted(q, json) {
      NamesEntered(nets, q.address.ip, json(q.payload).value, NamesGiven(done, json));
    } else {
      assert NamesGiven(done, json) + [] == NamesGiven(done, json);
    }
  }

  lemma {:induction false} PeersMore(known: set<Address>, done: seq<Request>, q: Request)
    requires PeersOk(known, done)
    ensures PeersOk(known + {q.address}, done + [q])
  {
    var all := done + [q];
    forall a ensures a in known + {q.address} <==> exists i :: 0 <= i < |all| && all[i].address == a {
      if a in known {
        var i :| 0 <= i < |done| && done[i].address == a;
        assert all[i].address == a;
      }
      if a == q.address { assert all[|done|].address == a; }
      if exists i :: 0 <= i < |all| && all[i].address == a {
        var i :| 0 <= i < |all| && all[i].address == a;
        if i < |done| { assert done[i].address == a; }
      }
    }
  }

  lemma {:induction false} CommandsMore(r: Round, done: seq<Request>, q: Request, next: Round)
    requires CommandsOk(r, done)
    requires r.expectedCommand != Blank ==> q.command == r.expectedCommand
    requires next.expectedCommand == (if r.expectedCommand != Blank then r.expectedCommand else q.command)
    requires next.command == Some(q.command)
    ensures CommandsOk(next, done + [q])
  {
    var all := done + [q];
    assert all[|done|] == q && forall j :: 0 <= j < |done| ==> all[j] == done[j];
    if r.expectedCommand != Blank {
      var i :| 0 <= i < |done| && done[i].command == r.expectedCommand;
      assert all[i].command == next.expectedCommand;
    } else {
      assert all[|done|].command == next.expectedCommand;
    }
  }

  /** The round up to here was not refused, and one client at least was missing before each of its requests. */
  ghost predicate Admitted(qs: seq<Request>, n: nat, firstPass: bool, json: JsonHave) {
    forall i :: 0 <= i < |qs| ==> Counted(qs[..i], json) < n && !Refused(qs, i, firstPass)
  }

  lemma {:induction false} AdmittedMore(done: seq<Request>, q: Request, n: nat, firstPass: bool, json: JsonHave)
    requires Admitted(done, n, firstPass, json) && Counted(done, json) < n
    ensures Admitted(done + [q], n, firstPass, json) <==> !Refused(done + [q], |done|, firstPass)
  {
    var all := done + [q];
    forall i | 0 <= i < |done| ensures Counted(all[..i], json) < n && !Refused(all, i, firstPass) {
      assert all[..i] == done[..i];
      assert all[i] == done[i];
      RefusedPrefix(done, all, i, firstPass);
    }
    assert all[..|done|] == done;
  }

  lemma {:induction false} RefusedPrefix(done: seq<Request>, all: seq<Request>, i: nat, firstPass: bool)
    requires i < |done| <= |all| && forall j :: 0 <= j <= i ==> all[j] == done[j]
    ensures Refused(all, i, firstPass) <==> Refused(done, i, firstPass)
  {
  }

  /** The requests of a round for n clients: admitted up to a request that completes it, a refused one or the end. */
  ghost predicate EndsAt(qs: seq<Request>, u: int, n: nat, firstPass: bool, json: JsonHave) {
    && 0 <= u <= |qs| && Admitted(qs[..u], n, firstPass, json)
    && (u == |qs| || Counted(qs[..u], json) >= n || Refused(qs, u, firstPass))
  }

  lemma {:induction false} ServeTells(r: Round, done: seq<Request>, rest: seq<Request>, n: nat, firstPass: bool, json: JsonHave)
    returns (u: nat)
    requires Tells(r, done, n, json) && Admitted(done, n, firstPass, json)
    ensures var qs, o := done + rest, Serve(r, rest, firstPass, json);
            && EndsAt(qs, u, n, firstPass, json)
            && (o.Going? <==> u == |qs| || Counted(qs[..u], json) >= n)
            && (o.Going? ==> Tells(o.round, qs[..u], n, json))
    decreases |rest|
  {
    var qs := done + rest;
    assert qs[..|done|] == done;
    u := |done|;
    if r.remaining > 0 && rest != [] {
      var q := rest[0];
      var more := done + [q];
      var next := Admit(r, q, firstPass, json);
      AdmittedExactly(r, done, q, n, firstPass, json);
      AdmittedMore(done, q, n, firstPass, json);
      if next.Going? {
        TellsMore(r, done, q, n, firstPass, json, next.round);
        assert more + rest[1..] == qs;
        u := ServeTells(next.round, more, rest[1..], n, firstPass, json);
      } else {
        assert qs[|done|] == q;
        RefusedPrefix(more, qs, |done|, firstPass);
      }
    }
  }

  /** A whole round, told by its requests: which of them are looked at, that one of them fails the run exactly if it is
      refused while clients are missing, and what the round leaves behind. */
  lemma {:induction false} RoundExactly(n: nat, qs: seq<Request>, firstPass: bool, json: JsonHave) returns (u: nat)
    ensures var o := Serve(Fresh(n), qs, firstPass, json);
            && EndsAt(qs, u, n, firstPass, json)
            && (o.Going? <==> u == |qs| || Counted(qs[..u], json) >= n)
            && (o.Going? ==> Tells(o.round, qs[..u], n, json))
  {
    assert [] + qs == qs;
    u := ServeTells(Fresh(n), [], qs, n, firstPass, json);
  }

  lemma {:induction false} NamesNeedTnet(qs: seq<Request>, json: JsonHave)
    ensures NamesGiven(qs, json) != [] ==> exists i :: 0 <= i < |qs| && qs[i].command == Tnet
  {
    if qs != [] {
      var front := qs[..|qs| - 1];
      NamesNeedTnet(front, json);
      if NamesGiven(front, json) != [] {
        var i :| 0 <= i < |front| && front[i].command == Tnet;
        assert qs[i].command == Tnet;
      } else if qs[|qs| - 1].command != Tnet {
        assert NamesGiven(qs, json) == [];
      }
    }
  }

  /** A round whose last request was a result has no names. */
  lemma {:induction false} NoNamesWithResults(r: Round, qs: seq<Request>, json: JsonHave)
    requires CommandsOk(r, qs) && qs != [] && qs[|qs| - 1].command == Rslt
    ensures NamesGiven(qs, json) == []
  {
    NamesNeedTnet(qs, json);
    assert qs[|qs| - 1].command == r.expectedCommand;
  }

  lemma {:induction false} NoEntries(nets: map<string, string>, given: seq<(string, string)>)
    requires LastWins(nets, given) && given == []
    ensures nets == map[]
  {
    assert forall k :: k !in nets;
  }

  /** How the sync pod's child ends, for a round whose requests are looked at up to u: it waits while clients are
      missing; it fails if a request was refused, or if there was nobody to wait for; otherwise the code is 2 if the
      last request was a result, and 0 if not. */
  lemma {:induction false} ExitExactly(n: nat, qs: seq<Request>, firstPass: bool, json: JsonHave) returns (u: nat)
    ensures EndsAt(qs, u, n, firstPass, json)
    ensures ExitOf(Serve(Fresh(n), qs, firstPass, json)) ==
            if Counted(qs[..u], json) < n then (if u == |qs| then Waiting else Code(1))
            else if n == 0 then Code(1)
            else if u > 0 && qs[u - 1].command == Rslt then Code(2) else Code(0)
  {
    u := RoundExactly(n, qs, firstPass, json);
    var o := Serve(Fresh(n), qs, firstPass, json);
    if o.Going? { ExitOfRound(o.round, qs[..u], n, json); }
  }

  lemma {:induction false} ExitOfRound(r: Round, qs: seq<Request>, n: nat, json: JsonHave)
    requires Tells(r, qs, n, json)
    ensures ExitOf(Going(r)) ==
            if Counted(qs, json) < n then Waiting
            else if qs == [] then Code(1)
            else if qs[|qs| - 1].command == Rslt then Code(2) else Code(0)
  {
    if qs == [] {
      NoEntries(r.netClients, NamesGiven(qs, json));
    } else if qs[|qs| - 1].command == Rslt {
      NoNamesWithResults(r, qs, json);
      NoEntries(r.netClients, NamesGiven(qs, json));
    }
  }
}

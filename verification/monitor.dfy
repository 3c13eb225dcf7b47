/** Watching the pods (driver/monitoring.py): cutting the watcher's output into lines, and the verdict on the pods. */
module Monitor {
  import opened Basics

  // ---------------------------------------------------------------------------------------------
  // Lines

  type Bytes = seq<Byte>

  const NEWLINE: Byte := 10
  const RETURN: Byte := 13

  /** A text cut at its newlines: the lines that have ended, and the rest. */
  datatype Cut = Cut(lines: seq<Bytes>, rest: Bytes)

  function Feed(c: Cut, x: Byte): Cut {
    if x == NEWLINE then Cut(c.lines + [c.rest], []) else Cut(c.lines, c.rest + [x])
  }

  function FeedAll(c: Cut, s: Bytes): Cut {
    if s == [] then c else Feed(FeedAll(c, s[..|s| - 1]), s[|s| - 1])
  }

  function Split(s: Bytes): Cut {
    FeedAll(Cut([], []), s)
  }

  /** The lines put together again. */
  function Joined(lines: seq<Bytes>): Bytes {
    if lines == [] then [] else Joined(lines[..|lines| - 1]) + lines[|lines| - 1] + [NEWLINE]
  }

  predicate NoNewline(s: Bytes) {
    forall i :: 0 <= i < |s| ==> s[i] != NEWLINE
  }

  ghost predicate CutOk(c: Cut, s: Bytes) {
    Joined(c.lines) + c.rest == s && NoNewline(c.rest) && forall i :: 0 <= i < |c.lines| ==> NoNewline(c.lines[i])
  }

  lemma {:induction false} FeedOk(c: Cut, s: Bytes, x: Byte)
    requires CutOk(c, s)
    ensures CutOk(Feed(c, x), s + [x])
  {
    if x == NEWLINE {
      assert (c.lines + [c.rest])[..|c.lines|] == c.lines;
      assert Joined(c.lines) + c.rest + [x] + [] == s + [x];
    } else {
      assert Joined(c.lines) + (c.rest + [x]) == s + [x];
    }
  }

  /** Cutting loses nothing, and no piece contains a newline. */
  lemma {:induction false} SplitJoin(s: Bytes)
    ensures CutOk(Split(s), s)
  {
    if s != [] {
      var front, last := s[..|s| - 1], s[|s| - 1];
      SplitJoin(front);
      FeedOk(Split(front), front, last);
      assert front + [last] == s;
    }
  }

  lemma {:induction false} JoinedNotEmpty(lines: seq<Bytes>)
    ensures lines != [] ==> |Joined(lines)| > 0
  {
  }

  /** The cut is the only one with these properties. */
  lemma {:induction false} SplitUnique(c: Cut, s: Bytes)
    requires CutOk(c, s)
    ensures c == Split(s)
    decreases |s|
  {
    if s == [] {
      JoinedNotEmpty(c.lines);
    } else {
      var front, last := s[..|s| - 1], s[|s| - 1];
      if c.rest == [] {
        assert Joined(c.lines) == s && c.lines != [];
        var before := Cut(c.lines[..|c.lines| - 1], c.lines[|c.lines| - 1]);
        assert Joined(before.lines) + before.rest == front;
        SplitUnique(before, front);
        assert before.lines + [before.rest] == c.lines;
      } else {
        var before := Cut(c.lines, c.rest[..|c.rest| - 1]);
        assert Joined(before.lines) + before.rest == front;
        SplitUnique(before, front);
        assert before.rest + [last] == c.rest;
      }
    }
  }

  /** Feeding on: it does not matter where the text is cut into chunks. */
  lemma {:induction false} FeedAppend(c: Cut, a: Bytes, b: Bytes)
    ensures FeedAll(c, a + b) == FeedAll(FeedAll(c, a), b)
  {
    if b == [] {
      assert a + b == a;
    } else {
      assert (a + b)[..|a + b| - 1] == a + b[..|b| - 1];
      FeedAppend(c, a, b[..|b| - 1]);
    }
  }

  lemma {:induction false} FeedPlain(c: Cut, s: Bytes)
    requires NoNewline(s)
    ensures FeedAll(c, s) == Cut(c.lines, c.rest + s)
  {
    if s == [] {
      assert c.rest + s == c.rest;
    } else {
      FeedPlain(c, s[..|s| - 1]);
      assert c.rest + s == c.rest + s[..|s| - 1] + [s[|s| - 1]];
    }
  }

  /** A line at the front is cut off. */
  lemma {:induction false} FeedLine(lines: seq<Bytes>, line: Bytes, more: Bytes)
    requires NoNewline(line)
    ensures FeedAll(Cut(lines, []), line + [NEWLINE] + more) == FeedAll(Cut(lines + [line], []), more)
  {
    FeedAppend(Cut(lines, []), line + [NEWLINE], more);
    FeedAppend(Cut(lines, []), line, [NEWLINE]);
    FeedPlain(Cut(lines, []), line);
    assert [] + line == line;
    assert [NEWLINE][..0] == [];
    assert FeedAll(Cut(lines, line), [NEWLINE]) == Feed(FeedAll(Cut(lines, line), []), NEWLINE);
  }

  /** A rest and more text: the rest can be put back in front of the text. */
  lemma {:induction false} RestInFront(c: Cut, more: Bytes)
    requires NoNewline(c.rest)
    ensures FeedAll(Cut(c.lines, []), c.rest + more) == FeedAll(c, more)
  {
    FeedAppend(Cut(c.lines, []), c.rest, more);
    FeedPlain(Cut(c.lines, []), c.rest);
    assert [] + c.rest == c.rest;
  }

  /** The index of the first newline, or the length if there is none. */
  function FirstNewline(s: Bytes): (k: nat)
    ensures k <= |s| && (k < |s| ==> s[k] == NEWLINE)
    ensures forall i :: 0 <= i < k ==> s[i] != NEWLINE
  {
    if s == [] || s[0] == NEWLINE then 0 else 1 + FirstNewline(s[1..])
  }

  /** rstrip("\r") */
  function StripReturns(s: Bytes): (r: Bytes)
    ensures r <= s && (r != [] ==> r[|r| - 1] != RETURN)
    ensures forall i :: |r| <= i < |s| ==> s[i] == RETURN
  {
    if s != [] && s[|s| - 1] == RETURN then StripReturns(s[..|s| - 1]) else s
  }

  function AllStripped(lines: seq<Bytes>): seq<Bytes> {
    if lines == [] then [] else AllStripped(lines[..|lines| - 1]) + [StripReturns(lines[|lines| - 1])]
  }

  lemma {:induction false} StrippedStep(lines: seq<Bytes>, line: Bytes)
    ensures AllStripped(lines + [line]) == AllStripped(lines) + [StripReturns(line)]
  {
    assert (lines + [line])[..|lines|] == lines;
  }

  /** What the watcher should yield for a stream: its lines, the last one even if no newline ends it. */
  function LinesOf(stream: Bytes): seq<Bytes> {
    var c := Split(stream);
    AllStripped(c.lines + if c.rest == [] then [] else [c.rest])
  }

  /** What select() and read() return: a chunk of the output, or nothing for the timeout. */
  datatype Read = Chunk(text: Bytes) | Timeout

  datatype Item = Line(text: Bytes) | Heartbeat

  function Stream(input: seq<Read>): Bytes {
    if input == [] then []
    else Stream(input[..|input| - 1]) + Text(input[|input| - 1])
  }

  function Text(r: Read): Bytes {
    if r.Chunk? then r.text else []
  }

  function LineIn(x: Item): seq<Bytes> {
    if x.Line? then [x.text] else []
  }

  function LineItems(items: seq<Item>): seq<Bytes> {
    if items == [] then []
    else LineItems(items[..|items| - 1]) + LineIn(items[|items| - 1])
  }

  function Heartbeats(items: seq<Item>): nat {
    if items == [] then 0
    else Heartbeats(items[..|items| - 1]) + if items[|items| - 1].Heartbeat? then 1 else 0
  }

  function Timeouts(input: seq<Read>): nat {
    if input == [] then 0 else Timeouts(input[..|input| - 1]) + if input[|input| - 1].Timeout? then 1 else 0
  }

  lemma {:induction false} ItemStep(items: seq<Item>, x: Item)
    ensures LineItems(items + [x]) == LineItems(items) + LineIn(x)
    ensures Heartbeats(items + [x]) == Heartbeats(items) + if x.Heartbeat? then 1 else 0
  {
    assert (items + [x])[..|items|] == items;
  }

  lemma {:induction false} TakeLine(text: Bytes, k: nat)
    requires k < |text| && text[k] == NEWLINE && forall i :: 0 <= i < k ==> text[i] != NEWLINE
    ensures NoNewline(text[..k]) && text == text[..k] + [NEWLINE] + text[k + 1..]
  {
  }

  lemma {:induction false} CutLine(lines: seq<Bytes>, text: Bytes, line: Bytes, more: Bytes)
    requires NoNewline(line) && text == line + [NEWLINE] + more
    ensures FeedAll(Cut(lines, []), text) == FeedAll(Cut(lines + [line], []), more)
  {
    FeedLine(lines, line, more);
  }

  /** The inner loop: yield every line that has ended, and keep the rest. */
  method YieldLines(remainder: Bytes, items: seq<Item>, ghost lines: seq<Bytes>)
    returns (rest: Bytes, more: seq<Item>)
    requires LineItems(items) == AllStripped(lines)
    ensures var c := FeedAll(Cut(lines, []), remainder);
            rest == c.rest && LineItems(more) == AllStripped(c.lines)
    ensures Heartbeats(more) == Heartbeats(items)
  {
    rest, more := remainder, items;
    ghost var done := lines;
    while FirstNewline(rest) < |rest|
      invariant FeedAll(Cut(done, []), rest) == FeedAll(Cut(lines, []), remainder)
      invariant LineItems(more) == AllStripped(done) && Heartbeats(more) == Heartbeats(items)
      decreases |rest|
    {
      var k := FirstNewline(rest);
      var line := rest[..k];
      TakeLine(rest, k);
      CutLine(done, rest, line, rest[k + 1..]);
      StrippedStep(done, line);
      ItemStep(more, Line(StripReturns(line)));
      done := done + [line];
      more := more + [Line(StripReturns(line))];
      rest := rest[k + 1..];
    }
    NoMoreLines(done, rest);
  }

  lemma {:induction false} NoMoreLines(lines: seq<Bytes>, text: Bytes)
    requires FirstNewline(text) == |text|
    ensures FeedAll(Cut(lines, []), text) == Cut(lines, text)
  {
    FeedPlain(Cut(lines, []), text);
    assert [] + text == text;
  }

  /** watch_pods_with_heartbeat(): the lines depend only on the bytes, not on the chunks or the heartbeats. */
  method WatchPods(input: seq<Read>) returns (items: seq<Item>)
    ensures LineItems(items) == LinesOf(Stream(input))
    ensures Heartbeats(items) == Timeouts(input)
  {
    items := [];
    var remainder: Bytes := [];
    for i := 0 to |input|
      invariant LineItems(items) == AllStripped(Split(Stream(input[..i])).lines)
      invariant remainder == Split(Stream(input[..i])).rest
      invariant Heartbeats(items) == Timeouts(input[..i])
    {
      assert input[..i + 1][..i] == input[..i];
      ghost var before := Stream(input[..i]);
      match input[i] {
        case Chunk(text) =>
          SplitJoin(before);
          RestInFront(Split(before), text);
          FeedAppend(Cut([], []), before, text);
          remainder, items := YieldLines(remainder + text, items, Split(before).lines);
        case Timeout =>
          assert before + [] == before;
          ItemStep(items, Heartbeat);
          items := items + [Heartbeat];
      }
    }
    assert input[..|input|] == input;
    ghost var c := Split(Stream(input));
    if remainder != [] {
      StrippedStep(c.lines, remainder);
      ItemStep(items, Line(StripReturns(remainder)));
      items := items + [Line(StripReturns(remainder))];
    } else {
      assert c.lines + [] == c.lines;
    }
  }
}

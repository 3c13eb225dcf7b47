/** The length-prefixed frame: _send_message() on the client side, read_token() on the other. */
module Frame {
  import opened Basics

  // ---------------------------------------------------------------------------------------------
  // str.encode()

  /** The UTF-8 encoding of one character (table 3-6 of the Unicode standard). */
  function Utf8Char(c: char): (bytes: seq<Byte>)
    ensures |bytes| >= 1
    ensures c as int < 128 <==> bytes == [c as int]
    ensures c as int >= 128 ==> forall i :: 0 <= i < |bytes| ==> bytes[i] >= 128
    ensures c as int < 128 <==> |bytes| == 1
  {
    var n := c as int;
    if n < 0x80 then [n]
    else if n < 0x800 then [0xC0 + n / 64, 0x80 + n % 64]
    else if n < 0x10000 then [0xE0 + n / 4096, 0x80 + n / 64 % 64, 0x80 + n % 64]
    else [0xF0 + n / 262144, 0x80 + n / 4096 % 64, 0x80 + n / 64 % 64, 0x80 + n % 64]
  }

  /** The six bits a continuation byte carries. */
  function Low(b: int): int { b - 0x80 }

  lemma {:induction false} SixBits(n: nat)
    ensures n == n / 64 * 64 + n % 64
  {
  }

  lemma {:induction false} TwelveBits(n: nat)
    ensures n / 4096 == n / 64 / 64
  {
  }

  lemma {:induction false} EighteenBits(n: nat)
    ensures n / 262144 == n / 4096 / 64
  {
  }

  /** The bytes of a character tell the character. */
  lemma {:induction false} Utf8CharTells(c: char)
    ensures var b := Utf8Char(c);
            c as int == (match |b|
              case 1 => b[0]
              case 2 => (b[0] - 0xC0) * 64 + Low(b[1])
              case 3 => ((b[0] - 0xE0) * 64 + Low(b[1])) * 64 + Low(b[2])
              case _ => (((b[0] - 0xF0) * 64 + Low(b[1])) * 64 + Low(b[2])) * 64 + Low(b[3]))
  {
    var n := c as int;
    SixBits(n);
    SixBits(n / 64);
    SixBits(n / 4096);
    TwelveBits(n);
    EighteenBits(n);
  }

  function Utf8(s: string): seq<Byte> {
    if s == [] then [] else Utf8Char(s[0]) + Utf8(s[1..])
  }

  predicate Ascii(s: string) {
    forall i :: 0 <= i < |s| ==> s[i] as int < 128
  }

  function Codes(s: string): (bytes: seq<int>)
    ensures |bytes| == |s| && forall i :: 0 <= i < |s| ==> bytes[i] == s[i] as int
  {
    seq(|s|, i requires 0 <= i < |s| => s[i] as int)
  }

  lemma {:induction false} Utf8OfAscii(s: string)
    requires Ascii(s)
    ensures Utf8(s) == Codes(s)
  {
    if s != [] {
      Utf8OfAscii(s[1..]);
      assert Codes(s) == [s[0] as int] + Codes(s[1..]);
    }
  }

  lemma {:induction false} Utf8Concat(s: string, t: string)
    ensures Utf8(s + t) == Utf8(s) + Utf8(t)
  {
    if s == [] {
      assert s + t == t && Utf8(s) + Utf8(t) == Utf8(t);
    } else {
      Utf8Concat(s[1..], t);
      assert (s + t)[1..] == s[1..] + t;
      var first, mid, last := Utf8Char(s[0]), Utf8(s[1..]), Utf8(t);
      assert first + (mid + last) == (first + mid) + last;
    }
  }

  /** The first character beyond ASCII puts a byte beyond ASCII at its own position. */
  lemma {:induction false} FirstBeyondAscii(s: string) returns (k: nat)
    requires !Ascii(s)
    ensures k < |s| && k < |Utf8(s)| && Utf8(s)[k] >= 128
  {
    if s[0] as int >= 128 {
      k := 0;
    } else {
      var i :| 0 <= i < |s| && s[i] as int >= 128;
      assert s[1..][i - 1] == s[i];
      var j := FirstBeyondAscii(s[1..]);
      k := j + 1;
    }
  }

  // ---------------------------------------------------------------------------------------------
  // '0x%08x%s'

  function HexDigit(d: nat): char
    requires d < 16
  {
    if d < 10 then ('0' as int + d) as char else ('a' as int + d - 10) as char
  }

  function Hex(n: nat): (digits: string)
    ensures digits != [] && forall i :: 0 <= i < |digits| ==> IsHexDigit(digits[i])
  {
    if n < 16 then [HexDigit(n)] else Hex(n / 16) + [HexDigit(n % 16)]
  }

  /** %08x */
  function Hex8(n: nat): (digits: string)
    ensures |digits| >= 8 && forall i :: 0 <= i < |digits| ==> IsHexDigit(digits[i])
  {
    var h := Hex(n);
    if |h| < 8 then seq(8 - |h|, _ => '0') + h else h
  }

  /** What the client puts on the wire: the prefix counts characters, the text is sent as bytes. */
  function FrameText(token: string): string {
    "0x" + Hex8(|token|) + token
  }

  // ---------------------------------------------------------------------------------------------
  // int(prefix, base=16)

  predicate IsHexDigit(c: char) {
    '0' <= c <= '9' || 'a' <= c <= 'f'
  }

  function HexDigitValue(c: char): (d: nat)
    requires IsHexDigit(c)
    ensures d < 16
  {
    if c <= '9' then c as int - '0' as int else c as int - 'a' as int + 10
  }

  function HexValue(digits: string): nat
    requires forall i :: 0 <= i < |digits| ==> IsHexDigit(digits[i])
  {
    if digits == [] then 0
    else 16 * HexValue(digits[..|digits| - 1]) + HexDigitValue(digits[|digits| - 1])
  }

  lemma {:induction false} HexRoundTrip(n: nat)
    ensures HexValue(Hex(n)) == n
  {
    if n >= 16 {
      HexRoundTrip(n / 16);
      assert Hex(n)[..|Hex(n)| - 1] == Hex(n / 16);
    } else {
      assert Hex(n)[..0] == [];
    }
  }

  lemma {:induction false} LeadingZeros(k: nat, digits: string)
    requires forall i :: 0 <= i < |digits| ==> IsHexDigit(digits[i])
    ensures HexValue(seq(k, _ => '0') + digits) == HexValue(digits)
    decreases k + |digits|
  {
    var zeros := seq(k, _ => '0');
    var all := zeros + digits;
    if digits != [] {
      LeadingZeros(k, digits[..|digits| - 1]);
      assert all[..|all| - 1] == zeros + digits[..|digits| - 1];
    } else if k > 0 {
      LeadingZeros(k - 1, []);
      assert all[..k - 1] == seq(k - 1, _ => '0') + [];
    } else {
      assert all == digits;
    }
  }

  function Pow16(e: nat): nat {
    if e == 0 then 1 else 16 * Pow16(e - 1)
  }

  lemma {:induction false} HexLength(n: nat, e: nat)
    requires e > 0
    ensures n < Pow16(e) <==> |Hex(n)| <= e
    decreases e
  {
    if e == 1 {
      assert Pow16(1) == 16 * Pow16(0) == 16;
    } else if n >= 16 {
      HexLength(n / 16, e - 1);
    } else {
      assert Pow16(e) == 16 * Pow16(e - 1);
      PowPositive(e - 1);
    }
  }

  lemma {:induction false} PowPositive(e: nat)
    ensures Pow16(e) >= 1
  {
    if e > 0 { PowPositive(e - 1); }
  }

  /** Eight digits are enough exactly below 2^32, and they denote the number. */
  lemma {:induction false} Hex8RoundTrip(n: nat)
    ensures |Hex8(n)| == 8 <==> n < 0x1_0000_0000
    ensures HexValue(Hex8(n)) == n
  {
    HexLength(n, 8);
    assert Pow16(8) == 0x1_0000_0000 by {
      assert Pow16(0) == 1 && Pow16(1) == 16 && Pow16(2) == 256 && Pow16(3) == 4096;
      assert Pow16(4) == 65536 && Pow16(5) == 1048576;
    }
    HexRoundTrip(n);
    LeadingZeros(if |Hex(n)| < 8 then 8 - |Hex(n)| else 0, Hex(n));
  }

  // ---------------------------------------------------------------------------------------------
  // The two ends

  /** How many of `available` bytes one call moves if the caller asks for n and the kernel offers `offers[0]`. */
  function Moved(n: nat, offers: seq<nat>, available: nat): nat {
    var most := if n < available then n else available;
    if offers == [] || offers[0] > most then most else offers[0]
  }

  function Next(offers: seq<nat>): seq<nat> {
    if offers == [] then [] else offers[1..]
  }

  /** One end of a connection. `incoming` is everything the peer will still send before it closes; `offers` says
      how much each successive call moves, so every division into chunks is some value of it. */
  class Socket {
    var incoming: seq<Byte>
    var outgoing: seq<Byte>
    var offers: seq<nat>

    constructor (incoming: seq<Byte>, offers: seq<nat>)
      ensures this.incoming == incoming && this.offers == offers && outgoing == []
    {
      this.incoming, this.offers, outgoing := incoming, offers, [];
    }

    /** recv(n) waits for data: it returns nothing only at the end of the stream. */
    method Recv(n: nat) returns (data: seq<Byte>)
      requires n > 0
      modifies this
      ensures var k := Moved(n, old(offers), |old(incoming)|);
              var taken := if k == 0 && old(incoming) != [] then 1 else k;
              data == old(incoming)[..taken] && incoming == old(incoming)[taken..]
      ensures offers == Next(old(offers)) && outgoing == old(outgoing)
    {
      var k := Moved(n, offers, |incoming|);
      if k == 0 && incoming != [] { k := 1; }
      data, incoming, offers := incoming[..k], incoming[k..], Next(offers);
    }

    /** send(data) takes a prefix of the data, possibly none of it. */
    method Send(data: seq<Byte>) returns (k: nat)
      modifies this
      ensures k == Moved(|data|, old(offers), |data|) <= |data|
      ensures outgoing == old(outgoing) + data[..k]
      ensures offers == Next(old(offers)) && incoming == old(incoming)
    {
      k := Moved(|data|, offers, |data|);
      outgoing, offers := outgoing + data[..k], Next(offers);
    }
  }

  /** The write loop of _send_message(): however the token is cut up, the whole frame goes out. */
  method SendFrame(conn: Socket, token: string)
    modifies conn
    ensures conn.outgoing == old(conn.outgoing) + Utf8(FrameText(token))
    ensures conn.incoming == old(conn.incoming)
  {
    var bytes := Utf8(FrameText(token));
    while |bytes| > 0
      invariant conn.outgoing + bytes == old(conn.outgoing) + Utf8(FrameText(token))
      invariant conn.incoming == old(conn.incoming)
      decreases |conn.offers|, |bytes|
    {
      ghost var sent := conn.outgoing;
      var k := conn.Send(bytes);
      assert sent + bytes == (sent + bytes[..k]) + bytes[k..];
      bytes := bytes[k..];
    }
  }

  datatype ReadOutcome = Token(text: string) | Closed | Malformed

  /** bytes.decode('ascii'), or None where it raises. */
  function DecodeAscii(bytes: seq<Byte>): (r: Option<string>)
    ensures r.Some? <==> forall i :: 0 <= i < |bytes| ==> bytes[i] < 128
    ensures r.Some? ==> |r.value| == |bytes| && forall i :: 0 <= i < |bytes| ==> r.value[i] as int == bytes[i]
  {
    if exists i :: 0 <= i < |bytes| && bytes[i] >= 128 then None
    else Some(seq(|bytes|, i requires 0 <= i < |bytes| => (bytes[i] % 128) as char))
  }

  /** int(prefix, base=16) on a prefix 0xhhhhhhhh. */
  function IntPrefix(prefix: string): Option<nat> {
    if |prefix| == 10 && prefix[0] == '0' && prefix[1] == 'x' && forall i :: 2 <= i < 10 ==> IsHexDigit(prefix[i])
    then Some(HexValue(prefix[2..]))
    else None
  }

  /** What the body loop makes of the rest of a stream. */
  function Body(all: seq<Byte>, length: nat): Option<string> {
    if |all| < length then None else DecodeAscii(all[..length])
  }

  /** What read_token() makes of a stream of which the first recv yields `first` bytes. */
  function Expect(stream: seq<Byte>, first: nat): ReadOutcome
    requires first <= |stream|
  {
    if first == 0 then Closed
    else if first != 10 || DecodeAscii(stream[..10]).None? then Malformed
    else
      match IntPrefix(Lower(DecodeAscii(stream[..10]).value))
      case None => Malformed
      case Some(length) =>
        match Body(stream[10..], length)
        case None => Malformed
        case Some(text) => Token(text)
  }

  lemma {:induction false} DecodeConcat(a: seq<Byte>, b: seq<Byte>)
    ensures DecodeAscii(a + b) ==
      if DecodeAscii(a).Some? && DecodeAscii(b).Some? then Some(DecodeAscii(a).value + DecodeAscii(b).value) else None
  {
    var c := a + b;
    if i :| 0 <= i < |c| && c[i] >= 128 {
      assert if i < |a| then a[i] >= 128 else b[i - |a|] >= 128;
    } else {
      assert forall i :: 0 <= i < |a| ==> a[i] == c[i];
      assert forall i :: 0 <= i < |b| ==> b[i] == c[i + |a|];
      assert DecodeAscii(c).value == DecodeAscii(a).value + DecodeAscii(b).value;
    }
  }

  lemma {:induction false} BadText(all: seq<Byte>, more: seq<Byte>, rest: seq<Byte>, length: nat)
    requires all == more + rest && |more| <= length <= |all| && DecodeAscii(more) == None
    ensures DecodeAscii(all[..length]) == None
  {
    DecodeConcat(more, rest[..length - |more|]);
    assert all[..length] == more + rest[..length - |more|];
  }

  /** One chunk more of the body. */
  lemma {:induction false} MoreText(all: seq<Byte>, got: seq<Byte>, answer: string, before: seq<Byte>, chunk: seq<Byte>, rest: seq<Byte>)
    requires all == got + before && before == chunk + rest && DecodeAscii(got) == Some(answer)
    ensures all == (got + chunk) + rest
    ensures DecodeAscii(got + chunk) ==
      match DecodeAscii(chunk) case None => None case Some(part) => Some(answer + part)
  {
    DecodeConcat(got, chunk);
  }

  lemma {:induction false} CutAt(got: seq<Byte>, rest: seq<Byte>, length: nat)
    requires |got| == length
    ensures (got + rest)[..length] == got && (got + rest)[length..] == rest
  {
  }

  /** The text read so far, and what is still to come. */
  ghost predicate ReadSoFar(all: seq<Byte>, got: seq<Byte>, rest: seq<Byte>, answer: string) {
    all == got + rest && DecodeAscii(got) == Some(answer)
  }

  lemma {:induction false} ReadMore(all: seq<Byte>, got: seq<Byte>, answer: string, before: seq<Byte>, chunk: seq<Byte>,
                                    rest: seq<Byte>, length: nat)
    requires ReadSoFar(all, got, before, answer) && before == chunk + rest && |got| + |chunk| <= length
    ensures match DecodeAscii(chunk)
            case None => Body(all, length) == None
            case Some(part) => ReadSoFar(all, got + chunk, rest, answer + part)
  {
    MoreText(all, got, answer, before, chunk, rest);
    if DecodeAscii(chunk).None? && |all| >= length { BadText(all, got + chunk, rest, length); }
  }

  lemma {:induction false} ReadAll(all: seq<Byte>, got: seq<Byte>, rest: seq<Byte>, answer: string, length: nat)
    requires ReadSoFar(all, got, rest, answer)
    ensures |got| == length ==> Body(all, length) == Some(answer) && rest == all[length..]
    ensures |got| < length && rest == [] ==> Body(all, length) == None
  {
    if |got| == length { CutAt(got, rest, length); }
  }

  /** The body loop: it reads on until it has `length` bytes, or raises. */
  method ReadBody(conn: Socket, length: nat) returns (text: Option<string>)
    modifies conn
    ensures text == Body(old(conn.incoming), length)
    ensures text.Some? ==> |old(conn.incoming)| >= length && conn.incoming == old(conn.incoming)[length..]
  {
    ghost var all := conn.incoming;
    ghost var got: seq<Byte> := [];
    var bytesToRead: nat, answer := length, "";
    while bytesToRead > 0
      invariant |got| + bytesToRead == length && ReadSoFar(all, got, conn.incoming, answer)
      decreases bytesToRead
    {
      ghost var before := conn.incoming;
      var chunk := conn.Recv(bytesToRead);
      var part := DecodeAscii(chunk);
      ReadMore(all, got, answer, before, chunk, conn.incoming, length);
      if |chunk| == 0 { ReadAll(all, got, before, answer, length); }
      if part.None? || |chunk| == 0 { return None; }
      got, answer, bytesToRead := got + chunk, answer + part.value, bytesToRead - |chunk|;
    }
    ReadAll(all, got, conn.incoming, answer, length);
    text := Some(answer);
  }

  /** read_token(): the prefix in one recv, then the body. However the body is cut into chunks, the outcome is
      the one the stream determines, and a token takes exactly its frame. */
  method ReadToken(conn: Socket) returns (r: ReadOutcome)
    modifies conn
    ensures var all := old(conn.incoming);
            var k := Moved(10, old(conn.offers), |all|);
            r == Expect(all, if k == 0 && all != [] then 1 else k)
    ensures r.Token? ==> |old(conn.incoming)| >= 10 + |r.text| && conn.incoming == old(conn.incoming)[10 + |r.text|..]
  {
    ghost var all := conn.incoming;
    var first := conn.Recv(10);
    if |first| == 0 { return Closed; }
    var prefix := DecodeAscii(first);
    if prefix.None? || |first| != 10 { return Malformed; }
    var length := IntPrefix(Lower(prefix.value));
    if length.None? { return Malformed; }
    var text := ReadBody(conn, length.value);
    if text.None? { return Malformed; }
    assert all[10..][length.value..] == all[10 + length.value..];
    r := Token(text.value);
  }

  /** Reading finds the connection closed exactly if the peer sends nothing at all; a prefix cut short is an error, by the
      end of the stream or by the first call. */
  lemma {:induction false} ClosedExactly(stream: seq<Byte>, offers: seq<nat>)
    ensures var k := Moved(10, offers, |stream|); var first := if k == 0 && stream != [] then 1 else k;
            && first <= |stream|
            && (Expect(stream, first) == Closed <==> stream == [])
            && (stream != [] && (|stream| < 10 || (offers != [] && offers[0] < 10)) ==> Expect(stream, first) == Malformed)
  {
  }

  // ---------------------------------------------------------------------------------------------
  // The round trip

  lemma {:induction false} DecodeCodes(s: string)
    requires Ascii(s)
    ensures DecodeAscii(Codes(s)) == Some(s)
  {
    assert forall i :: 0 <= i < |s| ==> (Codes(s)[i] % 128) as char == s[i];
    assert DecodeAscii(Codes(s)).value == s;
  }

  lemma {:induction false} PrefixOnTheWire(token: string, rest: seq<Byte>)
    ensures var wire := Utf8(FrameText(token)) + rest; var digits := Hex8(|token|);
            && |wire| >= 10
            && DecodeAscii(wire[..10]) == Some("0x" + digits[..8])
            && IntPrefix(Lower("0x" + digits[..8])) == Some(HexValue(digits[..8]))
            && wire[10..] == Codes(digits[8..]) + Utf8(token) + rest
  {
    var digits := Hex8(|token|);
    var head, tail := "0x" + digits, Utf8(token);
    Utf8Concat(head, token);
    Utf8OfAscii(head);
    CutPrefix(Codes(head), tail, rest);
    var prefix := "0x" + digits[..8];
    assert Codes(head)[..10] == Codes(prefix) && Codes(head)[10..] == Codes(digits[8..]);
    DecodeCodes(prefix);
    PlainPrefix(digits[..8]);
  }

  lemma {:induction false} CutPrefix(head: seq<Byte>, tail: seq<Byte>, rest: seq<Byte>)
    requires |head| >= 10
    ensures (head + tail + rest)[..10] == head[..10] && (head + tail + rest)[10..] == head[10..] + tail + rest
  {
  }

  lemma {:induction false} PlainPrefix(digits: string)
    requires |digits| == 8 && forall i :: 0 <= i < 8 ==> IsHexDigit(digits[i])
    ensures IntPrefix(Lower("0x" + digits)) == Some(HexValue(digits))
  {
    var prefix := "0x" + digits;
    forall i | 0 <= i < 10 ensures LowerChar(prefix[i]) == prefix[i] {
      assert 2 <= i ==> IsHexDigit(prefix[i]);
    }
    assert Lower(prefix) == prefix && prefix[2..] == digits;
  }

  lemma {:induction false} ExpectFrame(token: string, rest: seq<Byte>)
    requires |token| < 0x1_0000_0000
    ensures |Utf8(FrameText(token)) + rest| >= 10
    ensures Expect(Utf8(FrameText(token)) + rest, 10) ==
            match Body(Utf8(token) + rest, |token|) case None => Malformed case Some(text) => Token(text)
  {
    PrefixOnTheWire(token, rest);
    Hex8RoundTrip(|token|);
    var digits := Hex8(|token|);
    assert digits[..8] == digits && digits[8..] == [] && Codes("") == [];
    assert [] + Utf8(token) + rest == Utf8(token) + rest;
  }

  lemma {:induction false} OversizedFrame(token: string, rest: seq<Byte>)
    requires |token| >= 0x1_0000_0000
    ensures |Utf8(FrameText(token)) + rest| >= 10
    ensures Expect(Utf8(FrameText(token)) + rest, 10) != Token(token)
  {
    PrefixOnTheWire(token, rest);
    HexBelow(Hex8(|token|)[..8]);
  }

  /** Reading back a frame, whatever follows it on the connection, gives the token exactly if the token is ASCII
      and shorter than 2^32: the prefix counts characters where the reader counts bytes. */
  lemma {:induction false} FrameRoundTrip(token: string, rest: seq<Byte>)
    ensures |Utf8(FrameText(token)) + rest| >= 10
    ensures Expect(Utf8(FrameText(token)) + rest, 10) == Token(token) <==> Ascii(token) && |token| < 0x1_0000_0000
    ensures !Ascii(token) && |token| < 0x1_0000_0000 ==> Expect(Utf8(FrameText(token)) + rest, 10) == Malformed
  {
    if |token| >= 0x1_0000_0000 {
      OversizedFrame(token, rest);
    } else {
      ExpectFrame(token, rest);
      var body := Utf8(token) + rest;
      if Ascii(token) {
        Utf8OfAscii(token);
        DecodeCodes(token);
        assert body[..|token|] == Codes(token);
      } else {
        var k := FirstBeyondAscii(token);
        if |body| >= |token| { assert body[..|token|][k] == body[k] >= 128; }
      }
    }
  }

  lemma {:induction false} HexBelow(digits: string)
    requires |digits| == 8 && forall i :: 0 <= i < 8 ==> IsHexDigit(digits[i])
    ensures HexValue(digits) < 0x1_0000_0000
  {
    HexBound(digits);
    assert Pow16(0) == 1 && Pow16(1) == 16 && Pow16(2) == 256 && Pow16(3) == 4096;
    assert Pow16(4) == 65536 && Pow16(5) == 1048576;
  }

  lemma {:induction false} HexBound(digits: string)
    requires forall i :: 0 <= i < |digits| ==> IsHexDigit(digits[i])
    ensures HexValue(digits) < Pow16(|digits|)
  {
    if digits != [] { HexBound(digits[..|digits| - 1]); }
  }

  /** A whole exchange: what the client sends is what the sync pod reads, for every division of the sends and of
      the body reads, and the next frame is left untouched. */
  method Exchange(client: Socket, server: Socket, token: string, rest: seq<Byte>) returns (r: ReadOutcome)
    requires client != server && client.outgoing == []
    requires Ascii(token) && |token| < 0x1_0000_0000
    requires server.offers == [] || server.offers[0] >= 10
    modifies client, server
    ensures r == Token(token) && server.incoming == rest
  {
    SendFrame(client, token);
    server.incoming := client.outgoing + rest;
    assert client.outgoing == Utf8(FrameText(token));
    FrameRoundTrip(token, rest);
    r := ReadToken(server);
    FrameSize(token);
    assert (client.outgoing + rest)[10 + |token|..] == rest;
  }

  lemma {:induction false} FrameSize(token: string)
    requires Ascii(token) && |token| < 0x1_0000_0000
    ensures |Utf8(FrameText(token))| == 10 + |token|
  {
    Hex8RoundTrip(|token|);
    Utf8OfAscii(FrameText(token));
  }
}

/** From the bytes of a connection to a request of a round: read_token() and sync_one() together. */
module SyncRead {
  import opened Basics
  import F = Frame
  import S = SyncRound

  /** What sync_one() gets from read_token(): an empty token is no token. */
  function Received(o: F.ReadOutcome): S.ReadResult {
    match o
    case Closed => S.NoToken
    case Malformed => S.BadRead
    case Token(text) => if text == "" then S.NoToken else S.Token(text)
  }

  /** A connection on which the peer sends these bytes, of which the first read yields `first`. */
  function Connection(address: S.Address, stream: seq<Byte>, first: nat): S.Conn
    requires first <= |stream|
  {
    S.Conn(address, Received(F.Expect(stream, first)))
  }

  /** A client that knows the nonce and sends an ASCII message of less than 2^32 characters is understood: its command,
      in whatever case, and its payload arrive as its request. */
  lemma {:induction false} MessageArrives(address: S.Address, nonce: string, word: string, payload: string, token: string,
                                          body: string, rest: seq<Byte>)
    requires body == word + (" " + payload) && token == nonce + " " + body
    requires F.Ascii(token) && |token| < 0x1_0000_0000
    requires ' ' !in nonce && |word| == 4 && (payload != [] ==> !IsSpace(payload[0]))
    ensures |F.Utf8(F.FrameText(token)) + rest| >= 10
    ensures S.Parse(Connection(address, F.Utf8(F.FrameText(token)) + rest, 10), nonce) ==
            S.Req(S.Request(address, S.ReadCommand(Lower(word)), payload))
  {
    F.FrameRoundTrip(token, rest);
    S.SentIsRead(S.Conn(address, S.Token(token)), nonce, body, word, payload);
  }

  /** A peer that closes without a word changes nothing in a round; one whose prefix is cut short ends it. */
  lemma {:induction false} SilentPeer(r: S.Round, address: S.Address, stream: seq<Byte>, offers: seq<nat>, nonce: string,
                                      firstPass: bool, json: S.JsonHave)
    requires r.remaining > 0
    ensures var k := F.Moved(10, offers, |stream|); var first := if k == 0 && stream != [] then 1 else k;
            && first <= |stream|
            && (stream == [] ==> S.Step(r, Connection(address, stream, first), nonce, firstPass, json) == S.Going(r))
            && (0 < |stream| < 10 ==> S.Step(r, Connection(address, stream, first), nonce, firstPass, json) == S.Crash)
  {
    F.ClosedExactly(stream, offers);
  }
}

/**
 * The chat inference loop: upstream texts are re-cut into pieces, each piece is encrypted under the
 * next frame number, and every exit closes the response and frees its session.
 */
module Rechunk {
  import opened Collections

  /** One item of the upstream stream. */
  datatype Reply = Text(text: string) | Failure

  /** `encrypts(i)` says whether the i-th call to the provider, if it is an encryption, succeeds. */
  datatype Setup = Setup(legacy: bool, streaming: bool, chunkChars: nat, encrypts: nat -> bool)

  datatype Frame = Frame(number: nat, text: string, final: bool)

  /** What the crypto provider is asked to do for one response session. */
  datatype Call = Begin | Encrypt(frame: Frame, ok: bool) | Free

  datatype Outcome = Completed | ClosedEarly | UpstreamFailed

  function ChunkSize(setup: Setup): (n: nat)
    ensures n >= 1
  {
    if setup.chunkChars == 0 then 8 else setup.chunkChars
  }

  // ---------------------------------------------------------------- text

  /** The length of a character in UTF-8. */
  function CharBytes(c: char): (n: nat)
    ensures 1 <= n <= 4
  {
    var p := c as int;
    if p < 0x80 then 1 else if p < 0x800 then 2 else if p < 0x1_0000 then 3 else 4
  }

  /** `str::len`: the number of UTF-8 bytes. */
  function Utf8Len(s: string): (n: nat)
    ensures |s| <= n <= 4 * |s|
  {
    if s == "" then 0 else CharBytes(s[0]) + Utf8Len(s[1..])
  }

  function Concat(texts: seq<string>): string {
    if texts == [] then "" else Concat(texts[..|texts| - 1]) + texts[|texts| - 1]
  }

  lemma {:induction false} ConcatAppend(a: seq<string>, b: seq<string>)
    ensures Concat(a + b) == Concat(a) + Concat(b)
  {
    if b == [] {
      assert a + b == a;
    } else {
      var b' := b[..|b| - 1];
      assert (a + b)[..|a + b| - 1] == a + b';
      ConcatAppend(a, b');
    }
  }

  lemma ConcatOne(text: string)
    ensures Concat([text]) == text
  {
    assert [text][..0] == [];
    assert Concat([]) == "";
  }

  // ---------------------------------------------------------------- cutting

  function Front(s: string, n: nat): string {
    s[..Min(n, |s|)]
  }

  function Back(s: string, n: nat): string {
    s[Min(n, |s|)..]
  }

  /** Pieces of `n` characters are cut off while at least `n` bytes are pending. */
  function Pieces(pending: string, n: nat): seq<string>
    requires n >= 1
    decreases |pending|
  {
    if Utf8Len(pending) < n then [] else [Front(pending, n)] + Pieces(Back(pending, n), n)
  }

  function Leftover(pending: string, n: nat): string
    requires n >= 1
    decreases |pending|
  {
    if Utf8Len(pending) < n then pending else Leftover(Back(pending, n), n)
  }

  /** Pieces ready for encryption and text kept back, after the given texts. */
  datatype Fed = Fed(pieces: seq<string>, rest: string)

  function FeedOne(setup: Setup, fed: Fed, text: string): Fed {
    var n := ChunkSize(setup);
    if setup.legacy then Fed(fed.pieces + Pieces(fed.rest + text, n), Leftover(fed.rest + text, n))
    else Fed(fed.pieces + [text], fed.rest)
  }

  function Feed(setup: Setup, texts: seq<string>): Fed {
    if texts == [] then Fed([], "")
    else FeedOne(setup, Feed(setup, texts[..|texts| - 1]), texts[|texts| - 1])
  }

  /** The texts that arrive before the first failure. */
  function Received(replies: seq<Reply>): seq<string> {
    if replies == [] || replies[0].Failure? then [] else [replies[0].text] + Received(replies[1..])
  }

  predicate Fails(replies: seq<Reply>) {
    exists i :: 0 <= i < |replies| && replies[i].Failure?
  }

  // ---------------------------------------------------------------- the provider's view

  /** The frames whose encryption succeeded, in order: what the client gets. */
  function Sent(calls: seq<Call>): seq<Frame> {
    if calls == [] then []
    else
      var front, last := Sent(calls[..|calls| - 1]), calls[|calls| - 1];
      if last.Encrypt? && last.ok then front + [last.frame] else front
  }

  function EncryptNext(setup: Setup, calls: seq<Call>, text: string, final: bool): seq<Call> {
    calls + [Encrypt(Frame(|Sent(calls)|, text, final), setup.encrypts(|calls|))]
  }

  function EncryptAll(setup: Setup, calls: seq<Call>, pieces: seq<string>): seq<Call> {
    if pieces == [] then calls
    else EncryptNext(setup, EncryptAll(setup, calls, pieces[..|pieces| - 1]), pieces[|pieces| - 1], false)
  }

  function Body(setup: Setup, replies: seq<Reply>): seq<Call> {
    EncryptAll(setup, [Begin], Feed(setup, Received(replies)).pieces)
  }

  /** Whether a last frame is attempted. */
  predicate Closes(setup: Setup, replies: seq<Reply>) {
    var sent := Sent(Body(setup, replies)) != [];
    if Fails(replies) then setup.streaming && sent
    else Feed(setup, Received(replies)).rest != "" || sent
  }

  function Calls(setup: Setup, replies: seq<Reply>): seq<Call> {
    var body := Body(setup, replies);
    (if Closes(setup, replies) then EncryptNext(setup, body, Feed(setup, Received(replies)).rest, true) else body)
    + [Free]
  }

  function OutcomeOf(setup: Setup, replies: seq<Reply>): Outcome {
    if !Fails(replies) then Completed
    else if Closes(setup, replies) then ClosedEarly
    else UpstreamFailed
  }

  // ---------------------------------------------------------------- the code

  lemma SentSnoc(calls: seq<Call>, call: Call)
    ensures Sent(calls + [call]) == if call.Encrypt? && call.ok then Sent(calls) + [call.frame] else Sent(calls)
  {
    assert (calls + [call])[..|calls|] == calls;
  }

  /** One encryption; the frame goes out and the number advances only when it succeeds. */
  method EncryptPiece(setup: Setup, calls: seq<Call>, number: nat, frames: seq<Frame>, piece: string, final: bool)
    returns (calls': seq<Call>, number': nat, frames': seq<Frame>)
    requires frames == Sent(calls) && number == |frames|
    ensures calls' == EncryptNext(setup, calls, piece, final)
    ensures frames' == Sent(calls') && number' == |frames'|
  {
    var ok := setup.encrypts(|calls|);
    var frame := Frame(number, piece, final);
    SentSnoc(calls, Encrypt(frame, ok));
    calls', number', frames' := calls + [Encrypt(frame, ok)], number, frames;
    if ok {
      frames' := frames + [frame];
      number' := number + 1;
    }
  }

  lemma EncryptAllSnoc(setup: Setup, calls: seq<Call>, pieces: seq<string>, piece: string)
    ensures EncryptAll(setup, calls, pieces + [piece])
            == EncryptNext(setup, EncryptAll(setup, calls, pieces), piece, false)
  {
    assert (pieces + [piece])[..|pieces|] == pieces;
  }

  /** The inner loop: cut and encrypt while enough bytes are pending. */
  method CutPending(setup: Setup, calls: seq<Call>, number: nat, frames: seq<Frame>, pending: string,
                    ghost done: seq<string>)
    returns (calls': seq<Call>, number': nat, frames': seq<Frame>, pending': string)
    requires frames == Sent(calls) && number == |frames| && calls == EncryptAll(setup, [Begin], done)
    ensures calls' == EncryptAll(setup, [Begin], done + Pieces(pending, ChunkSize(setup)))
    ensures frames' == Sent(calls') && number' == |frames'|
    ensures pending' == Leftover(pending, ChunkSize(setup))
  {
    var n := ChunkSize(setup);
    calls', number', frames', pending' := calls, number, frames, pending;
    ghost var cut: seq<string> := [];
    assert done + [] == done;
    while Utf8Len(pending') >= n
      invariant frames' == Sent(calls') && number' == |frames'|
      invariant calls' == EncryptAll(setup, [Begin], done + cut)
      invariant cut + Pieces(pending', n) == Pieces(pending, n) && Leftover(pending', n) == Leftover(pending, n)
      decreases |pending'|
    {
      var piece := Front(pending', n);
      CutStep(pending', n, cut, Pieces(pending, n));
      pending' := Back(pending', n);
      EncryptAllSnoc(setup, [Begin], done + cut, piece);
      assert done + cut + [piece] == done + (cut + [piece]);
      calls', number', frames' := EncryptPiece(setup, calls', number', frames', piece, false);
      cut := cut + [piece];
    }
    assert cut + [] == cut;
  }

  lemma CutStep(pending: string, n: nat, cut: seq<string>, all: seq<string>)
    requires 1 <= n <= Utf8Len(pending) && cut + Pieces(pending, n) == all
    ensures (cut + [Front(pending, n)]) + Pieces(Back(pending, n), n) == all
    ensures Leftover(Back(pending, n), n) == Leftover(pending, n) && |Back(pending, n)| < |pending|
  {
    assert (cut + [Front(pending, n)]) + Pieces(Back(pending, n), n)
        == cut + ([Front(pending, n)] + Pieces(Back(pending, n), n));
  }

  lemma {:induction false} ReceivedPrefix(replies: seq<Reply>, k: nat)
    requires k <= |replies| && forall i :: 0 <= i < k ==> replies[i].Text?
    ensures Received(replies[..k]) + Received(replies[k..]) == Received(replies)
    ensures |Received(replies[..k])| == k
  {
    if k == 0 {
      assert replies[..0] == [] && replies[0..] == replies;
    } else {
      ReceivedPrefix(replies[1..], k - 1);
      assert replies[..k][1..] == replies[1..][..k - 1];
      assert replies[1..][k - 1..] == replies[k..];
    }
  }

  lemma ReceivedSnoc(replies: seq<Reply>, k: nat)
    requires k < |replies| && forall i :: 0 <= i <= k ==> replies[i].Text?
    ensures Received(replies[..k + 1]) == Received(replies[..k]) + [replies[k].text]
  {
    var upTo := replies[..k + 1];
    ReceivedPrefix(upTo, k);
    assert upTo[..k] == replies[..k] && upTo[k..] == [replies[k]];
    assert [replies[k]][1..] == [];
  }

  lemma FeedSnoc(setup: Setup, texts: seq<string>, text: string)
    ensures Feed(setup, texts + [text]) == FeedOne(setup, Feed(setup, texts), text)
  {
    assert (texts + [text])[..|texts|] == texts;
  }

  lemma ReceivedStops(replies: seq<Reply>, k: nat)
    requires k <= |replies| && forall i :: 0 <= i < k ==> replies[i].Text?
    requires k == |replies| || replies[k].Failure?
    ensures Received(replies[..k]) == Received(replies) && (Fails(replies) <==> k < |replies|)
  {
    ReceivedPrefix(replies, k);
    assert k < |replies| ==> replies[k..][0].Failure?;
  }

  /** One text: cut in legacy mode, sent as one frame otherwise. */
  method AcceptText(setup: Setup, calls: seq<Call>, number: nat, frames: seq<Frame>, pending: string, text: string,
                    ghost fed: Fed)
    returns (calls': seq<Call>, number': nat, frames': seq<Frame>, pending': string)
    requires frames == Sent(calls) && number == |frames|
    requires calls == EncryptAll(setup, [Begin], fed.pieces) && pending == fed.rest
    ensures calls' == EncryptAll(setup, [Begin], FeedOne(setup, fed, text).pieces)
    ensures frames' == Sent(calls') && number' == |frames'| && pending' == FeedOne(setup, fed, text).rest
  {
    if setup.legacy {
      calls', number', frames', pending' := CutPending(setup, calls, number, frames, pending + text, fed.pieces);
    } else {
      EncryptAllSnoc(setup, [Begin], fed.pieces, text);
      calls', number', frames' := EncryptPiece(setup, calls, number, frames, text, false);
      pending' := pending;
    }
  }

  /** The response loop and its exits, from the opened upstream stream on. */
  method RunChatInference(setup: Setup, replies: seq<Reply>)
    returns (calls: seq<Call>, frames: seq<Frame>, outcome: Outcome)
    ensures calls == Calls(setup, replies) && frames == Sent(calls) && outcome == OutcomeOf(setup, replies)
  {
    var number, pending := 0, "";
    calls, frames := [Begin], [];
    SentSnoc([], Begin);
    assert [] + [Begin] == [Begin];
    var k := 0;
    while k < |replies| && replies[k].Text?
      invariant 0 <= k <= |replies| && forall i :: 0 <= i < k ==> replies[i].Text?
      invariant frames == Sent(calls) && number == |frames|
      invariant calls == EncryptAll(setup, [Begin], Feed(setup, Received(replies[..k])).pieces)
      invariant pending == Feed(setup, Received(replies[..k])).rest
    {
      ghost var before := Received(replies[..k]);
      ReceivedSnoc(replies, k);
      FeedSnoc(setup, before, replies[k].text);
      calls, number, frames, pending :=
        AcceptText(setup, calls, number, frames, pending, replies[k].text, Feed(setup, before));
      k := k + 1;
    }
    ReceivedStops(replies, k);
    assert frames == Sent(Body(setup, replies));
    calls, frames, outcome := CloseResponse(setup, calls, number, frames, pending, k < |replies|);
  }

  /** The exits: a last frame where one is due, and the session is freed. */
  method CloseResponse(setup: Setup, calls: seq<Call>, number: nat, frames: seq<Frame>, pending: string, failed: bool)
    returns (calls': seq<Call>, frames': seq<Frame>, outcome: Outcome)
    requires frames == Sent(calls) && number == |frames|
    ensures
      var closes := if failed then setup.streaming && frames != [] else pending != "" || frames != [];
      && calls' == (if closes then EncryptNext(setup, calls, pending, true) else calls) + [Free]
      && outcome == if !failed then Completed else if closes then ClosedEarly else UpstreamFailed
    ensures frames' == Sent(calls')
  {
    calls', frames' := calls, frames;
    var number' := number;
    if failed {
      outcome := UpstreamFailed;
      if setup.streaming && number > 0 {
        outcome := ClosedEarly;
        calls', number', frames' := EncryptPiece(setup, calls, number, frames, pending, true);
      }
    } else {
      outcome := Completed;
      if pending != "" {
        calls', number', frames' := EncryptPiece(setup, calls, number, frames, pending, true);
      } else if number > 0 {
        calls', number', frames' := EncryptPiece(setup, calls, number, frames, "", true);
      }
    }
    SentSnoc(calls', Free);
    calls' := calls' + [Free];
  }
}

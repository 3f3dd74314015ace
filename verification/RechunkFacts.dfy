/** What the client receives from the chat inference loop, and what the provider is left with. */
module RechunkFacts {
  import opened Collections
  import opened Rechunk

  function Texts(frames: seq<Frame>): (texts: seq<string>)
    ensures |texts| == |frames| && forall i :: 0 <= i < |frames| ==> texts[i] == frames[i].text
  {
    seq(|frames|, i requires 0 <= i < |frames| => frames[i].text)
  }

  // ---------------------------------------------------------------- numbers and the session, whatever fails

  ghost predicate Numbered(frames: seq<Frame>) {
    forall i :: 0 <= i < |frames| ==> frames[i].number == i
  }

  ghost predicate NoneFinal(frames: seq<Frame>) {
    forall i :: 0 <= i < |frames| ==> !frames[i].final
  }

  ghost predicate LastFinal(frames: seq<Frame>) {
    frames != [] && frames[|frames| - 1].final && NoneFinal(frames[..|frames| - 1])
  }

  /** A session that is opened, used only for encryption, and then freed, once. */
  ghost predicate OpenSession(calls: seq<Call>) {
    calls != [] && calls[0] == Begin && forall i :: 1 <= i < |calls| ==> calls[i].Encrypt?
  }

  ghost predicate ClosedSession(calls: seq<Call>) {
    calls != [] && calls[|calls| - 1] == Free && OpenSession(calls[..|calls| - 1])
  }

  lemma EncryptNextKeeps(setup: Setup, calls: seq<Call>, text: string, final: bool)
    requires OpenSession(calls) && Numbered(Sent(calls)) && NoneFinal(Sent(calls))
    ensures
      var calls' := EncryptNext(setup, calls, text, final);
      && OpenSession(calls') && Numbered(Sent(calls'))
      && (NoneFinal(Sent(calls')) || (final && LastFinal(Sent(calls'))))
      && (!final ==> NoneFinal(Sent(calls')))
      && (final && setup.encrypts(|calls|) ==> LastFinal(Sent(calls')))
  {
    var call := Encrypt(Frame(|Sent(calls)|, text, final), setup.encrypts(|calls|));
    SentSnoc(calls, call);
    OneMoreFrame(Sent(calls), call.frame);
    assert OpenSession(calls + [call]);
  }

  lemma OneMoreFrame(frames: seq<Frame>, frame: Frame)
    requires Numbered(frames) && NoneFinal(frames) && frame.number == |frames|
    ensures Numbered(frames + [frame])
    ensures if frame.final then LastFinal(frames + [frame]) else NoneFinal(frames + [frame])
  {
    assert (frames + [frame])[..|frames|] == frames;
  }

  lemma {:induction false} EncryptAllKeeps(setup: Setup, calls: seq<Call>, pieces: seq<string>)
    requires OpenSession(calls) && Numbered(Sent(calls)) && NoneFinal(Sent(calls))
    ensures
      var calls' := EncryptAll(setup, calls, pieces);
      OpenSession(calls') && Numbered(Sent(calls')) && NoneFinal(Sent(calls'))
  {
    if pieces != [] {
      var front := pieces[..|pieces| - 1];
      EncryptAllKeeps(setup, calls, front);
      EncryptNextKeeps(setup, EncryptAll(setup, calls, front), pieces[|pieces| - 1], false);
    }
  }

  lemma BodyKeeps(setup: Setup, replies: seq<Reply>)
    ensures
      var body := Body(setup, replies);
      OpenSession(body) && Numbered(Sent(body)) && NoneFinal(Sent(body))
  {
    SentSnoc([], Begin);
    assert [] + [Begin] == [Begin];
    EncryptAllKeeps(setup, [Begin], Feed(setup, Received(replies)).pieces);
  }

  /**
   * Whichever encryptions fail: the successful ones carry the numbers 0, 1, 2, ... without gap or
   * repetition, a final frame can only be the last, and the session is opened once, used only
   * in between, and freed exactly once, as the last thing.
   */
  lemma EveryExitIsOrderly(setup: Setup, replies: seq<Reply>)
    ensures
      var calls := Calls(setup, replies);
      && ClosedSession(calls) && Numbered(Sent(calls))
      && (NoneFinal(Sent(calls)) || LastFinal(Sent(calls)))
  {
    var body := Body(setup, replies);
    var closed := Calls(setup, replies)[..|Calls(setup, replies)| - 1];
    BodyKeeps(setup, replies);
    if Closes(setup, replies) {
      EncryptNextKeeps(setup, body, Feed(setup, Received(replies)).rest, true);
    }
    assert Calls(setup, replies) == closed + [Free];
    SentSnoc(closed, Free);
  }

  /** From opening the response session on: nothing to free if it cannot be opened, and freed at once if
      the upstream request fails. */
  method ServeChat(begins: bool, opens: bool, setup: Setup, replies: seq<Reply>)
    returns (calls: seq<Call>, frames: seq<Frame>, outcome: Option<Outcome>)
    ensures !begins <==> calls == []
    ensures begins ==> ClosedSession(calls)
    ensures frames == Sent(calls) && Numbered(frames)
    ensures outcome.None? <==> !begins
    ensures begins && !opens ==> frames == [] && outcome == Some(UpstreamFailed)
    ensures begins && opens ==> calls == Calls(setup, replies) && outcome == Some(OutcomeOf(setup, replies))
  {
    if !begins {
      return [], [], None;
    }
    if !opens {
      calls := [Begin, Free];
      SentSnoc([], Begin);
      SentSnoc([Begin], Free);
      assert [] + [Begin] == [Begin] && [Begin] + [Free] == [Begin, Free];
      return calls, [], Some(UpstreamFailed);
    }
    EveryExitIsOrderly(setup, replies);
    var how;
    calls, frames, how := RunChatInference(setup, replies);
    outcome := Some(how);
  }

  // ---------------------------------------------------------------- the text, when encryption works

  ghost predicate AlwaysEncrypts(setup: Setup) {
    forall i: nat :: setup.encrypts(i)
  }

  lemma {:induction false} EncryptAllSends(setup: Setup, calls: seq<Call>, pieces: seq<string>)
    requires AlwaysEncrypts(setup) && Sent(calls) == []
    ensures Texts(Sent(EncryptAll(setup, calls, pieces))) == pieces
  {
    if pieces != [] {
      var front, last := pieces[..|pieces| - 1], pieces[|pieces| - 1];
      EncryptAllSends(setup, calls, front);
      var before := EncryptAll(setup, calls, front);
      SentSnoc(before, Encrypt(Frame(|Sent(before)|, last, false), setup.encrypts(|before|)));
      assert pieces == front + [last];
    }
  }

  lemma BodySends(setup: Setup, replies: seq<Reply>)
    requires AlwaysEncrypts(setup)
    ensures Texts(Sent(Body(setup, replies))) == Feed(setup, Received(replies)).pieces
  {
    SentSnoc([], Begin);
    assert [] + [Begin] == [Begin];
    EncryptAllSends(setup, [Begin], Feed(setup, Received(replies)).pieces);
  }

  lemma CallsSend(setup: Setup, replies: seq<Reply>)
    requires AlwaysEncrypts(setup)
    ensures
      var body, rest := Sent(Body(setup, replies)), Feed(setup, Received(replies)).rest;
      Sent(Calls(setup, replies)) == if Closes(setup, replies) then body + [Frame(|body|, rest, true)] else body
  {
    var body, rest := Body(setup, replies), Feed(setup, Received(replies)).rest;
    if Closes(setup, replies) {
      SentSnoc(body, Encrypt(Frame(|Sent(body)|, rest, true), setup.encrypts(|body|)));
      SentSnoc(EncryptNext(setup, body, rest, true), Free);
    } else {
      SentSnoc(body, Free);
    }
  }

  /** The frames of a run in which every encryption succeeds. */
  lemma SentWhenAllSucceed(setup: Setup, replies: seq<Reply>)
    requires AlwaysEncrypts(setup)
    ensures
      var fed := Feed(setup, Received(replies));
      && Texts(Sent(Body(setup, replies))) == fed.pieces
      && Texts(Sent(Calls(setup, replies))) == fed.pieces + if Closes(setup, replies) then [fed.rest] else []
  {
    BodySends(setup, replies);
    CallsSend(setup, replies);
  }

  /** Cutting one more piece off the front. */
  lemma CutOneKeepsText(piece: string, pieces: seq<string>, rest: string)
    ensures Concat([piece] + pieces) + rest == piece + (Concat(pieces) + rest)
  {
    ConcatAppend([piece], pieces);
    ConcatOne(piece);
    Regroup(piece, Concat(pieces), rest);
  }

  lemma {:induction false} PiecesKeepText(pending: string, n: nat)
    requires n >= 1
    ensures Concat(Pieces(pending, n)) + Leftover(pending, n) == pending
    decreases |pending|
  {
    if Utf8Len(pending) >= n {
      var piece, rest := Front(pending, n), Back(pending, n);
      PiecesKeepText(rest, n);
      CutOneKeepsText(piece, Pieces(rest, n), Leftover(rest, n));
      assert piece + rest == pending;
    }
  }

  lemma {:induction false} FeedVerbatim(setup: Setup, texts: seq<string>)
    requires !setup.legacy
    ensures Feed(setup, texts) == Fed(texts, "")
  {
    if texts != [] {
      FeedVerbatim(setup, texts[..|texts| - 1]);
      assert texts == texts[..|texts| - 1] + [texts[|texts| - 1]];
    }
  }

  lemma {:induction false} FeedKeepsText(setup: Setup, texts: seq<string>)
    ensures Concat(Feed(setup, texts).pieces) + Feed(setup, texts).rest == Concat(texts)
  {
    if texts != [] {
      var front := texts[..|texts| - 1];
      FeedKeepsText(setup, front);
      if !setup.legacy {
        FeedVerbatim(setup, front);
      }
      FeedOneKeepsText(setup, Feed(setup, front), texts[|texts| - 1]);
    }
  }

  lemma FeedOneKeepsText(setup: Setup, fed: Fed, text: string)
    requires !setup.legacy ==> fed.rest == ""
    ensures
      var fed' := FeedOne(setup, fed, text);
      Concat(fed'.pieces) + fed'.rest == Concat(fed.pieces) + fed.rest + text
  {
    if setup.legacy {
      CutKeepsText(fed.pieces, fed.rest, text, ChunkSize(setup));
    } else {
      ConcatAppend(fed.pieces, [text]);
      ConcatOne(text);
    }
  }

  lemma CutKeepsText(pieces: seq<string>, rest: string, text: string, n: nat)
    requires n >= 1
    ensures Concat(pieces + Pieces(rest + text, n)) + Leftover(rest + text, n) == Concat(pieces) + rest + text
  {
    var a, p, l := Concat(pieces), Concat(Pieces(rest + text, n)), Leftover(rest + text, n);
    ConcatAppend(pieces, Pieces(rest + text, n));
    assert p + l == rest + text by {
      PiecesKeepText(rest + text, n);
    }
    Regroup(a, p, l);
    Regroup(a, rest, text);
  }

  /** The text of the frames: everything received when the response closes, else all but the pending rest. */
  lemma FrameText(setup: Setup, replies: seq<Reply>)
    requires AlwaysEncrypts(setup)
    ensures
      var fed, frames := Feed(setup, Received(replies)), Sent(Calls(setup, replies));
      && Concat(fed.pieces) + fed.rest == Concat(Received(replies))
      && Concat(Texts(frames)) == Concat(fed.pieces) + (if Closes(setup, replies) then fed.rest else "")
      && (frames == [] <==> fed.pieces == [] && !Closes(setup, replies))
  {
    var fed := Feed(setup, Received(replies));
    FeedKeepsText(setup, Received(replies));
    SentWhenAllSucceed(setup, replies);
    if Closes(setup, replies) {
      ConcatAppend(fed.pieces, [fed.rest]);
      ConcatOne(fed.rest);
    } else {
      assert fed.pieces + [] == fed.pieces && Concat(fed.pieces) + "" == Concat(fed.pieces);
    }
  }

  /** A response given up has no final frame, and on a live stream no frame. */
  lemma GivenUp(setup: Setup, replies: seq<Reply>)
    requires AlwaysEncrypts(setup) && OutcomeOf(setup, replies) == UpstreamFailed
    ensures
      var frames := Sent(Calls(setup, replies));
      NoneFinal(frames) && Concat(Texts(frames)) <= Concat(Received(replies)) && (setup.streaming ==> frames == [])
  {
    FrameText(setup, replies);
    FinalWhenClosing(setup, replies);
  }

  /** A response closed after a mid-stream error carries all text received before it. */
  lemma ClosedAfterError(setup: Setup, replies: seq<Reply>)
    requires AlwaysEncrypts(setup) && OutcomeOf(setup, replies) == ClosedEarly
    ensures
      var frames := Sent(Calls(setup, replies));
      Concat(Texts(frames)) == Concat(Received(replies)) && LastFinal(frames)
  {
    FrameText(setup, replies);
    FinalWhenClosing(setup, replies);
  }

  /** Without an error there is no frame exactly when nothing was received to send. */
  lemma NothingToSend(setup: Setup, replies: seq<Reply>)
    requires AlwaysEncrypts(setup) && !Fails(replies)
    ensures
      var frames, texts := Sent(Calls(setup, replies)), Received(replies);
      if setup.legacy then (frames == [] <==> Concat(texts) == "") else (frames == [] <==> texts == [])
  {
    var fed := Feed(setup, Received(replies));
    FrameText(setup, replies);
    SentWhenAllSucceed(setup, replies);
    assert Sent(Body(setup, replies)) == [] <==> fed.pieces == [];
    if setup.legacy {
      FeedSizes(setup, Received(replies));
      NonEmptyConcat(fed.pieces);
    } else {
      FeedVerbatim(setup, Received(replies));
    }
  }

  lemma CompletedText(setup: Setup, replies: seq<Reply>)
    requires AlwaysEncrypts(setup) && !Fails(replies)
    ensures
      var frames := Sent(Calls(setup, replies));
      Concat(Texts(frames)) == Concat(Received(replies)) && (frames != [] ==> LastFinal(frames))
  {
    FrameText(setup, replies);
    FinalWhenClosing(setup, replies);
    if !Closes(setup, replies) {
      SentWhenAllSucceed(setup, replies);
    }
  }

  /**
   * With every encryption succeeding: a response that completes, or is closed early after a
   * mid-stream error, carries all received text, and exactly its last frame is final. It has no
   * frame at all exactly when it completed without a non-empty piece to send. A response given up
   * has no final frame, and on a live stream no frame.
   */
  lemma FramesCarryAllText(setup: Setup, replies: seq<Reply>)
    requires AlwaysEncrypts(setup)
    ensures
      var frames, texts := Sent(Calls(setup, replies)), Received(replies);
      match OutcomeOf(setup, replies)
      case UpstreamFailed =>
        NoneFinal(frames) && Concat(Texts(frames)) <= Concat(texts) && (setup.streaming ==> frames == [])
      case ClosedEarly => Concat(Texts(frames)) == Concat(texts) && LastFinal(frames)
      case Completed =>
        && Concat(Texts(frames)) == Concat(texts)
        && (if setup.legacy then (frames == [] <==> Concat(texts) == "") else (frames == [] <==> texts == []))
        && (frames != [] ==> LastFinal(frames))
  {
    match OutcomeOf(setup, replies)
    case UpstreamFailed => GivenUp(setup, replies);
    case ClosedEarly => ClosedAfterError(setup, replies);
    case Completed =>
      CompletedText(setup, replies);
      NothingToSend(setup, replies);
  }

  lemma NonEmptyConcat(pieces: seq<string>)
    requires forall i :: 0 <= i < |pieces| ==> pieces[i] != ""
    ensures Concat(pieces) == "" <==> pieces == []
  {
  }

  lemma FinalWhenClosing(setup: Setup, replies: seq<Reply>)
    requires AlwaysEncrypts(setup)
    ensures if Closes(setup, replies) then LastFinal(Sent(Calls(setup, replies)))
            else Sent(Calls(setup, replies)) == Sent(Body(setup, replies)) && NoneFinal(Sent(Calls(setup, replies)))
  {
    var body, rest := Body(setup, replies), Feed(setup, Received(replies)).rest;
    BodyKeeps(setup, replies);
    if Closes(setup, replies) {
      EncryptNextKeeps(setup, body, rest, true);
      SentSnoc(EncryptNext(setup, body, rest, true), Free);
    } else {
      SentSnoc(body, Free);
    }
  }

  // ---------------------------------------------------------------- sizes

  predicate Sized(pieces: seq<string>, n: nat) {
    forall i :: 0 <= i < |pieces| ==> 1 <= |pieces[i]| <= n
  }

  lemma {:induction false} PiecesSizes(pending: string, n: nat)
    requires n >= 1
    ensures Sized(Pieces(pending, n), n) && |Leftover(pending, n)| < n
    decreases |pending|
  {
    if Utf8Len(pending) >= n {
      PiecesSizes(Back(pending, n), n);
    }
  }

  lemma {:induction false} FeedSizes(setup: Setup, texts: seq<string>)
    requires setup.legacy
    ensures Sized(Feed(setup, texts).pieces, ChunkSize(setup)) && |Feed(setup, texts).rest| < ChunkSize(setup)
  {
    if texts != [] {
      var fed := Feed(setup, texts[..|texts| - 1]);
      FeedSizes(setup, texts[..|texts| - 1]);
      PiecesSizes(fed.rest + texts[|texts| - 1], ChunkSize(setup));
    }
  }

  /** Whichever encryptions fail, what is sent was among the texts offered for encryption. */
  lemma {:induction false} SentWasOffered(setup: Setup, calls: seq<Call>, pieces: seq<string>, n: nat)
    requires forall f :: f in Sent(calls) ==> |f.text| <= n
    requires forall i :: 0 <= i < |pieces| ==> |pieces[i]| <= n
    ensures forall f :: f in Sent(EncryptAll(setup, calls, pieces)) ==> |f.text| <= n
  {
    if pieces != [] {
      var front, last := pieces[..|pieces| - 1], pieces[|pieces| - 1];
      SentWasOffered(setup, calls, front, n);
      var before := EncryptAll(setup, calls, front);
      SentSnoc(before, Encrypt(Frame(|Sent(before)|, last, false), setup.encrypts(|before|)));
    }
  }

  /** Legacy frames hold at most `chunk_chars` characters (8 if it is 0), although the loop guard counts bytes. */
  lemma LegacyFramesAreSmall(setup: Setup, replies: seq<Reply>)
    requires setup.legacy
    ensures forall f :: f in Sent(Calls(setup, replies)) ==>
              |f.text| <= if setup.chunkChars >= 1 then setup.chunkChars else 8
  {
    var fed, body := Feed(setup, Received(replies)), Body(setup, replies);
    FeedSizes(setup, Received(replies));
    SentSnoc([], Begin);
    assert [] + [Begin] == [Begin];
    SentWasOffered(setup, [Begin], fed.pieces, ChunkSize(setup));
    if Closes(setup, replies) {
      SentSnoc(body, Encrypt(Frame(|Sent(body)|, fed.rest, true), setup.encrypts(|body|)));
      SentSnoc(EncryptNext(setup, body, fed.rest, true), Free);
    } else {
      SentSnoc(body, Free);
    }
  }

  /** How many code points fit into `n` bytes of UTF-8: 7, 11, 16 or 21 payload bits. */
  function Capacity(n: nat): int {
    if n == 0 then 0 else if n == 1 then 0x80 else if n == 2 then 0x800 else if n == 3 then 0x1_0000 else 0x20_0000
  }

  /** A character takes the least number of bytes that holds its code point. */
  lemma CharBytesIsLeast(c: char)
    ensures Capacity(CharBytes(c) - 1) <= c as int < Capacity(CharBytes(c))
  {
  }

  /** A piece of exactly `n` characters, or of at least `n` bytes when everything pending was cut. */
  predicate Full(piece: string, n: nat) {
    |piece| == n || (|piece| < n && Utf8Len(piece) >= n)
  }

  lemma {:induction false} PiecesAreFull(pending: string, n: nat)
    requires n >= 1
    ensures forall i :: 0 <= i < |Pieces(pending, n)| ==> Full(Pieces(pending, n)[i], n)
    ensures Utf8Len(Leftover(pending, n)) < n
    decreases |pending|
  {
    if Utf8Len(pending) >= n {
      PiecesAreFull(Back(pending, n), n);
      if |pending| < n {
        assert Front(pending, n) == pending;
      }
      assert Full(Front(pending, n), n);
    }
  }

  /**
   * Legacy text is sent as soon as there is a chunk of it: every piece but the last holds exactly
   * `chunk_chars` characters or at least that many bytes, and less than that many bytes are held back.
   */
  lemma {:induction false} LegacyPiecesAreFull(setup: Setup, texts: seq<string>)
    requires setup.legacy
    ensures
      var n, fed := if setup.chunkChars >= 1 then setup.chunkChars else 8, Feed(setup, texts);
      (forall i :: 0 <= i < |fed.pieces| ==> Full(fed.pieces[i], n)) && Utf8Len(fed.rest) < n
  {
    if texts != [] {
      var fed := Feed(setup, texts[..|texts| - 1]);
      LegacyPiecesAreFull(setup, texts[..|texts| - 1]);
      PiecesAreFull(fed.rest + texts[|texts| - 1], ChunkSize(setup));
    }
  }

  /**
   * A response completes exactly when the upstream never failed; after a failure it is closed with
   * a last frame exactly on a live stream that has sent a frame, and given up otherwise.
   */
  lemma OutcomeMeaning(setup: Setup, replies: seq<Reply>)
    ensures
      var outcome, frames := OutcomeOf(setup, replies), Sent(Calls(setup, replies));
      && (outcome == Completed <==> forall i :: 0 <= i < |replies| ==> replies[i].Text?)
      && (outcome == ClosedEarly ==> setup.streaming)
      && (outcome == UpstreamFailed && setup.streaming ==> frames == [])
      && (outcome == ClosedEarly ==> frames != [])
  {
    var body, rest := Body(setup, replies), Feed(setup, Received(replies)).rest;
    if Closes(setup, replies) {
      SentSnoc(body, Encrypt(Frame(|Sent(body)|, rest, true), setup.encrypts(|body|)));
      SentSnoc(EncryptNext(setup, body, rest, true), Free);
    } else {
      SentSnoc(body, Free);
    }
  }
}

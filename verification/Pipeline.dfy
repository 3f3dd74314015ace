/** The reader and the inference loop together: what a client decrypts, for every chunking upstream. */
module Pipeline {
  import opened Collections
  import opened SseReader
  import opened SseFacts
  import opened SseLines
  import R = Rechunk
  import RF = RechunkFacts

  /** What an item says on the wire. */
  function TextOf(item: Item): string {
    match item
    case Said(delta) => delta.text
    case Separator => StreamThinkingSeparator
    case Frame(wire) => wire
    case BadLine => ""
    case Broken => ""
  }

  predicate IsError(item: Item) {
    item.BadLine? || item.Broken?
  }

  function Replies(items: seq<Item>): (rs: seq<R.Reply>)
    ensures |rs| == |items|
    ensures forall i :: 0 <= i < |items| ==> rs[i] == if IsError(items[i]) then R.Failure else R.Text(TextOf(items[i]))
  {
    seq(|items|, i requires 0 <= i < |items| => if IsError(items[i]) then R.Failure else R.Text(TextOf(items[i])))
  }

  predicate Clean(items: seq<Item>) {
    forall i :: 0 <= i < |items| ==> !IsError(items[i])
  }

  function TextsOf(items: seq<Item>): (texts: seq<string>)
    ensures |texts| == |items| && forall i :: 0 <= i < |items| ==> texts[i] == TextOf(items[i])
  {
    seq(|items|, i requires 0 <= i < |items| => TextOf(items[i]))
  }

  /** The texts of the items, one after the other. */
  function Words(items: seq<Item>): string {
    R.Concat(TextsOf(items))
  }

  lemma WordsConcat(a: seq<Item>, b: seq<Item>)
    ensures Words(a + b) == Words(a) + Words(b)
  {
    R.ConcatAppend(TextsOf(a), TextsOf(b));
    assert TextsOf(a + b) == TextsOf(a) + TextsOf(b);
  }

  lemma {:induction false} CleanIsReceived(items: seq<Item>)
    requires Clean(items)
    ensures R.Received(Replies(items)) == TextsOf(items) && !R.Fails(Replies(items))
  {
    if items != [] {
      var rest := items[1..];
      CleanIsReceived(rest);
      assert Replies(items)[1..] == Replies(rest);
      assert TextsOf(items) == [TextOf(items[0])] + TextsOf(rest);
    }
  }

  /** How many items come before the first error. */
  function BeforeError(items: seq<Item>): (k: nat)
    ensures k <= |items| && (k < |items| ==> IsError(items[k]))
    ensures forall i :: 0 <= i < k ==> !IsError(items[i])
  {
    if items == [] || IsError(items[0]) then 0 else 1 + BeforeError(items[1..])
  }

  /** The inference loop reads up to the first error item. */
  lemma ReceivedBeforeError(items: seq<Item>)
    ensures R.Received(Replies(items)) == TextsOf(items[..BeforeError(items)])
  {
    var k, replies := BeforeError(items), Replies(items);
    CleanIsReceived(items[..k]);
    assert replies[..k] == Replies(items[..k]);
    R.ReceivedStops(replies, k);
  }

  /** What the client decrypts when the inference loop is fed these items. */
  function ClientText(setup: R.Setup, items: seq<Item>): string {
    R.Concat(RF.Texts(R.Sent(R.Calls(setup, Replies(items)))))
  }

  /**
   * Whatever the network does to the chunking: if encryption works and the response is not given
   * up, the client decrypts exactly the words the reader yields before the first error.
   */
  lemma ClientGetsTheWords(cfg: Config, setup: R.Setup, chunks: seq<Chunk>)
    requires RF.AlwaysEncrypts(setup)
    ensures
      var items := Output(cfg, Flatten(chunks));
      R.OutcomeOf(setup, Replies(items)) != R.UpstreamFailed ==>
        ClientText(setup, items) == Words(items[..BeforeError(items)])
  {
    var items := Output(cfg, Flatten(chunks));
    ReceivedBeforeError(items);
    RF.FramesCarryAllText(setup, Replies(items));
  }

  lemma CleanClientText(setup: R.Setup, items: seq<Item>)
    requires RF.AlwaysEncrypts(setup) && Clean(items)
    ensures ClientText(setup, items) == Words(items)
  {
    CleanIsReceived(items);
    RF.FramesCarryAllText(setup, Replies(items));
  }

  /** The words of a clean stream, folded at the boundary. */
  lemma FoldedStream(raw: seq<Item>)
    requires Clean(raw)
    ensures
      var items, k := Closed(Flags(false, false), raw), Boundary(raw);
      && Clean(items)
      && (!Reasons(raw) ==> Words(items) == Words(raw))
      && (Reasons(raw) ==> Words(items) == Words(raw[..k]) + StreamThinkingSeparator + Words(raw[k..]))
  {
    SeparatorPlacement(raw);
    ReasonsMeansFirst(raw);
    if FirstReasoning(raw) < |raw| {
      FoldedWords(raw, Boundary(raw));
      InsertedClean(raw, Boundary(raw));
    }
  }

  lemma ReasonsMeansFirst(raw: seq<Item>)
    ensures Reasons(raw) <==> FirstReasoning(raw) < |raw|
  {
  }

  lemma InsertedClean(raw: seq<Item>, k: nat)
    requires Clean(raw) && k <= |raw|
    ensures Clean(Inserted(raw, k, Separator))
  {
  }

  /**
   * A whole answer, end to end: for every chunking of the given lines, if no line is malformed and
   * encryption works, the client decrypts the texts of the lines in order, with one separator
   * between the thinking and the answer when there was any thinking.
   */
  lemma ClientTextIsFolded(cfg: Config, setup: R.Setup, chunks: seq<Chunk>, lines: seq<string>, tail: string)
    requires RF.AlwaysEncrypts(setup)
    requires forall i :: 0 <= i < |chunks| ==> chunks[i].Data?
    requires AllOneLine(lines) && OneLine(tail) && Joined(chunks) == Assembled(lines, tail)
    requires Clean(LinesItems(cfg, lines) + TailItems(cfg, tail))
    ensures
      var raw := LinesItems(cfg, lines) + TailItems(cfg, tail);
      var text, k := ClientText(setup, Output(cfg, Flatten(chunks))), Boundary(raw);
      && (!Reasons(raw) ==> text == Words(raw))
      && (Reasons(raw) ==> text == Words(raw[..k]) + StreamThinkingSeparator + Words(raw[k..]))
  {
    OutputIsLineByLine(cfg, chunks, lines, tail);
    FoldedStream(LinesItems(cfg, lines) + TailItems(cfg, tail));
    CleanClientText(setup, Output(cfg, Flatten(chunks)));
  }

  /**
   * The same for a server that sends one event per line and then the end marker: for every
   * chunking the client decrypts the texts of all deltas in order, folded at the boundary.
   */
  lemma ClientDecryptsTheDeltas(cfg: Config, setup: R.Setup, chunks: seq<Chunk>, payloads: seq<string>)
    requires RF.AlwaysEncrypts(setup) && cfg.legacy && AllSendable(payloads) && Clean(AllDeltas(cfg, payloads))
    requires Carries(chunks, payloads)
    ensures
      var raw := AllDeltas(cfg, payloads);
      var text, k := ClientText(setup, Output(cfg, Flatten(chunks))), Boundary(raw);
      && (!Reasons(raw) ==> text == Words(raw))
      && (Reasons(raw) ==> text == Words(raw[..k]) + StreamThinkingSeparator + Words(raw[k..]))
  {
    StreamSaysItsDeltas(cfg, payloads, chunks);
    FoldedStream(AllDeltas(cfg, payloads));
    CleanClientText(setup, Output(cfg, Flatten(chunks)));
  }

  lemma FoldedWords(raw: seq<Item>, k: nat)
    requires k <= |raw|
    ensures Words(Inserted(raw, k, Separator)) == Words(raw[..k]) + StreamThinkingSeparator + Words(raw[k..])
  {
    WordsConcat(raw[..k], [Separator]);
    WordsOne(Separator);
    WordsConcat(raw[..k] + [Separator], raw[k..]);
  }

  lemma WordsOne(item: Item)
    ensures Words([item]) == TextOf(item)
  {
    assert TextsOf([item]) == [TextOf(item)];
    R.ConcatOne(TextOf(item));
  }
}

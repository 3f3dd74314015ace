/** What one line of the event stream says: exactly what its data parses to, and nothing otherwise. */
module SseLines {
  import opened Collections
  import opened Text
  import opened SseReader
  import opened SseFacts

  /** The text of a `data:` line with some white space between the colon and the data. */
  function DataText(gap: string, data: string): (text: string)
    ensures text == "data:" + gap + data
  {
    "data:" + gap + data
  }

  lemma DataTextParts(gap: string, data: string)
    ensures |DataText(gap, data)| >= 5 && DataText(gap, data)[0] == 'd' && "data:" <= DataText(gap, data)
    ensures DataText(gap, data)[5..] == gap + data
    ensures data != "" ==> DataText(gap, data)[|DataText(gap, data)| - 1] == data[|data| - 1]
  {
  }

  lemma Unpadded(s: string)
    ensures "" + s + "" == s && s + "" == s
  {
  }

  lemma DataInside(pre: string, gap: string, data: string, post: string)
    requires Blank(pre) && Blank(gap) && Blank(post) && Tight(data) && data != ""
    ensures Trim(pre + DataText(gap, data) + post) == DataText(gap, data)
    ensures Trim(DataText(gap, data)[5..]) == data
  {
    DataTextParts(gap, data);
    TrimPadded(pre, DataText(gap, data), post);
    Unpadded(gap + data);
    TrimPadded(gap, data, "");
  }

  lemma EventSays(cfg: Config, data: string)
    ensures
      DataItems(cfg, Some(data))
      == match cfg.parse(data)
         case Malformed => [BadLine]
         case NoChoice => []
         case First(choice) =>
           if cfg.legacy then Saids(StreamDeltas(choice))
           else if choice.delta.Some? && (!choice.delta.value.isEmpty || choice.finishSet) then [Frame(choice.wire)]
           else []
  {
  }

  /**
   * A `data:` line, with any white space before it, after the colon and at its end, contributes
   * what its data parses to: an error item, nothing, the deltas of the first choice in order
   * (legacy mode), or the choice's frame if it has a delta that is not empty or a finish reason.
   */
  lemma DataLineSays(cfg: Config, pre: string, gap: string, data: string, post: string)
    requires Blank(pre) && Blank(gap) && Blank(post) && Trim(data) == data && data != "" && data != "[DONE]"
    ensures
      LineItems(cfg, pre + DataText(gap, data) + post)
      == match cfg.parse(data)
         case Malformed => [BadLine]
         case NoChoice => []
         case First(choice) =>
           if cfg.legacy then Saids(StreamDeltas(choice))
           else if choice.delta.Some? && (!choice.delta.value.isEmpty || choice.finishSet) then [Frame(choice.wire)]
           else []
  {
    TrimNonSpaceEnds(data);
    DataInside(pre, gap, data, post);
    DataTextParts(gap, data);
    EventSays(cfg, data);
  }

  lemma NothingWithoutPayload(cfg: Config, line: string)
    requires Payload(line) == None
    ensures LineItems(cfg, line) == []
  {
  }

  /** The end marker says nothing. */
  lemma DoneSaysNothing(cfg: Config, pre: string, gap: string, post: string)
    requires Blank(pre) && Blank(gap) && Blank(post)
    ensures LineItems(cfg, pre + DataText(gap, "[DONE]") + post) == []
  {
    var done := "[DONE]";
    assert done[0] == '[' && done[|done| - 1] == ']';
    DataInside(pre, gap, done, post);
    DataTextParts(gap, done);
    NothingWithoutPayload(cfg, pre + DataText(gap, done) + post);
  }

  /** A `data:` line without data says nothing. */
  lemma EmptySaysNothing(cfg: Config, pre: string, post: string)
    requires Blank(pre) && Blank(post)
    ensures LineItems(cfg, pre + "data:" + post) == []
  {
    var inner := "data:";
    assert inner[0] == 'd' && inner[|inner| - 1] == ':';
    TrimPadded(pre, inner, post);
    assert inner[5..] == "" && Trim("") == "";
    assert TrimmedPayload(inner) == None;
    NothingWithoutPayload(cfg, pre + inner + post);
  }

  /** Any other line says nothing. */
  lemma OtherLineSaysNothing(cfg: Config, line: string)
    requires !("data:" <= Trim(line))
    ensures LineItems(cfg, line) == []
  {
    NothingWithoutPayload(cfg, line);
  }

  // ---------------------------------------------------------------- a stream of events

  /** A payload that a server can send on one line. */
  predicate Sendable(payload: string) {
    OneLine(payload) && Trim(payload) == payload && payload != "" && payload != "[DONE]"
  }

  predicate AllSendable(payloads: seq<string>) {
    forall i :: 0 <= i < |payloads| ==> Sendable(payloads[i])
  }

  function EventLines(payloads: seq<string>): (lines: seq<string>)
    ensures |lines| == |payloads| && forall i :: 0 <= i < |lines| ==> lines[i] == DataText(" ", payloads[i])
  {
    seq(|payloads|, i requires 0 <= i < |payloads| => DataText(" ", payloads[i]))
  }

  /** The deltas of an event in legacy mode. */
  function EventDeltas(cfg: Config, payload: string): seq<Item> {
    match cfg.parse(payload)
    case Malformed => [BadLine]
    case NoChoice => []
    case First(choice) => Saids(StreamDeltas(choice))
  }

  /** All deltas of the events, in order. */
  function AllDeltas(cfg: Config, payloads: seq<string>): seq<Item> {
    if payloads == [] then [] else EventDeltas(cfg, payloads[0]) + AllDeltas(cfg, payloads[1..])
  }

  lemma DataTextOneLine(data: string)
    requires OneLine(data)
    ensures OneLine(DataText(" ", data))
  {
    var prefix := "data:" + " ";
    assert forall i :: 0 <= i < |prefix| ==> prefix[i] != '\n';
    assert DataText(" ", data) == prefix + data;
  }

  lemma EventLineSays(cfg: Config, payload: string)
    requires cfg.legacy && Sendable(payload)
    ensures OneLine(DataText(" ", payload)) && LineItems(cfg, DataText(" ", payload)) == EventDeltas(cfg, payload)
  {
    DataTextOneLine(payload);
    DataLineSays(cfg, "", " ", payload, "");
    Unpadded(DataText(" ", payload));
  }

  lemma {:induction false} EventLinesSay(cfg: Config, payloads: seq<string>)
    requires cfg.legacy && AllSendable(payloads)
    ensures AllOneLine(EventLines(payloads)) && LinesItems(cfg, EventLines(payloads)) == AllDeltas(cfg, payloads)
  {
    if payloads != [] {
      EventLineSays(cfg, payloads[0]);
      EventLinesSay(cfg, payloads[1..]);
      FirstEventLine(payloads);
      LinesItemsCons(cfg, DataText(" ", payloads[0]), EventLines(payloads[1..]));
    }
  }

  lemma FirstEventLine(payloads: seq<string>)
    requires payloads != []
    ensures EventLines(payloads) == [DataText(" ", payloads[0])] + EventLines(payloads[1..])
  {
  }

  lemma LinesItemsCons(cfg: Config, line: string, lines: seq<string>)
    ensures LinesItems(cfg, [line] + lines) == LineItems(cfg, line) + LinesItems(cfg, lines)
    ensures OneLine(line) && AllOneLine(lines) ==> AllOneLine([line] + lines)
  {
    assert ([line] + lines)[1..] == lines;
  }

  lemma DoneTail(cfg: Config)
    ensures TailItems(cfg, DataText(" ", "[DONE]")) == [] && OneLine(DataText(" ", "[DONE]"))
  {
    DataTextOneLine("[DONE]");
    DataTextParts(" ", "[DONE]");
    DoneSaysNothing(cfg, "", " ", "");
    Unpadded(DataText(" ", "[DONE]"));
  }

  /** The chunks are some cut of the events, one per line, and the end marker. */
  ghost predicate Carries(chunks: seq<Chunk>, payloads: seq<string>) {
    && (forall i :: 0 <= i < |chunks| ==> chunks[i].Data?)
    && Joined(chunks) == Assembled(EventLines(payloads), DataText(" ", "[DONE]"))
  }

  /**
   * For every chunking of a stream of events and the end marker, a legacy reader says the deltas
   * of the events in order, with the boundary marked.
   */
  lemma StreamSaysItsDeltas(cfg: Config, payloads: seq<string>, chunks: seq<Chunk>)
    requires cfg.legacy && AllSendable(payloads)
    requires Carries(chunks, payloads)
    ensures Output(cfg, Flatten(chunks)) == Closed(Flags(false, false), AllDeltas(cfg, payloads))
  {
    EventLinesSay(cfg, payloads);
    DoneTail(cfg);
    OutputIsLineByLine(cfg, chunks, EventLines(payloads), DataText(" ", "[DONE]"));
    assert AllDeltas(cfg, payloads) + [] == AllDeltas(cfg, payloads);
  }
}

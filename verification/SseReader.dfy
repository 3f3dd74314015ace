/**
 * The upstream event-stream reader: it cuts an arbitrary chunking of characters into lines, decodes
 * each `data:` line, and in legacy mode marks the place where reasoning ends.
 */
module SseReader {
  import opened Collections
  import opened Text

  datatype Kind = Reasoning | Content
  datatype Delta = Delta(kind: Kind, text: string)

  /** The parts of a `delta` or `message` object that are read; `isEmpty` is an object without members. */
  datatype Message = Message(reasoning: Option<string>, reasoningContent: Option<string>, content: Option<string>,
                             isEmpty: bool)

  /** The first choice of an event; `wire` is its serialised `openai_delta` frame. */
  datatype Choice = Choice(delta: Option<Message>, message: Option<Message>, finishSet: bool, wire: string)

  /** What the JSON of one data line holds. */
  datatype Event = Malformed | NoChoice | First(choice: Choice)

  /** `parse` stands for the JSON parser. */
  datatype Config = Config(legacy: bool, parse: string -> Event)

  /** A network chunk, or a transport error between chunks. */
  datatype Chunk = Data(text: string) | Lost
  datatype Symbol = Ch(c: char) | Fault

  datatype Item = Said(delta: Delta) | Separator | Frame(wire: string) | BadLine | Broken

  const StreamThinkingSeparator: string := "\n\n<!-- teechat:thinking-end -->\n\n"

  // ---------------------------------------------------------------- one choice

  function NonEmpty(text: Option<string>): bool {
    text.Some? && text.value != ""
  }

  /** The first non-empty reasoning field, then the non-empty content. */
  function MessageDeltas(m: Message): seq<Delta> {
    (if NonEmpty(m.reasoning) then [Delta(Reasoning, m.reasoning.value)]
     else if NonEmpty(m.reasoningContent) then [Delta(Reasoning, m.reasoningContent.value)]
     else [])
    + (if NonEmpty(m.content) then [Delta(Content, m.content.value)] else [])
  }

  /** At most one reasoning text and then at most one content text, never an empty one. */
  function StreamDeltas(choice: Choice): (ds: seq<Delta>)
    ensures forall i :: 0 <= i < |ds| ==> ds[i].text != ""
    ensures |ds| <= 2 && (|ds| == 2 ==> ds[0].kind == Reasoning && ds[1].kind == Content)
  {
    if choice.delta.Some? then MessageDeltas(choice.delta.value)
    else if choice.message.Some? then MessageDeltas(choice.message.value)
    else []
  }

  /** The delta object speaks if there is one, even an empty one; the whole message only otherwise. */
  function Speaker(choice: Choice): Option<Message> {
    if choice.delta.Some? then choice.delta else choice.message
  }

  /** Every non-empty text of the speaking object is said once, and `reasoning` hides its older alias. */
  lemma StreamDeltasMeaning(choice: Choice, text: string)
    ensures
      var ds, m := StreamDeltas(choice), Speaker(choice).GetOr(Message(None, None, None, true));
      && (Delta(Content, text) in ds <==> text != "" && m.content == Some(text))
      && (Delta(Reasoning, text) in ds <==>
            text != "" && Some(text) == if NonEmpty(m.reasoning) then m.reasoning else m.reasoningContent)
  {
  }

  function DeltaFrame(choice: Choice): Option<string> {
    if choice.delta.None? || (choice.delta.value.isEmpty && !choice.finishSet) then None else Some(choice.wire)
  }

  // ---------------------------------------------------------------- one line

  /** The data of a line that carries an event. */
  function Payload(line: string): Option<string> {
    TrimmedPayload(Trim(line))
  }

  function TrimmedPayload(trimmed: string): Option<string> {
    if "data:" <= trimmed then
      var data := Trim(trimmed[5..]);
      if data == "[DONE]" || data == "" then None else Some(data)
    else None
  }

  function Saids(ds: seq<Delta>): (items: seq<Item>)
    ensures |items| == |ds| && forall i :: 0 <= i < |ds| ==> items[i] == Said(ds[i])
  {
    seq(|ds|, i requires 0 <= i < |ds| => Said(ds[i]))
  }

  /** What a line contributes before any separator is placed. */
  function LineItems(cfg: Config, line: string): seq<Item> {
    DataItems(cfg, Payload(line))
  }

  function DataItems(cfg: Config, data: Option<string>): seq<Item> {
    if data.None? then []
    else match cfg.parse(data.value)
      case Malformed => [BadLine]
      case NoChoice => []
      case First(choice) =>
        if cfg.legacy then Saids(StreamDeltas(choice))
        else if DeltaFrame(choice).Some? then [Frame(DeltaFrame(choice).value)]
        else []
  }

  // ---------------------------------------------------------------- the whole stream, unmarked

  function Syms(s: string): (r: seq<Symbol>)
    ensures |r| == |s| && forall i :: 0 <= i < |s| ==> r[i] == Ch(s[i])
  {
    seq(|s|, i requires 0 <= i < |s| => Ch(s[i]))
  }

  /** The concatenation of the chunks, with transport errors kept in place. */
  function Flatten(chunks: seq<Chunk>): seq<Symbol> {
    if chunks == [] then []
    else if chunks[0].Lost? then [Fault] + Flatten(chunks[1..])
    else Syms(chunks[0].text) + Flatten(chunks[1..])
  }

  /** The items of a symbol stream, given the characters of the current line seen so far. */
  function Raw(cfg: Config, line: string, syms: seq<Symbol>): seq<Item>
    decreases |syms|
  {
    if syms == [] then if line == "" then [] else LineItems(cfg, line)
    else if syms[0].Fault? then [Broken] + Raw(cfg, line, syms[1..])
    else if syms[0].c == '\n' then LineItems(cfg, line) + Raw(cfg, "", syms[1..])
    else Raw(cfg, line + [syms[0].c], syms[1..])
  }

  predicate OneLine(s: string) {
    forall i :: 0 <= i < |s| ==> s[i] != '\n'
  }

  lemma {:induction false} RawSkips(cfg: Config, line: string, s: string, rest: seq<Symbol>)
    requires OneLine(s)
    ensures Raw(cfg, line, Syms(s) + rest) == Raw(cfg, line + s, rest)
    decreases |s|
  {
    if s == "" {
      assert Syms(s) + rest == rest && line + s == line;
    } else {
      var all := Syms(s) + rest;
      assert all[0] == Ch(s[0]) && all[1..] == Syms(s[1..]) + rest;
      RawSkips(cfg, line + [s[0]], s[1..], rest);
      assert line + [s[0]] + s[1..] == line + s;
    }
  }

  /** A complete first line is handled before everything after it. */
  lemma RawTakesLine(cfg: Config, s: string, i: nat, rest: seq<Symbol>)
    requires i < |s| && s[i] == '\n' && OneLine(s[..i])
    ensures Raw(cfg, "", Syms(s) + rest) == LineItems(cfg, s[..i]) + Raw(cfg, "", Syms(s[i + 1..]) + rest)
  {
    var tail := [Ch('\n')] + (Syms(s[i + 1..]) + rest);
    assert Syms(s) + rest == Syms(s[..i]) + tail;
    RawSkips(cfg, "", s[..i], tail);
    assert "" + s[..i] == s[..i];
    assert tail[1..] == Syms(s[i + 1..]) + rest;
  }

  lemma RawFault(cfg: Config, s: string, rest: seq<Symbol>)
    requires OneLine(s)
    ensures Raw(cfg, "", Syms(s) + ([Fault] + rest)) == [Broken] + Raw(cfg, "", Syms(s) + rest)
  {
    RawSkips(cfg, "", s, [Fault] + rest);
    RawSkips(cfg, "", s, rest);
    assert ([Fault] + rest)[1..] == rest;
  }

  // ---------------------------------------------------------------- placing the separator

  datatype Flags = Flags(sawReasoning: bool, boundaryEmitted: bool)

  predicate Due(f: Flags) {
    f.sawReasoning && !f.boundaryEmitted
  }

  predicate IsContent(item: Item) {
    item.Said? && item.delta.kind == Content
  }

  predicate IsReasoning(item: Item) {
    item.Said? && item.delta.kind == Reasoning
  }

  function Next(f: Flags, item: Item): Flags {
    if IsReasoning(item) then f.(sawReasoning := true)
    else if IsContent(item) && Due(f) then f.(boundaryEmitted := true)
    else f
  }

  /** What is queued for one item: content gets the separator in front of it when one is due. */
  function Queued(f: Flags, item: Item): seq<Item> {
    if IsContent(item) && Due(f) then [Separator, item] else [item]
  }

  function Marked(f: Flags, items: seq<Item>): seq<Item>
    decreases |items|
  {
    if items == [] then [] else Queued(f, items[0]) + Marked(Next(f, items[0]), items[1..])
  }

  function After(f: Flags, items: seq<Item>): Flags
    decreases |items|
  {
    if items == [] then f else After(Next(f, items[0]), items[1..])
  }

  /** Everything still to come: the marked items and, at the end, a separator still due. */
  function Closed(f: Flags, items: seq<Item>): seq<Item> {
    Marked(f, items) + if Due(After(f, items)) then [Separator] else []
  }

  lemma {:induction false} MarkedConcat(f: Flags, a: seq<Item>, b: seq<Item>)
    ensures Marked(f, a + b) == Marked(f, a) + Marked(After(f, a), b)
    ensures After(f, a + b) == After(After(f, a), b)
    decreases |a|
  {
    if a == [] {
      assert a + b == b;
    } else {
      assert (a + b)[0] == a[0] && (a + b)[1..] == a[1..] + b;
      MarkedConcat(Next(f, a[0]), a[1..], b);
    }
  }

  lemma MarkedOne(f: Flags, item: Item)
    ensures Marked(f, [item]) == Queued(f, item) && After(f, [item]) == Next(f, item)
  {
    assert [item][1..] == [];
    assert Marked(Next(f, item), []) == [];
  }

  lemma ClosedConcat(f: Flags, a: seq<Item>, b: seq<Item>)
    ensures Closed(f, a + b) == Marked(f, a) + Closed(After(f, a), b)
  {
    MarkedConcat(f, a, b);
  }

  /** An error item passes through without touching the boundary state. */
  lemma ClosedError(f: Flags, item: Item, rest: seq<Item>)
    requires !item.Said?
    ensures Closed(f, [item] + rest) == [item] + Closed(f, rest)
  {
    ClosedConcat(f, [item], rest);
    MarkedOne(f, item);
  }

  // ---------------------------------------------------------------- the reader

  /** The output of a stream read to its end: a function of the concatenated symbols alone. */
  function Output(cfg: Config, syms: seq<Symbol>): seq<Item> {
    Closed(Flags(false, false), Raw(cfg, "", syms))
  }

  /** What a reader in this state still has to say. */
  function Remaining(cfg: Config, pending: seq<Item>, f: Flags, buffer: string, input: seq<Chunk>): seq<Item> {
    pending + Closed(f, Raw(cfg, "", Syms(buffer) + Flatten(input)))
  }

  lemma NothingPending(cfg: Config, f: Flags, buffer: string, input: seq<Chunk>)
    ensures Remaining(cfg, [], f, buffer, input) == Closed(f, Raw(cfg, "", Syms(buffer) + Flatten(input)))
  {
  }

  /** A new reader has everything to say. */
  lemma NewReader(cfg: Config, input: seq<Chunk>)
    ensures Remaining(cfg, [], Flags(false, false), "", input) == Output(cfg, Flatten(input))
  {
    NothingPending(cfg, Flags(false, false), "", input);
    assert Syms("") + Flatten(input) == Flatten(input);
  }

  /** Consuming the first buffered line. */
  lemma LineStep(cfg: Config, f: Flags, buffer: string, i: nat, input: seq<Chunk>)
    requires i < |buffer| && buffer[i] == '\n' && OneLine(buffer[..i])
    ensures
      var items := LineItems(cfg, buffer[..i]);
      Remaining(cfg, [], f, buffer, input)
      == Remaining(cfg, [] + Marked(f, items), After(f, items), buffer[i + 1..], input)
  {
    var items := LineItems(cfg, buffer[..i]);
    RawTakesLine(cfg, buffer, i, Flatten(input));
    ClosedConcat(f, items, Raw(cfg, "", Syms(buffer[i + 1..]) + Flatten(input)));
  }

  /** A malformed line costs one error item and nothing else. */
  lemma BadLineStep(cfg: Config, f: Flags, buffer: string, i: nat, input: seq<Chunk>)
    requires i < |buffer| && buffer[i] == '\n' && OneLine(buffer[..i]) && LineItems(cfg, buffer[..i]) == [BadLine]
    ensures Remaining(cfg, [], f, buffer, input) == [BadLine] + Remaining(cfg, [], f, buffer[i + 1..], input)
  {
    var rest := Raw(cfg, "", Syms(buffer[i + 1..]) + Flatten(input));
    RawTakesLine(cfg, buffer, i, Flatten(input));
    ClosedError(f, BadLine, rest);
    NothingPending(cfg, f, buffer, input);
    NothingPending(cfg, f, buffer[i + 1..], input);
  }

  /** What queueing items leaves in the pending queue and the boundary state. */
  ghost predicate Enqueued(items: seq<Item>, ok: bool, pending: seq<Item>, f: Flags,
                           pending': seq<Item>, f': Flags) {
    if ok then pending' == pending + Marked(f, items) && f' == After(f, items)
    else items == [BadLine] && pending' == pending && f' == f
  }

  predicate LineEnds(s: string, at: nat) {
    at < |s| && s[at] == '\n' && OneLine(s[..at])
  }

  /** Nothing said yet, or exactly one error item reported and nothing queued. */
  ghost predicate Follows(ok: bool, was: seq<Item>, pending: seq<Item>, now: seq<Item>) {
    if ok then now == was else pending == [] && was == [BadLine] + now
  }

  lemma FirstLine(s: string, at: nat)
    requires LineEnds(s, at)
    ensures s[..at + 1] != "" && s[..at + 1][|s[..at + 1]| - 1] == '\n' && s[..at + 1][..|s[..at + 1]| - 1] == s[..at]
  {
  }

  lemma LineTaken(cfg: Config, pending: seq<Item>, f: Flags, buffer: string, i: nat, input: seq<Chunk>, ok: bool,
                  pending': seq<Item>, f': Flags)
    requires pending == [] && LineEnds(buffer, i)
    requires Enqueued(LineItems(cfg, buffer[..i]), ok, pending, f, pending', f')
    ensures Follows(ok, Remaining(cfg, pending, f, buffer, input), pending',
                    Remaining(cfg, pending', f', buffer[i + 1..], input))
  {
    if ok {
      LineStep(cfg, f, buffer, i, input);
    } else {
      BadLineStep(cfg, f, buffer, i, input);
    }
  }

  /** Appending a chunk to the buffer. */
  lemma ChunkStep(cfg: Config, f: Flags, buffer: string, input: seq<Chunk>)
    requires input != [] && input[0].Data?
    ensures Remaining(cfg, [], f, buffer, input) == Remaining(cfg, [], f, buffer + input[0].text, input[1..])
  {
    var t := input[0].text;
    assert Syms(buffer) + (Syms(t) + Flatten(input[1..])) == Syms(buffer + t) + Flatten(input[1..]);
  }

  lemma FaultStep(cfg: Config, f: Flags, buffer: string, input: seq<Chunk>)
    requires input != [] && input[0].Lost? && OneLine(buffer)
    ensures Remaining(cfg, [], f, buffer, input) == [Broken] + Remaining(cfg, [], f, buffer, input[1..])
  {
    RawFault(cfg, buffer, Flatten(input[1..]));
    ClosedError(f, Broken, Raw(cfg, "", Syms(buffer) + Flatten(input[1..])));
  }

  /** The items of an unterminated last line. */
  function TailItems(cfg: Config, line: string): seq<Item> {
    if line == "" then [] else LineItems(cfg, line)
  }

  lemma ClosedMoves(f: Flags, items: seq<Item>)
    ensures Closed(f, items) == ([] + Marked(f, items)) + Closed(After(f, items), [])
  {
    assert items + [] == items;
    ClosedConcat(f, items, []);
  }

  lemma NothingLeft(cfg: Config, pending: seq<Item>, f: Flags)
    ensures Remaining(cfg, pending, f, "", []) == pending + Closed(f, [])
  {
    RawSkips(cfg, "", "", []);
    assert "" + "" == "";
  }

  /** With nothing left to read, only a due separator is missing. */
  lemma FlushStep(cfg: Config, pending: seq<Item>, f: Flags)
    ensures !Due(f) ==> Remaining(cfg, pending, f, "", []) == pending
    ensures Due(f) ==> Remaining(cfg, pending, f, "", []) == pending + [Separator]
  {
    RawSkips(cfg, "", "", []);
    assert "" + "" == "";
  }

  lemma BadTailStep(cfg: Config, f: Flags, buffer: string)
    requires OneLine(buffer) && TailItems(cfg, buffer) == [BadLine]
    ensures Remaining(cfg, [], f, buffer, []) == [BadLine] + Remaining(cfg, [], f, "", [])
  {
    RawSkips(cfg, "", buffer, []);
    assert "" + buffer == buffer;
    RawSkips(cfg, "", "", []);
    assert "" + "" == "";
    NothingPending(cfg, f, buffer, []);
    NothingPending(cfg, f, "", []);
    ClosedError(f, BadLine, []);
    assert [BadLine] + [] == [BadLine];
  }

  lemma TailTaken(cfg: Config, pending: seq<Item>, f: Flags, buffer: string, input: seq<Chunk>, ok: bool,
                  pending': seq<Item>, f': Flags, buffer': string)
    requires pending == [] && input == [] && OneLine(buffer) && buffer' == ""
    requires Enqueued(TailItems(cfg, buffer), ok, pending, f, pending', f')
    ensures Follows(ok, Remaining(cfg, pending, f, buffer, input), pending', Remaining(cfg, pending', f', buffer', input))
  {
    if ok {
      RawSkips(cfg, "", buffer, []);
      assert "" + buffer == buffer;
      NothingPending(cfg, f, buffer, []);
      ClosedMoves(f, TailItems(cfg, buffer));
      NothingLeft(cfg, pending', f');
    } else {
      BadTailStep(cfg, f, buffer);
    }
  }

  function StripLine(line: string): string {
    Trim(TrimEndMatches(TrimEndMatches(line, '\n'), '\r'))
  }

  lemma TrimKeepsItems(cfg: Config, line: string)
    ensures LineItems(cfg, Trim(line)) == LineItems(cfg, line)
  {
    TrimIdempotent(line);
  }

  /** Removing terminators before blanks, and blanks twice, changes nothing. */
  lemma StripKeepsItems(cfg: Config, line: string)
    requires line != "" && line[|line| - 1] == '\n'
    ensures LineItems(cfg, StripLine(line)) == LineItems(cfg, line[..|line| - 1])
  {
    var l1 := TrimEndMatches(line, '\n');
    TrimAbsorbsTrimEndMatches(line, '\n');
    TrimAbsorbsTrimEndMatches(l1, '\r');
    TrimAppendSpace(line, '\n');
    TrimKeepsItems(cfg, line[..|line| - 1]);
  }

  method FindNewline(s: string) returns (at: Option<nat>)
    ensures at.None? ==> OneLine(s)
    ensures at.Some? ==> LineEnds(s, at.value)
  {
    for i := 0 to |s|
      invariant forall k :: 0 <= k < i ==> s[k] != '\n'
    {
      if s[i] == '\n' {
        return Some(i);
      }
    }
    at := None;
  }

  class VllmSseStream {
    const cfg: Config
    var input: seq<Chunk>
    var buffer: string
    var pending: seq<Item>
    var sawReasoning: bool
    var boundaryEmitted: bool

    function State(): Flags
      reads this
    {
      Flags(sawReasoning, boundaryEmitted)
    }

    ghost predicate Valid()
      reads this
    {
      !cfg.legacy ==> !sawReasoning
    }

    /** All the items this reader has yet to yield. */
    ghost function Rest(): seq<Item>
      reads this
    {
      Remaining(cfg, pending, State(), buffer, input)
    }

    constructor (cfg: Config, input: seq<Chunk>)
      ensures Valid() && this.cfg == cfg && Rest() == Output(cfg, Flatten(input))
    {
      this.cfg, this.input := cfg, input;
      buffer, pending, sawReasoning, boundaryEmitted := "", [], false, false;
      new;
      NewReader(cfg, input);
    }

    method EnqueueDelta(delta: Delta)
      requires cfg.legacy
      modifies this`pending, this`sawReasoning, this`boundaryEmitted
      ensures pending == old(pending) + Queued(old(State()), Said(delta)) && State() == Next(old(State()), Said(delta))
    {
      if delta.kind == Content && sawReasoning && !boundaryEmitted {
        boundaryEmitted := true;
        pending := pending + [Separator];
      }
      if delta.kind == Reasoning {
        sawReasoning := true;
      }
      pending := pending + [Said(delta)];
    }

    method EnqueueDeltas(deltas: seq<Delta>)
      requires cfg.legacy
      modifies this`pending, this`sawReasoning, this`boundaryEmitted
      ensures pending == old(pending) + Marked(old(State()), Saids(deltas))
      ensures State() == After(old(State()), Saids(deltas))
    {
      for i := 0 to |deltas|
        invariant pending == old(pending) + Marked(old(State()), Saids(deltas)[..i])
        invariant State() == After(old(State()), Saids(deltas)[..i])
      {
        assert Saids(deltas)[..i + 1] == Saids(deltas)[..i] + [Said(deltas[i])];
        MarkedConcat(old(State()), Saids(deltas)[..i], [Said(deltas[i])]);
        MarkedOne(State(), Said(deltas[i]));
        EnqueueDelta(deltas[i]);
      }
      assert Saids(deltas)[..|deltas|] == Saids(deltas);
    }

    /** Queue what an event says; a malformed one is reported and changes nothing. */
    method EnqueueData(data: Option<string>) returns (ok: bool)
      requires Valid()
      modifies this`pending, this`sawReasoning, this`boundaryEmitted
      ensures Valid()
      ensures Enqueued(DataItems(cfg, data), ok, old(pending), old(State()), pending, State())
    {
      if data.None? {
        return true;
      }
      match cfg.parse(data.value)
      case Malformed => ok := false;
      case NoChoice => ok := true;
      case First(choice) =>
        ok := true;
        if cfg.legacy {
          EnqueueDeltas(StreamDeltas(choice));
        } else if DeltaFrame(choice).Some? {
          MarkedOne(State(), Frame(DeltaFrame(choice).value));
          pending := pending + [Frame(DeltaFrame(choice).value)];
        }
    }

    method EnqueueSseLine(line: string) returns (ok: bool)
      requires Valid()
      modifies this`pending, this`sawReasoning, this`boundaryEmitted
      ensures Valid()
      ensures Enqueued(LineItems(cfg, line), ok, old(pending), old(State()), pending, State())
    {
      ok := EnqueueData(Payload(line));
    }

    /** A complete line: its terminators go first, then the blanks. */
    method EnqueueTerminated(line: string) returns (ok: bool)
      requires Valid() && line != "" && line[|line| - 1] == '\n'
      modifies this`pending, this`sawReasoning, this`boundaryEmitted
      ensures Valid()
      ensures Enqueued(LineItems(cfg, line[..|line| - 1]), ok, old(pending), old(State()), pending, State())
    {
      StripKeepsItems(cfg, line);
      ok := EnqueueSseLine(StripLine(line));
    }

    /** Take the line that ends at `at` out of the buffer and queue what it says. */
    method DrainLine(at: nat) returns (ok: bool)
      requires Valid() && LineEnds(buffer, at)
      modifies this`buffer, this`pending, this`sawReasoning, this`boundaryEmitted
      ensures Valid() && buffer == old(buffer)[at + 1..]
      ensures Enqueued(LineItems(cfg, old(buffer)[..at]), ok, old(pending), old(State()), pending, State())
    {
      FirstLine(buffer, at);
      var line := buffer[..at + 1];
      buffer := buffer[at + 1..];
      ok := EnqueueTerminated(line);
    }

    method TakeLine(at: nat) returns (ok: bool)
      requires Valid() && pending == [] && LineEnds(buffer, at)
      modifies this`buffer, this`pending, this`sawReasoning, this`boundaryEmitted
      ensures Valid() && |buffer| < |old(buffer)|
      ensures Follows(ok, old(Rest()), pending, Rest())
    {
      ghost var queued, f, was := pending, State(), buffer;
      ok := DrainLine(at);
      LineTaken(cfg, queued, f, was, at, input, ok, pending, State());
    }

    /** The end of the input: the unterminated line, then a separator still due. */
    method Finish() returns (ok: bool)
      requires Valid() && pending == [] && input == [] && OneLine(buffer)
      modifies this`buffer, this`pending, this`sawReasoning, this`boundaryEmitted
      ensures Valid() && buffer == ""
      ensures Follows(ok, old(Rest()), pending, Rest()) && (ok ==> pending == Rest())
    {
      ok := FinishLine();
      if ok {
        FlushSeparator();
      }
    }

    method FinishLine() returns (ok: bool)
      requires Valid() && pending == [] && input == [] && OneLine(buffer)
      modifies this`buffer, this`pending, this`sawReasoning, this`boundaryEmitted
      ensures Valid() && buffer == ""
      ensures Follows(ok, old(Rest()), pending, Rest())
    {
      ghost var queued, f, was := pending, State(), buffer;
      ok := DrainTail();
      TailTaken(cfg, queued, f, was, input, ok, pending, State(), buffer);
    }

    method DrainTail() returns (ok: bool)
      requires Valid()
      modifies this`buffer, this`pending, this`sawReasoning, this`boundaryEmitted
      ensures Valid() && buffer == ""
      ensures Enqueued(TailItems(cfg, old(buffer)), ok, old(pending), old(State()), pending, State())
    {
      var line := buffer;
      buffer := "";
      ok := EnqueueTail(line);
    }

    method FlushSeparator()
      requires Valid() && input == [] && buffer == ""
      modifies this`pending, this`boundaryEmitted
      ensures Valid() && pending == Rest() == old(Rest())
    {
      FlushStep(cfg, pending, State());
      if cfg.legacy && sawReasoning && !boundaryEmitted {
        boundaryEmitted := true;
        pending := pending + [Separator];
        FlushStep(cfg, pending, State());
      }
    }

    method EnqueueTail(line: string) returns (ok: bool)
      requires Valid()
      modifies this`pending, this`sawReasoning, this`boundaryEmitted
      ensures Valid()
      ensures Enqueued(TailItems(cfg, line), ok, old(pending), old(State()), pending, State())
    {
      ok := true;
      if line != "" {
        TrimKeepsItems(cfg, line);
        ok := EnqueueSseLine(Trim(line));
      }
    }

    /** Yields exactly the next of the remaining items, and `None` exactly when there are none. */
    method PollNext() returns (item: Option<Item>)
      requires Valid()
      modifies this`input, this`buffer, this`pending, this`sawReasoning, this`boundaryEmitted
      ensures Valid()
      ensures item.None? ==> old(Rest()) == [] && Rest() == []
      ensures item.Some? ==> old(Rest()) == [item.value] + Rest()
    {
      while true
        invariant Valid() && Rest() == old(Rest())
        decreases |input|, |buffer|
      {
        if pending != [] {
          item := Some(pending[0]);
          pending := pending[1..];
          return;
        }
        var at := FindNewline(buffer);
        if at.Some? {
          var ok := TakeLine(at.value);
          if !ok {
            return Some(BadLine);
          }
        } else if input != [] {
          if input[0].Lost? {
            FaultStep(cfg, State(), buffer, input);
            input := input[1..];
            return Some(Broken);
          }
          ChunkStep(cfg, State(), buffer, input);
          buffer, input := buffer + input[0].text, input[1..];
        } else {
          var ok := Finish();
          if !ok {
            return Some(BadLine);
          }
          if pending == [] {
            return None;
          }
          item := Some(pending[0]);
          pending := pending[1..];
          return;
        }
      }
    }

    /** Reading to the end collects all remaining items. */
    method ReadAll() returns (items: seq<Item>)
      requires Valid()
      modifies this
      ensures items == old(Rest())
    {
      items := [];
      while true
        invariant Valid() && items + Rest() == old(Rest())
        decreases |Rest()|
      {
        ghost var rest := Rest();
        var item := PollNext();
        if item.None? {
          return;
        }
        assert rest == [item.value] + Rest();
        items := items + [item.value];
      }
    }
  }
}

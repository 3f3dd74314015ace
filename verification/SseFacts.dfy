/** What the event-stream reader yields, for every chunking: line by line, with one separator in its place. */
module SseFacts {
  import opened Collections
  import opened SseReader

  // ---------------------------------------------------------------- independence of the chunking

  function Joined(chunks: seq<Chunk>): string
    requires forall i :: 0 <= i < |chunks| ==> chunks[i].Data?
  {
    if chunks == [] then "" else chunks[0].text + Joined(chunks[1..])
  }

  lemma {:induction false} FlattenIsJoined(chunks: seq<Chunk>)
    requires forall i :: 0 <= i < |chunks| ==> chunks[i].Data?
    ensures Flatten(chunks) == Syms(Joined(chunks))
  {
    if chunks != [] {
      FlattenIsJoined(chunks[1..]);
      assert Syms(chunks[0].text + Joined(chunks[1..])) == Syms(chunks[0].text) + Syms(Joined(chunks[1..]));
    }
  }

  /** Lines, each followed by its newline, and an unterminated rest. */
  function Assembled(lines: seq<string>, tail: string): string {
    if lines == [] then tail else lines[0] + ['\n'] + Assembled(lines[1..], tail)
  }

  predicate AllOneLine(lines: seq<string>) {
    forall i :: 0 <= i < |lines| ==> OneLine(lines[i])
  }

  function LinesItems(cfg: Config, lines: seq<string>): seq<Item> {
    if lines == [] then [] else LineItems(cfg, lines[0]) + LinesItems(cfg, lines[1..])
  }

  /** Every text is a sequence of complete lines and an unterminated rest. */
  lemma {:induction false} EveryTextSplits(text: string) returns (lines: seq<string>, tail: string)
    ensures AllOneLine(lines) && OneLine(tail) && text == Assembled(lines, tail)
    decreases |text|
  {
    lines, tail := [], "";
    if text != "" {
      lines, tail := EveryTextSplits(text[1..]);
      lines, tail := PrependChar(text[0], lines, tail);
      assert text == [text[0]] + text[1..];
    }
  }

  lemma PrependChar(c: char, lines: seq<string>, tail: string) returns (lines': seq<string>, tail': string)
    requires AllOneLine(lines) && OneLine(tail)
    ensures AllOneLine(lines') && OneLine(tail') && Assembled(lines', tail') == [c] + Assembled(lines, tail)
  {
    lines', tail' := lines, tail;
    if c == '\n' {
      lines' := [""] + lines;
      assert lines'[1..] == lines;
      assert "" + ['\n'] == [c];
    } else if lines == [] {
      tail' := [c] + tail;
    } else {
      lines' := [[c] + lines[0]] + lines[1..];
      assert lines'[1..] == lines[1..];
      var more := Assembled(lines[1..], tail);
      assert ([c] + lines[0]) + ['\n'] + more == [c] + (lines[0] + ['\n'] + more);
    }
  }

  lemma {:induction false} RawByLines(cfg: Config, lines: seq<string>, tail: string)
    requires AllOneLine(lines) && OneLine(tail)
    ensures Raw(cfg, "", Syms(Assembled(lines, tail))) == LinesItems(cfg, lines) + TailItems(cfg, tail)
  {
    if lines == [] {
      RawSkips(cfg, "", tail, []);
      assert "" + tail == tail;
      assert Syms(tail) + [] == Syms(tail);
    } else {
      var more := Assembled(lines[1..], tail);
      var text := lines[0] + ['\n'] + more;
      RawByLines(cfg, lines[1..], tail);
      CutAt(lines[0], '\n', more);
      RawTakesLine(cfg, text, |lines[0]|, []);
      assert Syms(text) + [] == Syms(text) && Syms(more) + [] == Syms(more);
      Regroup(LineItems(cfg, lines[0]), LinesItems(cfg, lines[1..]), TailItems(cfg, tail));
    }
  }

  lemma CutAt(a: string, c: char, b: string)
    ensures (a + [c] + b)[|a|] == c && (a + [c] + b)[..|a|] == a && (a + [c] + b)[|a| + 1..] == b
  {
  }

  /**
   * However a text is cut into chunks, the reader yields what its lines say, in order, the
   * unterminated last line included.
   */
  lemma OutputIsLineByLine(cfg: Config, chunks: seq<Chunk>, lines: seq<string>, tail: string)
    requires forall i :: 0 <= i < |chunks| ==> chunks[i].Data?
    requires AllOneLine(lines) && OneLine(tail) && Joined(chunks) == Assembled(lines, tail)
    ensures Output(cfg, Flatten(chunks)) == Closed(Flags(false, false), LinesItems(cfg, lines) + TailItems(cfg, tail))
  {
    FlattenIsJoined(chunks);
    RawByLines(cfg, lines, tail);
  }

  // ---------------------------------------------------------------- transport errors

  function Without(items: seq<Item>, x: Item): (r: seq<Item>)
    ensures x !in items ==> r == items
  {
    if items == [] then []
    else if items[0] == x then Without(items[1..], x)
    else [items[0]] + Without(items[1..], x)
  }

  lemma {:induction false} WithoutConcat(a: seq<Item>, b: seq<Item>, x: Item)
    ensures Without(a + b, x) == Without(a, x) + Without(b, x)
  {
    if a == [] {
      assert a + b == b;
    } else {
      assert (a + b)[0] == a[0] && (a + b)[1..] == a[1..] + b;
      WithoutConcat(a[1..], b, x);
    }
  }

  function NoFaults(syms: seq<Symbol>): seq<Symbol> {
    if syms == [] then []
    else if syms[0].Fault? then NoFaults(syms[1..])
    else [syms[0]] + NoFaults(syms[1..])
  }

  lemma LineItemsArePlain(cfg: Config, data: Option<string>)
    ensures forall item :: item in DataItems(cfg, data) ==> item != Separator && item != Broken
    ensures forall item :: item in DataItems(cfg, data) ==> if cfg.legacy then !item.Frame? else !item.Said?
  {
  }

  lemma {:induction false} RawIgnoresFaults(cfg: Config, line: string, syms: seq<Symbol>)
    ensures Without(Raw(cfg, line, syms), Broken) == Raw(cfg, line, NoFaults(syms))
    decreases |syms|
  {
    if syms == [] {
      if line != "" {
        LineItemsArePlain(cfg, Payload(line));
      }
    } else if syms[0].Fault? {
      RawIgnoresFaults(cfg, line, syms[1..]);
      WithoutConcat([Broken], Raw(cfg, line, syms[1..]), Broken);
      assert Without([Broken], Broken) == [];
    } else {
      var more := NoFaults(syms[1..]);
      assert NoFaults(syms)[0] == syms[0] && NoFaults(syms)[1..] == more;
      if syms[0].c == '\n' {
        RawIgnoresFaults(cfg, "", syms[1..]);
        LineItemsArePlain(cfg, Payload(line));
        WithoutConcat(LineItems(cfg, line), Raw(cfg, "", syms[1..]), Broken);
      } else {
        RawIgnoresFaults(cfg, line + [syms[0].c], syms[1..]);
      }
    }
  }

  lemma {:induction false} MarkedIgnoresFaults(f: Flags, items: seq<Item>)
    ensures Without(Marked(f, items), Broken) == Marked(f, Without(items, Broken))
    ensures After(f, items) == After(f, Without(items, Broken))
    decreases |items|
  {
    if items != [] {
      var g := Next(f, items[0]);
      MarkedIgnoresFaults(g, items[1..]);
      WithoutConcat(Queued(f, items[0]), Marked(g, items[1..]), Broken);
      if items[0] == Broken {
        assert Without([Broken], Broken) == [];
      } else {
        var rest := Without(items[1..], Broken);
        assert ([items[0]] + rest)[0] == items[0] && ([items[0]] + rest)[1..] == rest;
        assert Broken !in Queued(f, items[0]);
      }
    }
  }

  /** Transport errors appear in the output and otherwise change nothing, wherever they fall. */
  lemma FaultsOnlyInterleave(cfg: Config, syms: seq<Symbol>)
    ensures Without(Output(cfg, syms), Broken) == Output(cfg, NoFaults(syms))
  {
    var f, raw := Flags(false, false), Raw(cfg, "", syms);
    RawIgnoresFaults(cfg, "", syms);
    MarkedIgnoresFaults(f, raw);
    var end := if Due(After(f, raw)) then [Separator] else [];
    WithoutConcat(Marked(f, raw), end, Broken);
    assert Broken !in end;
  }

  // ---------------------------------------------------------------- the thinking separator

  function FirstReasoning(items: seq<Item>): (k: nat)
    ensures k <= |items| && (k < |items| ==> IsReasoning(items[k]))
    ensures forall j :: 0 <= j < k ==> !IsReasoning(items[j])
  {
    if items == [] || IsReasoning(items[0]) then 0 else 1 + FirstReasoning(items[1..])
  }

  function FirstContent(items: seq<Item>): (k: nat)
    ensures k <= |items| && (k < |items| ==> IsContent(items[k]))
    ensures forall j :: 0 <= j < k ==> !IsContent(items[j])
  {
    if items == [] || IsContent(items[0]) then 0 else 1 + FirstContent(items[1..])
  }

  /** Where the first content after the first reasoning stands, or the end. */
  function Boundary(items: seq<Item>): (k: nat)
    ensures k <= |items|
  {
    FirstReasoning(items) + FirstContent(items[FirstReasoning(items)..])
  }

  function Inserted(items: seq<Item>, k: nat, x: Item): seq<Item>
    requires k <= |items|
  {
    items[..k] + [x] + items[k..]
  }

  lemma InsertedStep(items: seq<Item>, k: nat, x: Item)
    requires items != [] && k < |items|
    ensures [items[0]] + Inserted(items[1..], k, x) == Inserted(items, k + 1, x)
  {
    assert items[..k + 1] == [items[0]] + items[1..][..k];
    assert items[k + 1..] == items[1..][k..];
  }

  lemma {:induction false} NothingDue(f: Flags, items: seq<Item>)
    requires f.boundaryEmitted
    ensures Closed(f, items) == items
    decreases |items|
  {
    if items != [] {
      ClosedHead(f, items);
      NothingDue(Next(f, items[0]), items[1..]);
    }
  }

  lemma ClosedHead(f: Flags, items: seq<Item>)
    requires items != []
    ensures Closed(f, items) == Queued(f, items[0]) + Closed(Next(f, items[0]), items[1..])
  {
    ClosedConcat(f, [items[0]], items[1..]);
    MarkedOne(f, items[0]);
    assert [items[0]] + items[1..] == items;
  }

  lemma {:induction false} SeparatorDue(f: Flags, items: seq<Item>)
    requires Due(f)
    ensures Closed(f, items) == Inserted(items, FirstContent(items), Separator)
    decreases |items|
  {
    if items == [] {
    } else {
      ClosedHead(f, items);
      if IsContent(items[0]) {
        NothingDue(Next(f, items[0]), items[1..]);
        assert Inserted(items, 0, Separator) == [Separator, items[0]] + items[1..];
      } else {
        SeparatorDue(f, items[1..]);
        InsertedStep(items, FirstContent(items[1..]), Separator);
      }
    }
  }

  /**
   * The separator appears exactly when there was reasoning, immediately before the first content
   * that follows it or at the end, and everything else keeps its place.
   */
  lemma {:induction false} SeparatorPlacement(items: seq<Item>)
    ensures FirstReasoning(items) == |items| ==> Closed(Flags(false, false), items) == items
    ensures FirstReasoning(items) < |items| ==>
              Closed(Flags(false, false), items) == Inserted(items, Boundary(items), Separator)
    decreases |items|
  {
    var f := Flags(false, false);
    if items != [] {
      ClosedHead(f, items);
      if IsReasoning(items[0]) {
        SeparatorDue(f.(sawReasoning := true), items[1..]);
        assert items[0..] == items;
        InsertedStep(items, FirstContent(items[1..]), Separator);
      } else {
        SeparatorPlacement(items[1..]);
        if FirstReasoning(items) < |items| {
          BoundaryStep(items);
          InsertedStep(items, Boundary(items[1..]), Separator);
        }
      }
    }
  }

  lemma BoundaryStep(items: seq<Item>)
    requires items != [] && !IsReasoning(items[0])
    ensures Boundary(items) == Boundary(items[1..]) + 1
  {
    var r := FirstReasoning(items[1..]);
    assert items[r + 1..] == items[1..][r..];
  }

  lemma {:induction false} RawIsPlain(cfg: Config, line: string, syms: seq<Symbol>)
    ensures Separator !in Raw(cfg, line, syms)
    ensures forall item :: item in Raw(cfg, line, syms) ==> if cfg.legacy then !item.Frame? else !item.Said?
    decreases |syms|
  {
    LineItemsArePlain(cfg, Payload(line));
    if syms != [] {
      if syms[0].Fault? {
        RawIsPlain(cfg, line, syms[1..]);
      } else if syms[0].c == '\n' {
        RawIsPlain(cfg, "", syms[1..]);
      } else {
        RawIsPlain(cfg, line + [syms[0].c], syms[1..]);
      }
    }
  }

  predicate Reasons(items: seq<Item>) {
    exists i :: 0 <= i < |items| && IsReasoning(items[i])
  }

  /**
   * Over every stream: exactly one separator if some reasoning delta occurred and none otherwise,
   * and deleting it leaves all items in arrival order. Outside legacy mode there never is one.
   */
  lemma SeparatorOnce(cfg: Config, syms: seq<Symbol>)
    ensures
      var raw, out := Raw(cfg, "", syms), Output(cfg, syms);
      && multiset(out)[Separator] == (if Reasons(raw) then 1 else 0)
      && Without(out, Separator) == raw
      && (!cfg.legacy ==> out == raw)
  {
    var raw := Raw(cfg, "", syms);
    RawIsPlain(cfg, "", syms);
    SeparatorPlacement(raw);
    if FirstReasoning(raw) < |raw| {
      InsertedOnce(raw, Boundary(raw), Separator);
    }
  }

  lemma InsertedOnce(items: seq<Item>, k: nat, x: Item)
    requires k <= |items| && x !in items
    ensures Without(Inserted(items, k, x), x) == items && multiset(Inserted(items, k, x))[x] == 1
  {
    var a, b := items[..k], items[k..];
    assert items == a + b;
    WithoutConcat(a + [x], b, x);
    WithoutConcat(a, [x], x);
    assert Without([x], x) == [];
    assert multiset(a + [x] + b) == multiset(a) + multiset{x} + multiset(b);
  }
}

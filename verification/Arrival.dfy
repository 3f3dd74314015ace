/**
 * When legacy frames depend on the text alone. The re-chunking loop cuts `n` characters whenever at
 * least `n` bytes are pending, so a delta boundary inside a block of wide characters can cut early.
 */
module Arrival {
  import opened Collections
  import opened Rechunk
  import opened RechunkFacts

  /** In every block of `n` characters, all but the last character stay under `n` bytes. */
  predicate Steady(w: string, n: nat)
    requires n >= 1
    decreases |w|
  {
    w == "" || (Utf8Len(w[..Min(n, |w|) - 1]) < n && Steady(Back(w, n), n))
  }

  lemma {:induction false} BytesConcat(a: string, b: string)
    ensures Utf8Len(a + b) == Utf8Len(a) + Utf8Len(b)
  {
    if a == "" {
      assert a + b == b;
    } else {
      assert (a + b)[0] == a[0] && (a + b)[1..] == a[1..] + b;
      BytesConcat(a[1..], b);
    }
  }

  lemma PrefixBytes(s: string, i: nat, j: nat)
    requires i <= j <= |s|
    ensures Utf8Len(s[..i]) <= Utf8Len(s[..j])
  {
    BytesConcat(s[..i], s[i..j]);
    assert s[..i] + s[i..j] == s[..j];
  }

  lemma {:induction false} LeftoverIsShort(s: string, n: nat)
    requires n >= 1
    ensures Utf8Len(Leftover(s, n)) < n && Pieces(Leftover(s, n), n) == []
    decreases |s|
  {
    if Utf8Len(s) >= n {
      LeftoverIsShort(Back(s, n), n);
    }
  }

  // ---------------------------------------------------------------- steady text

  lemma {:induction false} SteadyPrefix(a: string, b: string, n: nat)
    requires n >= 1 && Steady(a + b, n)
    ensures Steady(a, n)
    decreases |a|
  {
    if a != "" {
      var w := a + b;
      var i, j := Min(n, |a|) - 1, Min(n, |w|) - 1;
      PrefixBytes(w, i, j);
      assert w[..i] == a[..i];
      if |a| >= n {
        assert Back(w, n) == Back(a, n) + b;
        SteadyPrefix(Back(a, n), b, n);
      }
    }
  }

  /** Less than a block is not cut before the text ends. */
  lemma ShortIsKept(a: string, b: string, n: nat)
    requires n >= 1 && Steady(a + b, n) && |a| < n && b != ""
    ensures Utf8Len(a) < n
  {
    var w := a + b;
    PrefixBytes(w, |a|, Min(n, |w|) - 1);
    assert w[..|a|] == a;
  }

  /** Cutting steady text before the rest of it arrives changes nothing. */
  lemma {:induction false} CutBeforeRest(a: string, b: string, n: nat)
    requires n >= 1 && Steady(a + b, n)
    ensures Pieces(a + b, n) == Pieces(a, n) + Pieces(Leftover(a, n) + b, n)
    ensures Leftover(a + b, n) == Leftover(Leftover(a, n) + b, n)
    decreases |a|
  {
    if |a| >= n {
      var w := a + b;
      assert Front(w, n) == Front(a, n) && Back(w, n) == Back(a, n) + b;
      CutBeforeRest(Back(a, n), b, n);
      Regroup([Front(a, n)], Pieces(Back(a, n), n), Pieces(Leftover(a, n) + b, n));
    } else if b == "" {
      CutAtEnd(a, n);
      assert a + b == a && Leftover(a, n) + b == Leftover(a, n);
    } else {
      ShortIsKept(a, b, n);
    }
  }

  lemma CutAtEnd(a: string, n: nat)
    requires n >= 1
    ensures Pieces(a, n) == Pieces(a, n) + Pieces(Leftover(a, n), n)
    ensures Leftover(a, n) == Leftover(Leftover(a, n), n)
  {
    LeftoverIsShort(a, n);
  }

  lemma {:induction false} SteadyFeed(setup: Setup, texts: seq<string>)
    requires setup.legacy && Steady(Concat(texts), ChunkSize(setup))
    ensures Feed(setup, texts) == Fed(Pieces(Concat(texts), ChunkSize(setup)), Leftover(Concat(texts), ChunkSize(setup)))
  {
    if texts != [] {
      var front, last := texts[..|texts| - 1], texts[|texts| - 1];
      SteadyPrefix(Concat(front), last, ChunkSize(setup));
      SteadyFeed(setup, front);
      CutBeforeRest(Concat(front), last, ChunkSize(setup));
    }
  }

  // ---------------------------------------------------------------- unsteady text

  /** The pieces of a text that arrives in two parts. */
  function CutTwice(a: string, b: string, n: nat): seq<string>
    requires n >= 1
  {
    Pieces(a, n) + Pieces(Leftover(a, n) + b, n)
  }

  /** Enough bytes in fewer characters than a block are cut off at once. */
  lemma EarlyCut(w: string, n: nat, k: nat)
    requires n >= 1 && k < n && k < |w| && Utf8Len(w[..k]) >= n
    ensures CutTwice(w[..k], w[k..], n) != Pieces(w, n)
  {
    PrefixBytes(w, k, |w|);
    assert w[..|w|] == w;
    assert Pieces(w[..k], n)[0] == w[..k];
    assert Pieces(w, n)[0] == Front(w, n);
    assert |Front(w, n)| > k;
  }

  lemma FirstBlock(w: string, n: nat, k: nat)
    requires 1 <= n <= |w| && k <= |w| - n
    ensures Pieces(w[..n + k], n) == [Front(w, n)] + Pieces(Back(w, n)[..k], n)
    ensures Leftover(w[..n + k], n) == Leftover(Back(w, n)[..k], n)
  {
    var a := w[..n + k];
    assert Front(a, n) == Front(w, n) && Back(a, n) == Back(w, n)[..k];
  }

  lemma SplitLater(w: string, n: nat, k: nat)
    requires 1 <= n <= |w| && k <= |w| - n
    requires CutTwice(Back(w, n)[..k], Back(w, n)[k..], n) != Pieces(Back(w, n), n)
    ensures CutTwice(w[..n + k], w[n + k..], n) != Pieces(w, n)
  {
    var x, back := Front(w, n), Back(w, n);
    FirstBlock(w, n, k);
    assert w[n + k..] == back[k..];
    Regroup([x], Pieces(back[..k], n), Pieces(Leftover(back[..k], n) + back[k..], n));
    assert ([x] + CutTwice(back[..k], back[k..], n))[1..] == CutTwice(back[..k], back[k..], n);
    assert ([x] + Pieces(back, n))[1..] == Pieces(back, n);
  }

  /** Text that is not steady can arrive in two parts so that it is cut elsewhere. */
  lemma {:induction false} UnsteadySplit(w: string, n: nat) returns (k: nat)
    requires n >= 1 && !Steady(w, n)
    ensures k <= |w| && CutTwice(w[..k], w[k..], n) != Pieces(w, n)
    decreases |w|
  {
    var m := Min(n, |w|);
    if Utf8Len(w[..m - 1]) >= n {
      k := m - 1;
      EarlyCut(w, n, k);
    } else {
      assert !Steady(Back(w, n), n);
      var k' := UnsteadySplit(Back(w, n), n);
      k := n + k';
      SplitLater(w, n, k');
    }
  }

  lemma FeedOneText(setup: Setup, a: string)
    requires setup.legacy
    ensures Feed(setup, [a]) == Fed(Pieces(a, ChunkSize(setup)), Leftover(a, ChunkSize(setup)))
  {
    assert [a][..0] == [] && Feed(setup, []) == Fed([], "");
    assert "" + a == a;
    assert [] + Pieces(a, ChunkSize(setup)) == Pieces(a, ChunkSize(setup));
  }

  lemma FeedTwoTexts(setup: Setup, a: string, b: string)
    requires setup.legacy
    ensures Feed(setup, [a, b]).pieces == CutTwice(a, b, ChunkSize(setup))
  {
    assert [a, b][..1] == [a];
    FeedOneText(setup, a);
  }

  lemma ConcatSplit(w: string, k: nat)
    requires k <= |w|
    ensures Concat([w[..k], w[k..]]) == w
  {
    ConcatOne(w[..k]);
    assert [w[..k], w[k..]][..1] == [w[..k]];
    assert w[..k] + w[k..] == w;
  }

  // ---------------------------------------------------------------- the exact condition

  ghost predicate IgnoresArrival(setup: Setup, w: string) {
    forall texts :: Concat(texts) == w ==> Feed(setup, texts).pieces == Feed(setup, [w]).pieces
  }

  /** Legacy frames of a text are the same for every way it can arrive if and only if it is steady. */
  lemma ArrivalIsIgnoredExactlyWhenSteady(setup: Setup, w: string)
    requires setup.legacy
    ensures IgnoresArrival(setup, w) <==> Steady(w, ChunkSize(setup))
  {
    FeedOneText(setup, w);
    if Steady(w, ChunkSize(setup)) {
      forall texts | Concat(texts) == w
        ensures Feed(setup, texts).pieces == Feed(setup, [w]).pieces
      {
        SteadyFeed(setup, texts);
      }
    } else {
      var texts := UnsteadyTexts(setup, w);
    }
  }

  lemma UnsteadyTexts(setup: Setup, w: string) returns (texts: seq<string>)
    requires setup.legacy && !Steady(w, ChunkSize(setup))
    ensures Concat(texts) == w && Feed(setup, texts).pieces != Pieces(w, ChunkSize(setup))
  {
    var k := UnsteadySplit(w, ChunkSize(setup));
    ConcatSplit(w, k);
    FeedTwoTexts(setup, w[..k], w[k..]);
    texts := [w[..k], w[k..]];
  }

  predicate Ascii(s: string) {
    forall i :: 0 <= i < |s| ==> s[i] < '\U{80}'
  }

  lemma {:induction false} AsciiBytes(s: string)
    requires Ascii(s)
    ensures Utf8Len(s) == |s|
  {
    if s != "" {
      AsciiBytes(s[1..]);
    }
  }

  lemma {:induction false} AsciiIsSteady(w: string, n: nat)
    requires n >= 1 && Ascii(w)
    ensures Steady(w, n)
    decreases |w|
  {
    if w != "" {
      AsciiBytes(w[..Min(n, |w|) - 1]);
      AsciiIsSteady(Back(w, n), n);
    }
  }

  lemma {:induction false} SingleIsSteady(w: string)
    ensures Steady(w, 1)
  {
    if w != "" {
      SingleIsSteady(Back(w, 1));
    }
  }

  /** On ASCII text, and with chunks of one character on every text, arrival never matters. */
  lemma AsciiFeed(setup: Setup, w: string)
    requires setup.legacy && (Ascii(w) || ChunkSize(setup) == 1)
    ensures IgnoresArrival(setup, w)
  {
    if Ascii(w) {
      AsciiIsSteady(w, ChunkSize(setup));
    } else {
      SingleIsSteady(w);
    }
    ArrivalIsIgnoredExactlyWhenSteady(setup, w);
  }

  lemma {:induction false} WideBytes(s: string)
    requires forall i :: 0 <= i < |s| ==> CharBytes(s[i]) >= 2
    ensures Utf8Len(s) >= 2 * |s|
  {
    if s != "" {
      WideBytes(s[1..]);
    }
  }

  /** With chunks of two or more characters, a chunk of wide characters can arrive so as to be cut early. */
  lemma ArrivalMatters(setup: Setup, w: string)
    requires setup.legacy && |w| == ChunkSize(setup) >= 2 && forall i :: 0 <= i < |w| ==> CharBytes(w[i]) >= 2
    ensures !IgnoresArrival(setup, w)
  {
    WideBytes(w[..|w| - 1]);
    assert !Steady(w, ChunkSize(setup));
    ArrivalIsIgnoredExactlyWhenSteady(setup, w);
  }
}

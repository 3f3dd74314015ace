/**
 * Evidence for an epoch: the 64 bytes of report data are a hash over NUL-joined fields, and a
 * receiver recomputes them from the claims before it compares the claims with a registration.
 */
module EpochEvidence {
  import opened Collections
  import opened Text

  type Bytes = seq<bv8>

  datatype QuoteEpochClaims = QuoteEpochClaims(engineId: string, epochId: string, notBefore: string, notAfter: string,
                                               mlkemKey: string, x25519Public: string, usageSigningPublic: string)

  /** The claims that enter the binding. */
  datatype QuoteClaims = QuoteClaims(ed25519Public: string, tlsCertSha256: string, engineSha256: string,
                                     vllmSha256: string, issuedAt: string, epoch: Option<QuoteEpochClaims>)

  /** `reportData` is what the base64 field decodes to, if it decodes. */
  datatype SevSnpQuoteWrapper = SevSnpQuoteWrapper(reportData: Option<Bytes>, claims: QuoteClaims)

  /** What a quote is bound to besides its keys. */
  datatype Scope = Scope(tlsCertSha256: string, engineSha256: string, vllmSha256: string, issuedAt: string,
                         nonce: Option<string>)

  // ---------------------------------------------------------------- canonical form

  const Nul: char := '\0'
  const ConnectTag: string := "teechat-sev-snp-bind-v1"
  const EpochTag: string := "teechat-sev-snp-bind-v2"

  predicate NulFree(s: string) {
    Nul !in s
  }

  function LowerChar(c: char): char {
    if 'A' <= c <= 'Z' then (c as int + 32) as char else c
  }

  /** `to_ascii_lowercase`. */
  function Lower(s: string): (r: string)
    ensures |r| == |s| && forall i :: 0 <= i < |s| ==> r[i] == LowerChar(s[i])
  {
    seq(|s|, i requires 0 <= i < |s| => LowerChar(s[i]))
  }

  function Joined(fields: seq<string>): string {
    if fields == [] then ""
    else if |fields| == 1 then fields[0]
    else fields[0] + [Nul] + Joined(fields[1..])
  }

  function ScopeFields(s: Scope): seq<string> {
    [Lower(s.tlsCertSha256), Lower(s.engineSha256), Lower(s.vllmSha256), s.issuedAt, s.nonce.GetOr("")]
  }

  function EpochFields(e: QuoteEpochClaims): seq<string> {
    [e.engineId, e.epochId, e.notBefore, e.notAfter, e.mlkemKey, e.x25519Public, e.usageSigningPublic]
  }

  /** What connect-scoped report data is hashed from. */
  function ConnectPreimage(ed25519Public: string, s: Scope): string {
    Joined([ConnectTag, ed25519Public] + ScopeFields(s))
  }

  /** What epoch-scoped report data is hashed from. */
  function EpochPreimage(e: QuoteEpochClaims, s: Scope): string {
    Joined([EpochTag] + (EpochFields(e) + ScopeFields(s)))
  }

  function BindReportData(sha512: string -> Bytes, ed25519Public: string, s: Scope): Bytes {
    sha512(ConnectPreimage(ed25519Public, s))
  }

  function BindEpochReportData(sha512: string -> Bytes, e: QuoteEpochClaims, s: Scope): Bytes {
    sha512(EpochPreimage(e, s))
  }

  function ScopeOf(claims: QuoteClaims, nonce: Option<string>): Scope {
    Scope(claims.tlsCertSha256, claims.engineSha256, claims.vllmSha256, claims.issuedAt, nonce)
  }

  function ClaimedPreimage(claims: QuoteClaims, nonce: Option<string>): string {
    if claims.epoch.Some? then EpochPreimage(claims.epoch.value, ScopeOf(claims, nonce))
    else ConnectPreimage(claims.ed25519Public, ScopeOf(claims, nonce))
  }

  predicate VerifyWrapperReportData(sha512: string -> Bytes, w: SevSnpQuoteWrapper, nonce: Option<string>) {
    && w.reportData.Some?
    && |w.reportData.value| == 64
    && w.reportData.value
       == if w.claims.epoch.Some? then BindEpochReportData(sha512, w.claims.epoch.value, ScopeOf(w.claims, nonce))
          else BindReportData(sha512, w.claims.ed25519Public, ScopeOf(w.claims, nonce))
  }

  // ---------------------------------------------------------------- joining is injective

  ghost predicate AllNulFree(fields: seq<string>) {
    forall i :: 0 <= i < |fields| ==> NulFree(fields[i])
  }

  lemma FirstNul(x: string, r: string, y: string, s: string)
    requires NulFree(x) && NulFree(y) && x + [Nul] + r == y + [Nul] + s
    ensures x == y && r == s
  {
    var all := x + [Nul] + r;
    assert all[|x|] == Nul && all[|y|] == Nul;
    assert forall i :: 0 <= i < |x| ==> all[i] == x[i] != Nul;
    assert forall i :: 0 <= i < |y| ==> all[i] == y[i] != Nul;
    assert |x| == |y|;
    assert x == all[..|x|] && y == all[..|y|];
    assert r == all[|x| + 1..] && s == all[|y| + 1..];
  }

  /** How many NULs a text holds. */
  function Nuls(s: string): nat {
    multiset(s)[Nul]
  }

  lemma NulsConcat(a: string, b: string)
    ensures Nuls(a + b) == Nuls(a) + Nuls(b)
  {
  }

  lemma NulsHead(x: string, more: string)
    ensures Nuls(x + [Nul] + more) == Nuls(x) + 1 + Nuls(more)
    ensures NulFree(x) <==> Nuls(x) == 0
  {
    NulsConcat(x + [Nul], more);
    NulsConcat(x, [Nul]);
  }

  lemma AllNulFreeHead(a: seq<string>)
    requires a != []
    ensures AllNulFree(a) <==> NulFree(a[0]) && AllNulFree(a[1..])
  {
    assert a == [a[0]] + a[1..];
  }

  lemma JoinedHead(a: seq<string>, r: seq<string>)
    requires a != [] && r != []
    ensures Joined(a + r) == a[0] + [Nul] + Joined(a[1..] + r)
  {
    assert (a + r)[0] == a[0] && (a + r)[1..] == a[1..] + r;
  }

  lemma {:induction false} NulsInRest(a: seq<string>, r: seq<string>)
    requires r != []
    ensures Nuls(Joined(a + r)) >= |a| + Nuls(Joined(r))
    ensures Nuls(Joined(a + r)) == |a| + Nuls(Joined(r)) <==> AllNulFree(a)
  {
    if a == [] {
      assert a + r == r;
    } else {
      NulsInRest(a[1..], r);
      JoinedHead(a, r);
      NulsHead(a[0], Joined(a[1..] + r));
      AllNulFreeHead(a);
    }
  }

  /** NUL-free fields at the front of two joined forms are the same fields, and so are the rests. */
  lemma {:induction false} JoinedFront(a: seq<string>, r: seq<string>, b: seq<string>, t: seq<string>)
    requires |a| == |b| && r != [] && t != [] && AllNulFree(a) && AllNulFree(b)
    requires Joined(a + r) == Joined(b + t)
    ensures a == b && Joined(r) == Joined(t)
  {
    if a == [] {
      assert a + r == r && b + t == t;
    } else {
      assert (a + r)[0] == a[0] && (a + r)[1..] == a[1..] + r;
      assert (b + t)[0] == b[0] && (b + t)[1..] == b[1..] + t;
      FirstNul(a[0], Joined(a[1..] + r), b[0], Joined(b[1..] + t));
      JoinedFront(a[1..], r, b[1..], t);
      assert a == [a[0]] + a[1..] && b == [b[0]] + b[1..];
    }
  }

  /** A joined form holds one NUL per separator, and more exactly when some field holds one. */
  lemma NulsInAll(a: seq<string>)
    requires a != []
    ensures Nuls(Joined(a)) == |a| - 1 <==> AllNulFree(a)
  {
    var n := |a| - 1;
    var front, last := a[..n], a[n];
    assert a == front + [last];
    NulsInRest(front, [last]);
    assert Joined([last]) == last;
    assert NulFree(last) <==> Nuls(last) == 0;
  }

  lemma {:induction false} JoinedSame(a: seq<string>, b: seq<string>)
    requires |a| == |b| && AllNulFree(a) && AllNulFree(b) && Joined(a) == Joined(b)
    ensures a == b
  {
    if |a| > 1 {
      FirstNul(a[0], Joined(a[1..]), b[0], Joined(b[1..]));
      JoinedSame(a[1..], b[1..]);
      assert a == [a[0]] + a[1..] && b == [b[0]] + b[1..];
    }
  }

  /** Fields without NUL can be told from any other fields by their joined form. */
  lemma JoinedInjective(a: seq<string>, b: seq<string>)
    requires |a| == |b| && AllNulFree(a) && Joined(a) == Joined(b)
    ensures a == b
  {
    if a != [] {
      NulsInAll(a);
      NulsInAll(b);
      JoinedSame(a, b);
    }
  }

  /** With equal rests, NUL-free fields can be told from any other fields, whatever the rest holds. */
  lemma JoinedInjectiveBefore(a: seq<string>, b: seq<string>, r: seq<string>)
    requires |a| == |b| && r != [] && AllNulFree(a) && Joined(a + r) == Joined(b + r)
    ensures a == b
  {
    NulsInRest(a, r);
    NulsInRest(b, r);
    JoinedFront(a, r, b, r);
  }

  /** Two neighbouring fields may be split at another NUL without changing the joined form. */
  lemma {:induction false} Resplit(front: seq<string>, x: string, y: string, x': string, y': string, r: seq<string>)
    requires r != [] && x + [Nul] + y == x' + [Nul] + y'
    ensures Joined(front + [x, y] + r) == Joined(front + [x', y'] + r)
  {
    if front == [] {
      JoinedTwo(x, y, r);
      JoinedTwo(x', y', r);
    } else {
      var f, g := front + [x, y] + r, front + [x', y'] + r;
      assert f[0] == g[0] == front[0];
      assert f[1..] == front[1..] + [x, y] + r && g[1..] == front[1..] + [x', y'] + r;
      Resplit(front[1..], x, y, x', y', r);
    }
  }

  lemma JoinedTwo(x: string, y: string, r: seq<string>)
    requires r != []
    ensures Joined([] + [x, y] + r) == x + [Nul] + y + ([Nul] + Joined(r))
  {
    var f := [x, y] + r;
    assert [] + [x, y] + r == f && f[1..] == [y] + r && f[1..][1..] == r;
    assert x + [Nul] + (y + [Nul] + Joined(r)) == x + [Nul] + y + ([Nul] + Joined(r));
  }

  // ---------------------------------------------------------------- what report data determines

  ghost predicate NulFreeScope(s: Scope) {
    NulFree(s.tlsCertSha256) && NulFree(s.engineSha256) && NulFree(s.vllmSha256) && NulFree(s.issuedAt)
    && NulFree(s.nonce.GetOr(""))
  }

  ghost predicate NulFreeEpoch(e: QuoteEpochClaims) {
    AllNulFree(EpochFields(e))
  }

  /** The same letter of the ASCII alphabet in either case, or the same character. */
  predicate CaseVariant(a: char, b: char) {
    || a == b
    || ('A' <= a <= 'Z' && b as int == a as int + ('a' as int - 'A' as int))
    || ('A' <= b <= 'Z' && a as int == b as int + ('a' as int - 'A' as int))
  }

  predicate EqualUpToCase(a: string, b: string) {
    |a| == |b| && forall i :: 0 <= i < |a| ==> CaseVariant(a[i], b[i])
  }

  lemma LowerMeaning(a: string, b: string)
    ensures Lower(a) == Lower(b) <==> EqualUpToCase(a, b)
  {
    if Lower(a) == Lower(b) {
      assert |a| == |b|;
      forall i | 0 <= i < |a|
        ensures CaseVariant(a[i], b[i])
      {
        assert Lower(a)[i] == Lower(b)[i];
      }
    }
  }

  /** Equal up to the ASCII case of the hex digests; an absent nonce is an empty one. */
  predicate SameScope(a: Scope, b: Scope) {
    && EqualUpToCase(a.tlsCertSha256, b.tlsCertSha256)
    && EqualUpToCase(a.engineSha256, b.engineSha256)
    && EqualUpToCase(a.vllmSha256, b.vllmSha256)
    && a.issuedAt == b.issuedAt && a.nonce.GetOr("") == b.nonce.GetOr("")
  }

  lemma LowerNulFree(s: string)
    requires NulFree(s)
    ensures NulFree(Lower(s))
  {
  }

  lemma ScopeFieldsNulFree(s: Scope)
    requires NulFreeScope(s)
    ensures AllNulFree(ScopeFields(s))
  {
    LowerNulFree(s.tlsCertSha256);
    LowerNulFree(s.engineSha256);
    LowerNulFree(s.vllmSha256);
  }

  lemma ScopeFieldsDetermine(a: Scope, b: Scope)
    ensures ScopeFields(a) == ScopeFields(b) <==> SameScope(a, b)
  {
    var x, y := ScopeFields(a), ScopeFields(b);
    LowerMeaning(a.tlsCertSha256, b.tlsCertSha256);
    LowerMeaning(a.engineSha256, b.engineSha256);
    LowerMeaning(a.vllmSha256, b.vllmSha256);
    if x == y {
      assert x[0] == y[0] && x[1] == y[1] && x[2] == y[2] && x[3] == y[3] && x[4] == y[4];
    }
  }

  lemma EpochFieldsDetermine(a: QuoteEpochClaims, b: QuoteEpochClaims)
    requires EpochFields(a) == EpochFields(b)
    ensures a == b
  {
    var x, y := EpochFields(a), EpochFields(b);
    assert x[0] == y[0] && x[1] == y[1] && x[2] == y[2] && x[3] == y[3];
    assert x[4] == y[4] && x[5] == y[5] && x[6] == y[6];
  }

  lemma SplitFields(a: seq<string>, b: seq<string>, c: seq<string>, d: seq<string>)
    requires |a| == |c| && a + b == c + d
    ensures a == c && b == d
  {
    assert a == (a + b)[..|a|] && c == (c + d)[..|c|];
    assert b == (a + b)[|a|..] && d == (c + d)[|c|..];
  }

  lemma TaggedNulFree(tag: string, fields: seq<string>)
    requires NulFree(tag) && AllNulFree(fields)
    ensures AllNulFree([tag] + fields)
  {
  }

  /** Preimages equal to that of an honest binding come from the same epoch and the same scope. */
  lemma PreimageDetermines(a: QuoteEpochClaims, s: Scope, b: QuoteEpochClaims, t: Scope)
    requires NulFreeEpoch(a) && NulFreeScope(s)
    ensures EpochPreimage(a, s) == EpochPreimage(b, t) <==> a == b && SameScope(s, t)
  {
    var x, y := EpochFields(a) + ScopeFields(s), EpochFields(b) + ScopeFields(t);
    ScopeFieldsDetermine(s, t);
    if EpochPreimage(a, s) == EpochPreimage(b, t) {
      ScopeFieldsNulFree(s);
      TaggedNulFree(EpochTag, x);
      JoinedInjective([EpochTag] + x, [EpochTag] + y);
      SplitFields([EpochTag], x, [EpochTag], y);
      SplitFields(EpochFields(a), ScopeFields(s), EpochFields(b), ScopeFields(t));
      EpochFieldsDetermine(a, b);
    }
  }

  /** The epoch whose fields these are. */
  function FromFields(f: seq<string>): (e: QuoteEpochClaims)
    requires |f| == 7
    ensures EpochFields(e) == f
  {
    QuoteEpochClaims(f[0], f[1], f[2], f[3], f[4], f[5], f[6])
  }

  /** A NUL in some field is another place to split two neighbouring fields. */
  lemma OtherSplit(f: seq<string>, i: nat) returns (k: nat, x: string, y: string)
    requires |f| >= 2 && i < |f| && !NulFree(f[i])
    ensures k + 1 < |f| && x + [Nul] + y == f[k] + [Nul] + f[k + 1] && x != f[k]
  {
    var j :| 0 <= j < |f[i]| && f[i][j] == Nul;
    var u, v := f[i][..j], f[i][j + 1..];
    assert f[i] == u + [Nul] + v;
    if i + 1 < |f| {
      k, x, y := i, u, v + [Nul] + f[i + 1];
      assert |x| < |f[k]|;
    } else {
      k, x, y := i - 1, f[i - 1] + [Nul] + u, v;
      assert |x| > |f[k]|;
    }
  }

  /** Every epoch with a NUL in some field shares its preimage with another epoch. */
  lemma NulConfusesEpochs(a: QuoteEpochClaims, s: Scope) returns (b: QuoteEpochClaims)
    requires !NulFreeEpoch(a)
    ensures b != a && EpochPreimage(b, s) == EpochPreimage(a, s)
  {
    var f := EpochFields(a);
    var i :| 0 <= i < |f| && !NulFree(f[i]);
    var k, x, y := OtherSplit(f, i);
    var g := f[k := x][k + 1 := y];
    b := FromFields(g);
    assert g[k] != f[k];
    var tag, t := [EpochTag], ScopeFields(s);
    AroundPair(tag, f, t, k);
    AroundPair(tag, g, t, k);
    assert g[..k] == f[..k] && g[k + 2..] == f[k + 2..];
    Resplit(tag + f[..k], f[k], f[k + 1], x, y, f[k + 2..] + t);
  }

  lemma AroundPair(tag: seq<string>, f: seq<string>, t: seq<string>, k: nat)
    requires k + 1 < |f|
    ensures tag + (f + t) == (tag + f[..k]) + [f[k], f[k + 1]] + (f[k + 2..] + t)
  {
  }

  /** An epoch is determined by its preimage, in whatever scope, if and only if its fields hold no NUL. */
  lemma DeterminedExactlyWhenNulFree(a: QuoteEpochClaims, s: Scope)
    ensures (forall b :: EpochPreimage(b, s) == EpochPreimage(a, s) ==> b == a) <==> NulFreeEpoch(a)
  {
    if NulFreeEpoch(a) {
      TaggedNulFree(EpochTag, EpochFields(a));
      forall b | EpochPreimage(b, s) == EpochPreimage(a, s)
        ensures b == a
      {
        Tagged(a, s);
        Tagged(b, s);
        JoinedInjectiveBefore([EpochTag] + EpochFields(a), [EpochTag] + EpochFields(b), ScopeFields(s));
        SplitFields([EpochTag], EpochFields(a), [EpochTag], EpochFields(b));
        EpochFieldsDetermine(a, b);
      }
    } else {
      var b := NulConfusesEpochs(a, s);
    }
  }

  lemma Tagged(e: QuoteEpochClaims, s: Scope)
    ensures EpochPreimage(e, s) == Joined(([EpochTag] + EpochFields(e)) + ScopeFields(s))
  {
    assert [EpochTag] + (EpochFields(e) + ScopeFields(s)) == ([EpochTag] + EpochFields(e)) + ScopeFields(s);
  }

  /** The domain strings alone keep the two kinds of report data apart, whatever the fields hold. */
  lemma KindsDiffer(e: QuoteEpochClaims, s: Scope, ed25519Public: string, t: Scope)
    ensures EpochPreimage(e, s) != ConnectPreimage(ed25519Public, t)
  {
    HeadOf(EpochTag, EpochFields(e) + ScopeFields(s));
    HeadOf(ConnectTag, [ed25519Public] + ScopeFields(t));
    assert [ConnectTag, ed25519Public] + ScopeFields(t)
        == [ConnectTag] + ([ed25519Public] + ScopeFields(t));
    assert EpochPreimage(e, s)[22] == '2' && ConnectPreimage(ed25519Public, t)[22] == '1';
  }

  lemma HeadOf(tag: string, fields: seq<string>)
    requires fields != []
    ensures tag <= Joined([tag] + fields)
  {
    assert ([tag] + fields)[0] == tag && ([tag] + fields)[1..] == fields;
  }

  // ---------------------------------------------------------------- the layout of a preimage

  /** The fields of a text, split at every NUL. */
  function SplitAtNul(s: string): seq<string> {
    if s == "" then [""]
    else
      var rest := SplitAtNul(s[1..]);
      if s[0] == Nul then [""] + rest else [[s[0]] + rest[0]] + rest[1..]
  }

  lemma {:induction false} SplitField(x: string, more: string)
    requires NulFree(x)
    ensures SplitAtNul(x) == [x]
    ensures SplitAtNul(x + [Nul] + more) == [x] + SplitAtNul(more)
  {
    if x == "" {
      assert "" + [Nul] + more == [Nul] + more;
      assert ([Nul] + more)[1..] == more;
    } else {
      var all := x + [Nul] + more;
      assert all[0] == x[0] && all[1..] == x[1..] + [Nul] + more;
      SplitField(x[1..], more);
      assert [x[0]] + x[1..] == x;
    }
  }

  /** Joining and splitting again gives the fields back. */
  lemma {:induction false} SplitJoined(fields: seq<string>)
    requires fields != [] && AllNulFree(fields)
    ensures SplitAtNul(Joined(fields)) == fields
  {
    if |fields| == 1 {
      SplitField(fields[0], "");
    } else {
      SplitJoined(fields[1..]);
      SplitField(fields[0], Joined(fields[1..]));
    }
  }

  /** The thirteen fields of an epoch preimage, in their order. */
  lemma EpochLayout(e: QuoteEpochClaims, s: Scope)
    requires NulFreeEpoch(e) && NulFreeScope(s)
    ensures SplitAtNul(EpochPreimage(e, s))
            == ["teechat-sev-snp-bind-v2", e.engineId, e.epochId, e.notBefore, e.notAfter, e.mlkemKey, e.x25519Public,
                e.usageSigningPublic, Lower(s.tlsCertSha256), Lower(s.engineSha256), Lower(s.vllmSha256), s.issuedAt,
                s.nonce.GetOr("")]
  {
    ScopeFieldsNulFree(s);
    TaggedNulFree(EpochTag, EpochFields(e) + ScopeFields(s));
    SplitJoined([EpochTag] + (EpochFields(e) + ScopeFields(s)));
    AllFields(e, s);
  }

  lemma AllFields(e: QuoteEpochClaims, s: Scope)
    ensures [EpochTag] + (EpochFields(e) + ScopeFields(s))
            == [EpochTag, e.engineId, e.epochId, e.notBefore, e.notAfter, e.mlkemKey, e.x25519Public,
                e.usageSigningPublic, Lower(s.tlsCertSha256), Lower(s.engineSha256), Lower(s.vllmSha256), s.issuedAt,
                s.nonce.GetOr("")]
  {
  }

  /** The seven fields of a connect preimage, in their order. */
  lemma ConnectLayout(ed25519Public: string, s: Scope)
    requires NulFree(ed25519Public) && NulFreeScope(s)
    ensures SplitAtNul(ConnectPreimage(ed25519Public, s))
            == ["teechat-sev-snp-bind-v1", ed25519Public, Lower(s.tlsCertSha256), Lower(s.engineSha256),
                Lower(s.vllmSha256), s.issuedAt, s.nonce.GetOr("")]
  {
    var fields := [ConnectTag, ed25519Public] + ScopeFields(s);
    ScopeFieldsNulFree(s);
    TaggedNulFree(ed25519Public, ScopeFields(s));
    TaggedNulFree(ConnectTag, [ed25519Public] + ScopeFields(s));
    ConnectFields(ed25519Public, s);
    SplitJoined(fields);
  }

  lemma ConnectFields(ed25519Public: string, s: Scope)
    ensures [ConnectTag, ed25519Public] + ScopeFields(s) == [ConnectTag] + ([ed25519Public] + ScopeFields(s))
    ensures [ConnectTag, ed25519Public] + ScopeFields(s)
            == [ConnectTag, ed25519Public, Lower(s.tlsCertSha256), Lower(s.engineSha256), Lower(s.vllmSha256),
                s.issuedAt, s.nonce.GetOr("")]
  {
  }

  // ---------------------------------------------------------------- verification

  /** The hash yields 64 bytes and does not collide on these two preimages. */
  ghost predicate SoundHash(sha512: string -> Bytes, a: string, b: string) {
    |sha512(a)| == 64 && |sha512(b)| == 64 && (sha512(a) == sha512(b) ==> a == b)
  }

  /**
   * Report data bound for an epoch verifies against exactly the claims that carry that epoch, the
   * same issue time and nonce, and the same digests up to case. Nothing is asked of the claims.
   */
  lemma EpochDataVerifies(sha512: string -> Bytes, a: QuoteEpochClaims, s: Scope, claims: QuoteClaims,
                          nonce: Option<string>)
    requires NulFreeEpoch(a) && NulFreeScope(s)
    requires SoundHash(sha512, EpochPreimage(a, s), ClaimedPreimage(claims, nonce))
    ensures VerifyWrapperReportData(sha512, SevSnpQuoteWrapper(Some(BindEpochReportData(sha512, a, s)), claims), nonce)
            <==> claims.epoch == Some(a) && SameScope(s, ScopeOf(claims, nonce))
  {
    var t := ScopeOf(claims, nonce);
    if claims.epoch.Some? {
      PreimageDetermines(a, s, claims.epoch.value, t);
    } else {
      KindsDiffer(a, s, claims.ed25519Public, t);
    }
  }

  /** Connect preimages equal to that of an honest binding carry the same key and the same scope. */
  lemma ConnectPreimageDetermines(a: string, s: Scope, b: string, t: Scope)
    requires NulFree(a) && NulFreeScope(s)
    ensures ConnectPreimage(a, s) == ConnectPreimage(b, t) <==> a == b && SameScope(s, t)
  {
    var x, y := [ConnectTag, a] + ScopeFields(s), [ConnectTag, b] + ScopeFields(t);
    ScopeFieldsDetermine(s, t);
    if ConnectPreimage(a, s) == ConnectPreimage(b, t) {
      ScopeFieldsNulFree(s);
      TaggedNulFree(a, ScopeFields(s));
      TaggedNulFree(ConnectTag, [a] + ScopeFields(s));
      assert x == [ConnectTag] + ([a] + ScopeFields(s));
      JoinedInjective(x, y);
      SplitFields([ConnectTag, a], ScopeFields(s), [ConnectTag, b], ScopeFields(t));
      assert [ConnectTag, a][1] == [ConnectTag, b][1];
    }
  }

  /**
   * Connect-scoped report data verifies against exactly the claims that carry no epoch, the same
   * ed25519 key, issue time and nonce, and the same digests up to case.
   */
  lemma ConnectDataVerifies(sha512: string -> Bytes, ed25519Public: string, s: Scope, claims: QuoteClaims,
                            nonce: Option<string>)
    requires NulFree(ed25519Public) && NulFreeScope(s)
    requires SoundHash(sha512, ConnectPreimage(ed25519Public, s), ClaimedPreimage(claims, nonce))
    ensures VerifyWrapperReportData(sha512, SevSnpQuoteWrapper(Some(BindReportData(sha512, ed25519Public, s)), claims),
                                    nonce)
            <==> claims.epoch.None? && claims.ed25519Public == ed25519Public && SameScope(s, ScopeOf(claims, nonce))
  {
    var t := ScopeOf(claims, nonce);
    if claims.epoch.Some? {
      KindsDiffer(claims.epoch.value, t, ed25519Public, s);
    } else {
      ConnectPreimageDetermines(ed25519Public, s, claims.ed25519Public, t);
    }
  }

  /** Report data that does not decode to 64 bytes never verifies, under any hash. */
  lemma OnlyFullDataVerifies(sha512: string -> Bytes, w: SevSnpQuoteWrapper, nonce: Option<string>)
    requires w.reportData.None? || |w.reportData.value| != 64
    ensures !VerifyWrapperReportData(sha512, w, nonce)
  {
  }

  /** Connect-scoped report data never verifies against claims that carry an epoch. */
  lemma ConnectDataNeverVerifiesEpoch(sha512: string -> Bytes, ed25519Public: string, s: Scope, claims: QuoteClaims,
                                      nonce: Option<string>)
    requires claims.epoch.Some?
    requires SoundHash(sha512, ConnectPreimage(ed25519Public, s), ClaimedPreimage(claims, nonce))
    ensures !VerifyWrapperReportData(sha512, SevSnpQuoteWrapper(Some(BindReportData(sha512, ed25519Public, s)), claims),
                                     nonce)
  {
    KindsDiffer(claims.epoch.value, ScopeOf(claims, nonce), ed25519Public, s);
  }

  // ---------------------------------------------------------------- matching a registration

  datatype HybridPublic = HybridPublic(mlkemKey: string, x25519Public: string)
  datatype Subject = Subject(engineId: string, epochId: string, notBefore: string, notAfter: string,
                             hybrid: HybridPublic)
  datatype EvidenceError = Absent | EngineMismatch | EpochMismatch | WindowMismatch | MlkemMismatch | X25519Mismatch
                         | UsageKeyMissing
  datatype Match = Accepted(epoch: QuoteEpochClaims) | Refused(error: EvidenceError)

  predicate SameKey(a: string, b: string) {
    a != "" && a == b
  }

  function MatchEpochEvidence(claims: QuoteClaims, subject: Subject): Match {
    if claims.epoch.None? then Refused(Absent)
    else
      var epoch := claims.epoch.value;
      if epoch.engineId != subject.engineId then Refused(EngineMismatch)
      else if epoch.epochId != subject.epochId then Refused(EpochMismatch)
      else if epoch.notBefore != subject.notBefore || epoch.notAfter != subject.notAfter then Refused(WindowMismatch)
      else if !SameKey(epoch.mlkemKey, subject.hybrid.mlkemKey) then Refused(MlkemMismatch)
      else if !SameKey(epoch.x25519Public, subject.hybrid.x25519Public) then Refused(X25519Mismatch)
      else if Trim(epoch.usageSigningPublic) == "" then Refused(UsageKeyMissing)
      else Accepted(epoch)
  }

  /** Each refusal names the first thing that does not match; a key never matches if it is empty. */
  lemma RefusalNamesFirstMismatch(claims: QuoteClaims, subject: Subject)
    ensures
      var m := MatchEpochEvidence(claims, subject);
      match claims.epoch
      case None => m == Refused(Absent)
      case Some(e) =>
        var sameIds := e.engineId == subject.engineId && e.epochId == subject.epochId;
        var sameWindow := sameIds && e.notBefore == subject.notBefore && e.notAfter == subject.notAfter;
        var sameMlkem := sameWindow && e.mlkemKey != "" && e.mlkemKey == subject.hybrid.mlkemKey;
        var sameKeys := sameMlkem && e.x25519Public != "" && e.x25519Public == subject.hybrid.x25519Public;
        && (m == Refused(EngineMismatch) <==> e.engineId != subject.engineId)
        && (m == Refused(EpochMismatch) <==> e.engineId == subject.engineId && !sameIds)
        && (m == Refused(WindowMismatch) <==> sameIds && !sameWindow)
        && (m == Refused(MlkemMismatch) <==> sameWindow && !sameMlkem)
        && (m == Refused(X25519Mismatch) <==> sameMlkem && !sameKeys)
        && (m == Refused(UsageKeyMissing) <==> sameKeys && Blank(e.usageSigningPublic))
        && (m == Accepted(e) <==> sameKeys && !Blank(e.usageSigningPublic))
  {
    if claims.epoch.Some? {
      TrimBlank(claims.epoch.value.usageSigningPublic);
    }
  }

  /** The registration an epoch stands for. */
  function SubjectOf(e: QuoteEpochClaims): Subject {
    Subject(e.engineId, e.epochId, e.notBefore, e.notAfter, HybridPublic(e.mlkemKey, e.x25519Public))
  }

  predicate HasKeys(e: QuoteEpochClaims) {
    e.mlkemKey != "" && e.x25519Public != "" && Trim(e.usageSigningPublic) != ""
  }

  /**
   * Verification and matching together accept a registration for report data bound to an epoch
   * exactly when it is that epoch's own registration, for claims that carry that epoch and scope.
   */
  lemma EvidenceBindsRegistration(sha512: string -> Bytes, a: QuoteEpochClaims, s: Scope, claims: QuoteClaims,
                                  nonce: Option<string>, subject: Subject)
    requires NulFreeEpoch(a) && NulFreeScope(s)
    requires SoundHash(sha512, EpochPreimage(a, s), ClaimedPreimage(claims, nonce))
    ensures
      var w := SevSnpQuoteWrapper(Some(BindEpochReportData(sha512, a, s)), claims);
      var m := MatchEpochEvidence(claims, subject);
      && (VerifyWrapperReportData(sha512, w, nonce) && m.Accepted? <==>
            claims.epoch == Some(a) && SameScope(s, ScopeOf(claims, nonce)) && subject == SubjectOf(a) && HasKeys(a))
      && (VerifyWrapperReportData(sha512, w, nonce) && m.Accepted? ==> m.epoch == a)
  {
    EpochDataVerifies(sha512, a, s, claims, nonce);
  }
}

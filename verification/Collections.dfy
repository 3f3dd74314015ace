/** Small facts about sequences without repetition, shared by the pool, epoch and streaming models. */
module Collections {

  datatype Option<+T> = None | Some(value: T) {
    function GetOr(default: T): T {
      if Some? then value else default
    }
  }

  function Min(a: nat, b: nat): nat {
    if a <= b then a else b
  }

  function Max(a: int, b: int): int {
    if a >= b then a else b
  }

  /** Rust's `saturating_sub` on unsigned integers. */
  function Monus(a: nat, b: nat): nat {
    if a >= b then a - b else 0
  }

  ghost predicate NoDup<T(!new)>(xs: seq<T>) {
    forall i, j :: 0 <= i < j < |xs| ==> xs[i] != xs[j]
  }

  function ToSet<T>(xs: seq<T>): set<T> {
    set x | x in xs
  }

  /** The elements of `xs` that lie in `s`, in order (`Vec::retain`). */
  function Keep<T(==,!new)>(xs: seq<T>, s: set<T>): (r: seq<T>)
    ensures forall x :: x in r <==> x in xs && x in s
  {
    if xs == [] then []
    else if xs[0] in s then [xs[0]] + Keep(xs[1..], s)
    else Keep(xs[1..], s)
  }

  /** The elements of `xs` that do not lie in `s`, in order. */
  function Drop<T(==,!new)>(xs: seq<T>, s: set<T>): (r: seq<T>)
    ensures forall x :: x in r <==> x in xs && x !in s
  {
    if xs == [] then []
    else if xs[0] in s then Drop(xs[1..], s)
    else [xs[0]] + Drop(xs[1..], s)
  }

  lemma {:induction false} NoDupCardinality<T(!new)>(xs: seq<T>)
    requires NoDup(xs)
    ensures |ToSet(xs)| == |xs|
  {
    if xs == [] {
      assert ToSet(xs) == {};
    } else {
      NoDupCardinality(xs[1..]);
      assert ToSet(xs) == {xs[0]} + ToSet(xs[1..]);
      assert xs[0] !in xs[1..];
    }
  }

  lemma {:induction false} KeepNoDup<T(!new)>(xs: seq<T>, s: set<T>)
    requires NoDup(xs)
    ensures NoDup(Keep(xs, s)) && NoDup(Drop(xs, s))
    ensures ToSet(Keep(xs, s)) == ToSet(xs) * s
    ensures |Keep(xs, s)| == |ToSet(xs) * s|
    ensures |Keep(xs, s)| + |Drop(xs, s)| == |xs|
  {
    if xs == [] {
    } else {
      KeepNoDup(xs[1..], s);
      assert xs[0] !in xs[1..];
    }
    NoDupCardinality(Keep(xs, s));
    assert ToSet(Keep(xs, s)) == ToSet(xs) * s;
  }

  /** Filtering keeps the order: what a prefix contributes comes first. */
  lemma {:induction false} FilterInOrder<T(!new)>(a: seq<T>, b: seq<T>, s: set<T>)
    ensures Keep(a, s) <= Keep(a + b, s) && Drop(a, s) <= Drop(a + b, s)
  {
    if a != [] {
      assert (a + b)[0] == a[0] && (a + b)[1..] == a[1..] + b;
      FilterInOrder(a[1..], b, s);
    }
  }

  lemma PrefixNoDup<T(!new)>(xs: seq<T>, n: nat)
    requires NoDup(xs) && n <= |xs|
    ensures NoDup(xs[..n]) && ToSet(xs[..n]) <= ToSet(xs) && |ToSet(xs[..n])| == n
  {
    NoDupCardinality(xs[..n]);
  }

  lemma SubsetCardinality<T>(a: set<T>, b: set<T>)
    requires a <= b
    ensures |a| <= |b|
    ensures |a| == |b| ==> a == b
  {
    assert b == a + (b - a);
    assert |b| == |a| + |b - a|;
    if |a| == |b| {
      assert b - a == {};
    }
  }

  lemma DifferenceCardinality<T>(a: set<T>, b: set<T>)
    ensures |a - b| + |b| == |a| + |b - a|
  {
    assert a == (a - b) + (a * b) && b == (b - a) + (a * b);
    assert |a| == |a - b| + |a * b| && |b| == |b - a| + |a * b|;
  }

  /** Splitting the elements outside `held` by membership in `busy`. */
  lemma SplitOutside<T(!new)>(xs: seq<T>, held: set<T>, busy: set<T>)
    requires NoDup(xs)
    ensures NoDup(Drop(Drop(xs, held), busy)) && NoDup(Keep(Drop(xs, held), busy))
    ensures ToSet(Drop(Drop(xs, held), busy)) == ToSet(xs) - held - busy
    ensures ToSet(Keep(Drop(xs, held), busy)) == (ToSet(xs) - held) * busy
    ensures |Drop(Drop(xs, held), busy)| + |Keep(Drop(xs, held), busy)| == |xs| - |ToSet(xs) * held|
  {
    KeepNoDup(xs, held);
    KeepNoDup(Drop(xs, held), busy);
  }

  lemma PrefixStep<T(!new)>(xs: seq<T>, i: nat)
    requires NoDup(xs) && i < |xs|
    ensures ToSet(xs[..i + 1]) == ToSet(xs[..i]) + {xs[i]} && xs[i] !in ToSet(xs[..i])
  {
    assert xs[..i + 1] == xs[..i] + [xs[i]];
  }

  lemma Regroup<T>(a: seq<T>, b: seq<T>, c: seq<T>)
    ensures (a + b) + c == a + (b + c)
  {
  }
}

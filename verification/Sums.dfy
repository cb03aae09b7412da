/** Sums and bags over sequences, and stable sorting: what the other modules need of them. */
module Sums {

  function Abs(x: real): real { if x < 0.0 then -x else x }

  /** The sum of f over the first n of xs, accumulated left to right. */
  function SumTo<T>(f: T -> real, xs: seq<T>, n: nat): (r: real)
    requires n <= |xs|
  {
    if n == 0 then 0.0 else SumTo(f, xs, n - 1) + f(xs[n - 1])
  }

  function Sum<T>(f: T -> real, xs: seq<T>): (r: real) { SumTo(f, xs, |xs|) }

  lemma {:induction false} SumToAppend<T>(f: T -> real, xs: seq<T>, ys: seq<T>, n: nat)
    requires n <= |ys|
    ensures SumTo(f, xs + ys, |xs| + n) == Sum(f, xs) + SumTo(f, ys, n)
  {
    if n == 0 {
      SumToPrefix(f, xs, ys, |xs|);
    } else {
      SumToAppend(f, xs, ys, n - 1);
    }
  }

  lemma {:induction false} SumToPrefix<T>(f: T -> real, xs: seq<T>, ys: seq<T>, n: nat)
    requires n <= |xs|
    ensures SumTo(f, xs + ys, n) == SumTo(f, xs, n)
  {
    if n > 0 {
      SumToPrefix(f, xs, ys, n - 1);
    }
  }

  lemma {:induction false} SumToSame<T(!new)>(f: T -> real, g: T -> real, xs: seq<T>, n: nat)
    requires n <= |xs| && forall x :: f(x) == g(x)
    ensures SumTo(f, xs, n) == SumTo(g, xs, n)
  {
    if n > 0 {
      SumToSame(f, g, xs, n - 1);
    }
  }

  lemma SumSame<T(!new)>(f: T -> real, g: T -> real, xs: seq<T>)
    requires forall x :: f(x) == g(x)
    ensures Sum(f, xs) == Sum(g, xs)
  {
    SumToSame(f, g, xs, |xs|);
  }

  lemma SumAppend<T>(f: T -> real, xs: seq<T>, ys: seq<T>)
    ensures Sum(f, xs + ys) == Sum(f, xs) + Sum(f, ys)
  {
    SumToAppend(f, xs, ys, |ys|);
  }

  lemma SumOne<T>(f: T -> real, x: T)
    ensures Sum(f, [x]) == f(x)
  {
    assert SumTo(f, [x], 0) == 0.0;
  }

  lemma SumSnoc<T>(f: T -> real, xs: seq<T>, x: T)
    ensures Sum(f, xs + [x]) == Sum(f, xs) + f(x)
  {
    SumAppend(f, xs, [x]);
    SumOne(f, x);
  }

  lemma SumLast<T>(f: T -> real, xs: seq<T>)
    requires xs != []
    ensures Sum(f, xs) == Sum(f, xs[..|xs| - 1]) + f(xs[|xs| - 1])
  {
    assert xs == xs[..|xs| - 1] + [xs[|xs| - 1]];
    SumSnoc(f, xs[..|xs| - 1], xs[|xs| - 1]);
  }

  lemma SumCons<T>(f: T -> real, x: T, xs: seq<T>)
    ensures Sum(f, [x] + xs) == f(x) + Sum(f, xs)
  {
    SumAppend(f, [x], xs);
    SumOne(f, x);
  }

  /** Whether p holds of one of the first n of xs. */
  function AnyTo<T>(p: T -> bool, xs: seq<T>, n: nat): (r: bool)
    requires n <= |xs|
  {
    n > 0 && (AnyTo(p, xs, n - 1) || p(xs[n - 1]))
  }

  function Any<T>(p: T -> bool, xs: seq<T>): (r: bool) { AnyTo(p, xs, |xs|) }

  lemma {:induction false} AnyToIff<T>(p: T -> bool, xs: seq<T>, n: nat)
    requires n <= |xs|
    ensures AnyTo(p, xs, n) <==> exists k :: 0 <= k < n && p(xs[k])
  {
    if n > 0 {
      AnyToIff(p, xs, n - 1);
    }
  }

  lemma AnyIff<T>(p: T -> bool, xs: seq<T>)
    ensures Any(p, xs) <==> exists x :: x in xs && p(x)
  {
    AnyToIff(p, xs, |xs|);
    if Any(p, xs) {
      var k :| 0 <= k < |xs| && p(xs[k]);
      assert xs[k] in xs;
    }
  }

  /** The bag union of f over the first n of xs. */
  function BagTo<T, K>(f: T -> multiset<K>, xs: seq<T>, n: nat): (r: multiset<K>)
    requires n <= |xs|
  {
    if n == 0 then multiset{} else BagTo(f, xs, n - 1) + f(xs[n - 1])
  }

  function Bag<T, K>(f: T -> multiset<K>, xs: seq<T>): (r: multiset<K>) { BagTo(f, xs, |xs|) }

  lemma {:induction false} BagToAppend<T, K>(f: T -> multiset<K>, xs: seq<T>, ys: seq<T>, n: nat)
    requires n <= |ys|
    ensures BagTo(f, xs + ys, |xs| + n) == Bag(f, xs) + BagTo(f, ys, n)
  {
    if n == 0 {
      BagToPrefix(f, xs, ys, |xs|);
    } else {
      BagToAppend(f, xs, ys, n - 1);
    }
  }

  lemma {:induction false} BagToPrefix<T, K>(f: T -> multiset<K>, xs: seq<T>, ys: seq<T>, n: nat)
    requires n <= |xs|
    ensures BagTo(f, xs + ys, n) == BagTo(f, xs, n)
  {
    if n > 0 {
      BagToPrefix(f, xs, ys, n - 1);
    }
  }

  lemma BagAppend<T, K>(f: T -> multiset<K>, xs: seq<T>, ys: seq<T>)
    ensures Bag(f, xs + ys) == Bag(f, xs) + Bag(f, ys)
  {
    BagToAppend(f, xs, ys, |ys|);
  }

  lemma BagOne<T, K>(f: T -> multiset<K>, x: T)
    ensures Bag(f, [x]) == f(x)
  {
    assert BagTo(f, [x], 0) == multiset{};
  }

  lemma BagSnoc<T, K>(f: T -> multiset<K>, xs: seq<T>, x: T)
    ensures Bag(f, xs + [x]) == Bag(f, xs) + f(x)
  {
    BagAppend(f, xs, [x]);
    BagOne(f, x);
  }

  lemma BagLast<T, K>(f: T -> multiset<K>, xs: seq<T>)
    requires xs != []
    ensures Bag(f, xs) == Bag(f, xs[..|xs| - 1]) + f(xs[|xs| - 1])
  {
    assert xs == xs[..|xs| - 1] + [xs[|xs| - 1]];
    BagSnoc(f, xs[..|xs| - 1], xs[|xs| - 1]);
  }

  /** Removing one occurrence of x. */
  lemma SplitAt<T>(xs: seq<T>, x: T) returns (k: nat)
    requires x in multiset(xs)
    ensures k < |xs| && xs[k] == x && xs == xs[..k] + [x] + xs[k + 1..]
    ensures multiset(xs[..k] + xs[k + 1..]) == multiset(xs) - multiset{x}
  {
    assert x in xs;
    k :| 0 <= k < |xs| && xs[k] == x;
    assert xs == xs[..k] + [x] + xs[k + 1..];
    assert multiset(xs) == multiset(xs[..k]) + multiset{x} + multiset(xs[k + 1..]);
  }

  /** A sum does not depend on the order. */
  lemma {:induction false} SumPermuted<T>(f: T -> real, xs: seq<T>, ys: seq<T>)
    requires multiset(xs) == multiset(ys)
    ensures Sum(f, xs) == Sum(f, ys)
    decreases |xs|
  {
    if xs == [] {
      assert |multiset(ys)| == |ys|;
    } else {
      var n := |xs| - 1;
      var x := xs[n];
      assert xs == xs[..n] + [x];
      var k := SplitAt(ys, x);
      SumPermuted(f, xs[..n], ys[..k] + ys[k + 1..]);
      SumSnoc(f, xs[..n], x);
      SumAppend(f, ys[..k], ys[k + 1..]);
      SumSnoc(f, ys[..k], x);
      SumAppend(f, ys[..k] + [x], ys[k + 1..]);
    }
  }

  /** Nor does a bag. */
  lemma {:induction false} BagPermuted<T, K>(f: T -> multiset<K>, xs: seq<T>, ys: seq<T>)
    requires multiset(xs) == multiset(ys)
    ensures Bag(f, xs) == Bag(f, ys)
    decreases |xs|
  {
    if xs == [] {
      assert |multiset(ys)| == |ys|;
    } else {
      var n := |xs| - 1;
      var x := xs[n];
      assert xs == xs[..n] + [x];
      var k := SplitAt(ys, x);
      BagPermuted(f, xs[..n], ys[..k] + ys[k + 1..]);
      BagSnoc(f, xs[..n], x);
      BagAppend(f, ys[..k], ys[k + 1..]);
      BagSnoc(f, ys[..k], x);
      BagAppend(f, ys[..k] + [x], ys[k + 1..]);
    }
  }

  // ---------------------------------------------------------------------------------------------

  /** Whether `above` ranks elements: irreflexive, and "not above" is transitive. */
  ghost predicate Ranking<T(!new)>(above: (T, T) -> bool) {
    && (forall x :: !above(x, x))
    && (forall x, y :: above(x, y) ==> !above(y, x))
    && (forall x, y, z :: !above(x, y) && !above(y, z) ==> !above(x, z))
  }

  function Insert<T>(above: (T, T) -> bool, x: T, xs: seq<T>): (r: seq<T>)
    ensures multiset(r) == multiset{x} + multiset(xs)
  {
    if xs == [] then [x]
    else if above(xs[0], x) then
      assert xs == [xs[0]] + xs[1..];
      [xs[0]] + Insert(above, x, xs[1..])
    else [x] + xs
  }

  /** The stable sort: highest rank first, ties in their original order. */
  function StableSort<T>(above: (T, T) -> bool, xs: seq<T>): (r: seq<T>)
    ensures multiset(r) == multiset(xs) && |r| == |xs|
  {
    if xs == [] then []
    else
      var r := Insert(above, xs[0], StableSort(above, xs[1..]));
      assert xs == [xs[0]] + xs[1..];
      assert |multiset(r)| == |r| && |multiset(xs)| == |xs|;
      r
  }

  ghost predicate Ranked<T>(above: (T, T) -> bool, xs: seq<T>) {
    forall i, j :: 0 <= i < j < |xs| ==> !above(xs[j], xs[i])
  }

  lemma {:induction false} InsertRanked<T(!new)>(above: (T, T) -> bool, x: T, xs: seq<T>)
    requires Ranking(above) && Ranked(above, xs)
    ensures Ranked(above, Insert(above, x, xs))
  {
    if xs != [] {
      if above(xs[0], x) {
        InsertRanked(above, x, xs[1..]);
        var r := Insert(above, x, xs[1..]);
        forall j | 0 <= j < |r| ensures !above(r[j], xs[0]) {
          assert r[j] in multiset(r);
          assert r[j] == x || r[j] in xs[1..];
        }
      } else {
        forall j | 0 <= j < |xs| ensures !above(xs[j], x) {
          assert j > 0 ==> !above(xs[j], xs[0]);
        }
      }
    }
  }

  lemma {:induction false} StableSortRanked<T(!new)>(above: (T, T) -> bool, xs: seq<T>)
    requires Ranking(above)
    ensures Ranked(above, StableSort(above, xs))
  {
    if xs != [] {
      StableSortRanked(above, xs[1..]);
      InsertRanked(above, xs[0], StableSort(above, xs[1..]));
    }
  }

  /** Elements ranked equal with x, in their order in xs. */
  function Ties<T>(above: (T, T) -> bool, x: T, xs: seq<T>): (r: seq<T>) {
    if xs == [] then []
    else if !above(x, xs[0]) && !above(xs[0], x) then [xs[0]] + Ties(above, x, xs[1..])
    else Ties(above, x, xs[1..])
  }

  lemma {:induction false} InsertStable<T(!new)>(above: (T, T) -> bool, x: T, xs: seq<T>, y: T)
    requires Ranking(above) && Ranked(above, xs)
    ensures Ties(above, y, Insert(above, x, xs)) == Ties(above, y, [x] + xs)
  {
    assert ([x] + xs)[1..] == xs;
    if xs != [] && above(xs[0], x) {
      InsertStable(above, x, xs[1..], y);
      assert ([x] + xs[1..])[1..] == xs[1..];
      var r := Insert(above, x, xs[1..]);
      assert ([xs[0]] + r)[1..] == r;
    }
  }

  /** Sorting never reorders elements of equal rank. */
  lemma {:induction false} StableSortStable<T(!new)>(above: (T, T) -> bool, xs: seq<T>, y: T)
    requires Ranking(above)
    ensures Ties(above, y, StableSort(above, xs)) == Ties(above, y, xs)
  {
    if xs != [] {
      StableSortStable(above, xs[1..], y);
      StableSortRanked(above, xs[1..]);
      var r := StableSort(above, xs[1..]);
      InsertStable(above, xs[0], r, y);
      assert ([xs[0]] + r)[1..] == r;
    }
  }

  function TieOf<T>(above: (T, T) -> bool, y: T, x: T): seq<T> {
    if !above(y, x) && !above(x, y) then [x] else []
  }

  lemma TiesCons<T>(above: (T, T) -> bool, y: T, x: T, xs: seq<T>)
    ensures Ties(above, y, [x] + xs) == TieOf(above, y, x) + Ties(above, y, xs)
  {
    assert ([x] + xs)[1..] == xs;
  }

  lemma {:induction false} TiesAppend<T>(above: (T, T) -> bool, y: T, xs: seq<T>, zs: seq<T>)
    ensures Ties(above, y, xs + zs) == Ties(above, y, xs) + Ties(above, y, zs)
  {
    if xs == [] {
      assert xs + zs == zs;
    } else {
      var x, tail := xs[0], xs[1..];
      assert xs == [x] + tail && xs + zs == [x] + (tail + zs);
      TiesAppend(above, y, tail, zs);
      TiesCons(above, y, x, tail);
      TiesCons(above, y, x, tail + zs);
    }
  }

  lemma TailTies<T>(above: (T, T) -> bool, y: T, x: T, xs: seq<T>, zs: seq<T>)
    requires Ties(above, y, [x] + xs) == Ties(above, y, [x] + zs)
    ensures Ties(above, y, xs) == Ties(above, y, zs)
  {
    var n := |TieOf(above, y, x)|;
    TiesCons(above, y, x, xs);
    TiesCons(above, y, x, zs);
    assert Ties(above, y, [x] + xs)[n..] == Ties(above, y, xs);
    assert Ties(above, y, [x] + zs)[n..] == Ties(above, y, zs);
  }

  lemma {:induction false} TiesIn<T(!new)>(above: (T, T) -> bool, y: T, xs: seq<T>, x: T)
    ensures x in Ties(above, y, xs) <==> x in xs && !above(x, y) && !above(y, x)
  {
    if xs != [] {
      assert xs == [xs[0]] + xs[1..];
      TiesIn(above, y, xs[1..], x);
    }
  }

  lemma FirstIsFirstTie<T(!new)>(above: (T, T) -> bool, xs: seq<T>, x: T)
    requires xs != [] && !above(x, xs[0]) && !above(xs[0], x)
    ensures Ties(above, x, xs) != [] && Ties(above, x, xs)[0] == xs[0]
  {
  }

  /** A ranked list is determined by its runs of ties. */
  lemma {:induction false} RankedDetermined<T(!new)>(above: (T, T) -> bool, xs: seq<T>, ys: seq<T>)
    requires Ranking(above) && Ranked(above, xs) && Ranked(above, ys)
    requires forall z :: Ties(above, z, xs) == Ties(above, z, ys)
    ensures xs == ys
  {
    if xs == [] {
      if ys != [] {
        SameHead(above, ys, xs);
      }
    } else {
      SameHead(above, xs, ys);
      forall z ensures Ties(above, z, xs[1..]) == Ties(above, z, ys[1..]) {
        assert Ties(above, z, xs) == Ties(above, z, ys);
        assert xs == [xs[0]] + xs[1..] && ys == [ys[0]] + ys[1..];
        TailTies(above, z, xs[0], xs[1..], ys[1..]);
      }
      RankedDetermined(above, xs[1..], ys[1..]);
    }
  }

  lemma SameHead<T(!new)>(above: (T, T) -> bool, xs: seq<T>, ys: seq<T>)
    requires Ranking(above) && Ranked(above, xs) && Ranked(above, ys) && xs != []
    requires forall z :: Ties(above, z, xs) == Ties(above, z, ys)
    ensures ys != [] && ys[0] == xs[0]
  {
    var x := xs[0];
    FirstIsFirstTie(above, xs, x);
    TiesIn(above, x, ys, x);
    assert x in Ties(above, x, ys);
    var y := ys[0];
    FirstIsFirstTie(above, ys, y);
    TiesIn(above, y, xs, y);
    assert y in Ties(above, y, xs);
    var i :| 0 <= i < |xs| && xs[i] == y;
    var j :| 0 <= j < |ys| && ys[j] == x;
    FirstIsFirstTie(above, ys, x);
  }
}

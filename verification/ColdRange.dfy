/** The efficiency band of a vehicle's own drives at about a temperature: its window and its weighted quantiles. */
module ColdRange {
  import opened Sums

  datatype Drive = Drive(temp: real, eff: real, mi: real)

  const MIN_DRIVES := 5
  const MIN_MILES := 50.0
  const WINDOW := 4.0
  const WIDE_WINDOW := 7.0

  const Mi: Drive -> real := (d: Drive) => d.mi

  /** Only drives of some length enter. */
  predicate Driven(ds: seq<Drive>) { forall d :: d in ds ==> d.mi >= 0.0 }

  // ---------------------------------------------------------------------------------------------
  // Comparing sums
  // ---------------------------------------------------------------------------------------------

  lemma {:induction false} SumToLe<T>(f: T -> real, g: T -> real, xs: seq<T>, n: nat)
    requires n <= |xs| && forall k :: 0 <= k < n ==> f(xs[k]) <= g(xs[k])
    ensures SumTo(f, xs, n) <= SumTo(g, xs, n)
  {
    if n > 0 {
      SumToLe(f, g, xs, n - 1);
    }
  }

  lemma {:induction false} SumToGrows<T>(f: T -> real, xs: seq<T>, m: nat, n: nat)
    requires m <= n <= |xs| && forall k :: m <= k < n ==> f(xs[k]) >= 0.0
    ensures SumTo(f, xs, m) <= SumTo(f, xs, n)
  {
    if m < n {
      SumToGrows(f, xs, m, n - 1);
    }
  }

  lemma {:induction false} SumToFlat<T>(f: T -> real, xs: seq<T>, m: nat, n: nat)
    requires m <= n <= |xs| && forall k :: m <= k < n ==> f(xs[k]) == 0.0
    ensures SumTo(f, xs, m) == SumTo(f, xs, n)
  {
    if m < n {
      SumToFlat(f, xs, m, n - 1);
    }
  }

  // ---------------------------------------------------------------------------------------------
  // The weighted quantile
  // ---------------------------------------------------------------------------------------------

  /** Miles of the drives strictly below e, and of those at or below it. */
  function Below(e: real): Drive -> real { (d: Drive) => if d.eff < e then d.mi else 0.0 }

  function UpTo(e: real): Drive -> real { (d: Drive) => if d.eff <= e then d.mi else 0.0 }

  /** e is the efficiency of a drive; drives at or below it carry at least q of the miles, those strictly below less. */
  predicate IsQuantile(ds: seq<Drive>, q: real, e: real) {
    && (exists d :: d in ds && d.eff == e)
    && Sum(UpTo(e), ds) >= q * Sum(Mi, ds)
    && Sum(Below(e), ds) < q * Sum(Mi, ds)
  }

  predicate SortedByEff(s: seq<Drive>) { forall i, j :: 0 <= i < j < |s| ==> s[i].eff <= s[j].eff }

  lemma BelowInSorted(s: seq<Drive>, i: nat)
    requires SortedByEff(s) && Driven(s) && i < |s|
    ensures Sum(Below(s[i].eff), s) <= SumTo(Mi, s, i)
    ensures SumTo(Mi, s, i + 1) <= Sum(UpTo(s[i].eff), s)
  {
    var below, upTo := Below(s[i].eff), UpTo(s[i].eff);
    forall k | i <= k < |s| ensures below(s[k]) == 0.0 {
      assert i < k ==> s[i].eff <= s[k].eff;
    }
    SumToFlat(below, s, i, |s|);
    forall k | 0 <= k < i ensures below(s[k]) <= Mi(s[k]) {
      assert s[k] in s;
    }
    SumToLe(below, Mi, s, i);
    SumToLe(Mi, upTo, s, i + 1);
    forall k | i + 1 <= k < |s| ensures upTo(s[k]) >= 0.0 {
      assert s[k] in s;
    }
    SumToGrows(upTo, s, i + 1, |s|);
  }

  /** Where the miles first reach q of all, there is the quantile. */
  lemma CrossingIsQuantile(ds: seq<Drive>, s: seq<Drive>, q: real, goal: real, n: nat)
    requires SortedByEff(s) && multiset(s) == multiset(ds) && Driven(ds) && n < |s| && goal == q * Sum(Mi, s)
    requires SumTo(Mi, s, n) < goal <= SumTo(Mi, s, n + 1)
    ensures IsQuantile(ds, q, s[n].eff)
  {
    SameMembers(ds, s);
    BelowInSorted(s, n);
    SumPermuted(Mi, ds, s);
    SumPermuted(UpTo(s[n].eff), ds, s);
    SumPermuted(Below(s[n].eff), ds, s);
    assert s[n] in ds;
  }

  lemma Share(q: real, total: real, goal: real)
    requires q > 0.0 && total > 0.0 && goal == q * total
    ensures goal > 0.0 && (q <= 1.0 ==> goal <= total)
  {
  }

  /** Walks up a sorted copy until q of the miles are behind. Any order among equal efficiencies will do. */
  method Quantile(ds: seq<Drive>, s: seq<Drive>, q: real) returns (e: real)
    requires SortedByEff(s) && multiset(s) == multiset(ds) && Driven(ds) && Sum(Mi, ds) > 0.0 && q > 0.0
    ensures q <= 1.0 ==> IsQuantile(ds, q, e)
  {
    SumPermuted(Mi, ds, s);
    var total := 0.0;
    for n := 0 to |s|
      invariant total == SumTo(Mi, s, n)
    {
      total := total + s[n].mi;
    }
    var goal := q * total;
    Share(q, total, goal);
    var cum := 0.0;
    for n := 0 to |s|
      invariant cum == SumTo(Mi, s, n) && cum < goal
    {
      cum := cum + s[n].mi;
      if cum >= goal {
        CrossingIsQuantile(ds, s, q, goal, n);
        return s[n].eff;
      }
    }
    assert cum == total && q > 1.0;
    return s[|s| - 1].eff;
  }

  lemma SameMembers(ds: seq<Drive>, s: seq<Drive>)
    requires multiset(s) == multiset(ds)
    ensures |s| == |ds| && forall d :: d in s <==> d in ds
  {
    assert |multiset(s)| == |s| && |multiset(ds)| == |ds|;
    forall d ensures d in s <==> d in ds {
      assert d in s <==> d in multiset(s);
      assert d in ds <==> d in multiset(ds);
    }
  }

  /** A larger share never has a smaller quantile; with q == r, a list has only one. */
  lemma QuantileMonotone(ds: seq<Drive>, q: real, r: real, e: real, f: real)
    requires Driven(ds) && q <= r && IsQuantile(ds, q, e) && IsQuantile(ds, r, f)
    ensures e <= f
  {
    SumToGrows(Mi, ds, 0, |ds|);
    assert q * Sum(Mi, ds) <= r * Sum(Mi, ds);
    if f < e {
      forall k | 0 <= k < |ds| ensures UpTo(f)(ds[k]) <= Below(e)(ds[k]) {
        assert ds[k] in ds;
      }
      SumToLe(UpTo(f), Below(e), ds, |ds|);
    }
  }

  /** The quantile does not depend on the order of the drives. */
  lemma QuantilePermuted(ds: seq<Drive>, cs: seq<Drive>, q: real, e: real)
    requires multiset(ds) == multiset(cs) && IsQuantile(ds, q, e)
    ensures IsQuantile(cs, q, e)
  {
    SameMembers(ds, cs);
    SumPermuted(Mi, ds, cs);
    SumPermuted(UpTo(e), ds, cs);
    SumPermuted(Below(e), ds, cs);
    var d :| d in ds && d.eff == e;
    assert d in cs;
  }

  // ---------------------------------------------------------------------------------------------
  // The window
  // ---------------------------------------------------------------------------------------------

  predicate IsNear(d: Drive, temp: real, half: real) { Abs(d.temp - temp) <= half }

  /** The drives within half of the temperature, in order. */
  function Near(ds: seq<Drive>, temp: real, half: real): seq<Drive> {
    if ds == [] then []
    else var n := |ds| - 1; Near(ds[..n], temp, half) + if IsNear(ds[n], temp, half) then [ds[n]] else []
  }

  function One(temp: real, half: real): Drive -> real { (d: Drive) => if IsNear(d, temp, half) then 1.0 else 0.0 }

  function Miles(temp: real, half: real): Drive -> real { (d: Drive) => if IsNear(d, temp, half) then d.mi else 0.0 }

  /** How many drives are near, and their miles, as sums over all drives. */
  lemma {:induction false} NearTallies(ds: seq<Drive>, temp: real, half: real)
    ensures |Near(ds, temp, half)| as real == Sum(One(temp, half), ds)
    ensures Sum(Mi, Near(ds, temp, half)) == Sum(Miles(temp, half), ds)
    ensures forall d :: d in Near(ds, temp, half) <==> d in ds && IsNear(d, temp, half)
  {
    if ds != [] {
      var n := |ds| - 1;
      NearTallies(ds[..n], temp, half);
      SumLast(One(temp, half), ds);
      SumLast(Miles(temp, half), ds);
      SumSnoc(Mi, Near(ds[..n], temp, half), ds[n]);
      assert ds == ds[..n] + [ds[n]] && Near(ds[..n], temp, half) + [] == Near(ds[..n], temp, half);
    }
  }

  predicate Enough(sel: seq<Drive>) { |sel| >= MIN_DRIVES && Sum(Mi, sel) >= MIN_MILES }

  lemma EnoughByTallies(ds: seq<Drive>, temp: real, half: real)
    ensures Enough(Near(ds, temp, half)) <==>
            Sum(One(temp, half), ds) >= MIN_DRIVES as real && Sum(Miles(temp, half), ds) >= MIN_MILES
  {
    NearTallies(ds, temp, half);
  }

  /** A band can be given at this temperature. */
  predicate Available(ds: seq<Drive>, temp: real) {
    Enough(Near(ds, temp, WINDOW)) || Enough(Near(ds, temp, WIDE_WINDOW))
  }

  /** The narrow window when it has enough, else the wide one when that has, else nothing. */
  method Window(ds: seq<Drive>, temp: real) returns (sel: seq<Drive>, lo: real, hi: real, ok: bool)
    ensures ok <==> Available(ds, temp)
    ensures ok ==> var half := if Enough(Near(ds, temp, WINDOW)) then WINDOW else WIDE_WINDOW;
                   sel == Near(ds, temp, half) && lo == temp - half && hi == temp + half
    ensures !ok ==> sel == [] && lo == 0.0 && hi == 0.0
  {
    var halves := [WINDOW, WIDE_WINDOW];
    for h := 0 to |halves|
      invariant forall k :: 0 <= k < h ==> !Enough(Near(ds, temp, halves[k]))
    {
      var mi := 0.0;
      sel := [];
      for n := 0 to |ds|
        invariant sel == Near(ds[..n], temp, halves[h]) && mi == Sum(Mi, sel)
      {
        assert ds[..n + 1][..n] == ds[..n];
        if IsNear(ds[n], temp, halves[h]) {
          SumSnoc(Mi, sel, ds[n]);
          sel := sel + [ds[n]];
          mi := mi + ds[n].mi;
        }
      }
      assert ds[..|ds|] == ds;
      if |sel| >= MIN_DRIVES && mi >= MIN_MILES {
        assert h == 1 ==> !Enough(Near(ds, temp, halves[0]));
        return sel, temp - halves[h], temp + halves[h], true;
      }
    }
    assert halves[0] == WINDOW && halves[1] == WIDE_WINDOW;
    return [], 0.0, 0.0, false;
  }

  /** A band exists exactly when the wide window alone has enough. */
  lemma AvailableIffWide(ds: seq<Drive>, temp: real)
    requires Driven(ds)
    ensures Available(ds, temp) <==> Enough(Near(ds, temp, WIDE_WINDOW))
  {
    EnoughByTallies(ds, temp, WINDOW);
    EnoughByTallies(ds, temp, WIDE_WINDOW);
    forall k | 0 <= k < |ds| ensures Miles(temp, WINDOW)(ds[k]) <= Miles(temp, WIDE_WINDOW)(ds[k]) {
      assert ds[k] in ds;
    }
    SumToLe(One(temp, WINDOW), One(temp, WIDE_WINDOW), ds, |ds|);
    SumToLe(Miles(temp, WINDOW), Miles(temp, WIDE_WINDOW), ds, |ds|);
  }

  /** More drives never take an available temperature away, wherever they fall in the list. */
  lemma MoreDrivesKeepAvailable(ds: seq<Drive>, more: seq<Drive>, all: seq<Drive>, temp: real)
    requires Driven(ds) && Driven(more) && multiset(all) == multiset(ds + more) && Available(ds, temp)
    ensures Available(all, temp)
  {
    SameMembers(ds + more, all);
    assert Driven(all);
    AvailableIffWide(ds, temp);
    AvailableIffWide(all, temp);
    EnoughByTallies(ds, temp, WIDE_WINDOW);
    EnoughByTallies(all, temp, WIDE_WINDOW);
    KeepsSum(One(temp, WIDE_WINDOW), ds, more, all);
    KeepsSum(Miles(temp, WIDE_WINDOW), ds, more, all);
  }

  lemma KeepsSum(f: Drive -> real, ds: seq<Drive>, more: seq<Drive>, all: seq<Drive>)
    requires multiset(all) == multiset(ds + more) && forall d :: d in more ==> f(d) >= 0.0
    ensures Sum(f, ds) <= Sum(f, all)
  {
    SumPermuted(f, all, ds + more);
    SumAppend(f, ds, more);
    forall k | 0 <= k < |more| ensures f(more[k]) >= 0.0 {
      assert more[k] in more;
    }
    SumToGrows(f, more, 0, |more|);
  }

  // ---------------------------------------------------------------------------------------------
  // The band
  // ---------------------------------------------------------------------------------------------

  datatype Band = Insufficient | Band(drives: nat, miles: real, lo: real, hi: real, effLow: real, effHigh: real)

  predicate IsBand(ds: seq<Drive>, temp: real, b: Band) {
    if !Available(ds, temp) then b == Insufficient
    else
      var half := if Enough(Near(ds, temp, WINDOW)) then WINDOW else WIDE_WINDOW;
      var sel := Near(ds, temp, half);
      b.Band? && b.drives == |sel| && b.miles == Sum(Mi, sel) && b.lo == temp - half && b.hi == temp + half
      && IsQuantile(sel, 0.25, b.effLow) && IsQuantile(sel, 0.75, b.effHigh)
  }

  // ---------------------------------------------------------------------------------------------
  // What the band says of all drives
  // ---------------------------------------------------------------------------------------------

  function CountWithin(ds: seq<Drive>, lo: real, hi: real): real {
    Sum((d: Drive) => if lo <= d.temp <= hi then 1.0 else 0.0, ds)
  }

  function MilesWithin(ds: seq<Drive>, lo: real, hi: real): real {
    Sum((d: Drive) => if lo <= d.temp <= hi then d.mi else 0.0, ds)
  }

  predicate EnoughWithin(ds: seq<Drive>, lo: real, hi: real) {
    CountWithin(ds, lo, hi) >= 5.0 && MilesWithin(ds, lo, hi) >= 50.0
  }

  /** e is the efficiency of a drive within lo..hi; of the miles there, the drives at or below e carry at least the
    * share q, those below it less. */
  predicate ShareAt(ds: seq<Drive>, lo: real, hi: real, q: real, e: real) {
    && (exists d :: d in ds && lo <= d.temp <= hi && d.eff == e)
    && MilesAtMost(ds, lo, hi, e) >= q * MilesWithin(ds, lo, hi) > MilesBelow(ds, lo, hi, e)
  }

  function MilesAtMost(ds: seq<Drive>, lo: real, hi: real, e: real): real {
    Sum((d: Drive) => if lo <= d.temp <= hi && d.eff <= e then d.mi else 0.0, ds)
  }

  function MilesBelow(ds: seq<Drive>, lo: real, hi: real, e: real): real {
    Sum((d: Drive) => if lo <= d.temp <= hi && d.eff < e then d.mi else 0.0, ds)
  }

  /** The band of the drives within 4 degrees, or within 7 when those are too few or too short, if these are not. */
  predicate BandOf(ds: seq<Drive>, temp: real, b: Band) {
    match b
    case Insufficient => !EnoughWithin(ds, temp - 4.0, temp + 4.0) && !EnoughWithin(ds, temp - 7.0, temp + 7.0)
    case Band(drives, miles, lo, hi, effLow, effHigh) =>
      && (if EnoughWithin(ds, temp - 4.0, temp + 4.0) then lo == temp - 4.0 && hi == temp + 4.0
          else lo == temp - 7.0 && hi == temp + 7.0)
      && EnoughWithin(ds, lo, hi) && drives as real == CountWithin(ds, lo, hi) && miles == MilesWithin(ds, lo, hi)
      && ShareAt(ds, lo, hi, 0.25, effLow) && ShareAt(ds, lo, hi, 0.75, effHigh)
  }

  lemma NearIff(d: Drive, temp: real, half: real)
    ensures IsNear(d, temp, half) <==> temp - half <= d.temp <= temp + half
  {
  }

  lemma {:induction false} SumOfNear(f: Drive -> real, g: Drive -> real, ds: seq<Drive>, temp: real, half: real)
    requires forall d :: g(d) == if temp - half <= d.temp <= temp + half then f(d) else 0.0
    ensures Sum(f, Near(ds, temp, half)) == Sum(g, ds)
  {
    if ds != [] {
      var n := |ds| - 1;
      SumOfNear(f, g, ds[..n], temp, half);
      SumLast(g, ds);
      NearIff(ds[n], temp, half);
      SumSnoc(f, Near(ds[..n], temp, half), ds[n]);
      assert Near(ds[..n], temp, half) + [] == Near(ds[..n], temp, half);
    }
  }

  lemma {:induction false} NearIsCounted(ds: seq<Drive>, temp: real, half: real)
    ensures |Near(ds, temp, half)| as real == CountWithin(ds, temp - half, temp + half)
    ensures Sum(Mi, Near(ds, temp, half)) == MilesWithin(ds, temp - half, temp + half)
    ensures Enough(Near(ds, temp, half)) <==> EnoughWithin(ds, temp - half, temp + half)
  {
    var (lo, hi) := (temp - half, temp + half);
    NearTallies(ds, temp, half);
    forall d ensures One(temp, half)(d) == if lo <= d.temp <= hi then 1.0 else 0.0 {
      NearIff(d, temp, half);
    }
    SumSame((d: Drive) => if lo <= d.temp <= hi then 1.0 else 0.0, One(temp, half), ds);
    SumOfNear(Mi, (d: Drive) => if lo <= d.temp <= hi then d.mi else 0.0, ds, temp, half);
  }

  lemma MilesOfNear(ds: seq<Drive>, temp: real, half: real, e: real)
    ensures Sum(UpTo(e), Near(ds, temp, half)) == MilesAtMost(ds, temp - half, temp + half, e)
    ensures Sum(Below(e), Near(ds, temp, half)) == MilesBelow(ds, temp - half, temp + half, e)
  {
    var (lo, hi) := (temp - half, temp + half);
    SumOfNear(UpTo(e), (d: Drive) => if lo <= d.temp <= hi && d.eff <= e then d.mi else 0.0, ds, temp, half);
    SumOfNear(Below(e), (d: Drive) => if lo <= d.temp <= hi && d.eff < e then d.mi else 0.0, ds, temp, half);
  }

  lemma QuantileOfNear(ds: seq<Drive>, temp: real, half: real, q: real, e: real)
    requires IsQuantile(Near(ds, temp, half), q, e)
    ensures ShareAt(ds, temp - half, temp + half, q, e)
  {
    NearIsCounted(ds, temp, half);
    NearTallies(ds, temp, half);
    MilesOfNear(ds, temp, half, e);
    var d :| d in Near(ds, temp, half) && d.eff == e;
    NearIff(d, temp, half);
  }

  lemma BandIsBandOf(ds: seq<Drive>, temp: real, b: Band)
    requires IsBand(ds, temp, b)
    ensures BandOf(ds, temp, b)
  {
    NearIsCounted(ds, temp, WINDOW);
    NearIsCounted(ds, temp, WIDE_WINDOW);
    if b.Band? {
      var half := if Enough(Near(ds, temp, WINDOW)) then WINDOW else WIDE_WINDOW;
      QuantileOfNear(ds, temp, half, 0.25, b.effLow);
      QuantileOfNear(ds, temp, half, 0.75, b.effHigh);
    }
  }

  const LessEfficient: (Drive, Drive) -> bool := (a: Drive, b: Drive) => a.eff < b.eff

  lemma SortedCopy(sel: seq<Drive>)
    ensures SortedByEff(StableSort(LessEfficient, sel))
  {
    StableSortRanked(LessEfficient, sel);
    var s := StableSort(LessEfficient, sel);
    forall i, j | 0 <= i < j < |s| ensures s[i].eff <= s[j].eff {
      assert !LessEfficient(s[j], s[i]);
    }
  }

  /** The first and the last quartile of some drives. */
  method Quartiles(sel: seq<Drive>) returns (low: real, high: real)
    requires Driven(sel) && Sum(Mi, sel) > 0.0
    ensures IsQuantile(sel, 0.25, low) && IsQuantile(sel, 0.75, high) && low <= high
  {
    var s := StableSort(LessEfficient, sel);
    SortedCopy(sel);
    low := Quantile(sel, s, 0.25);
    high := Quantile(sel, s, 0.75);
    QuantileMonotone(sel, 0.25, 0.75, low, high);
  }

  method BandFor(ds: seq<Drive>, temp: real) returns (b: Band)
    requires Driven(ds)
    ensures IsBand(ds, temp, b) && BandOf(ds, temp, b)
    ensures b.Band? ==> b.effLow <= b.effHigh
  {
    var sel, lo, hi, ok := Window(ds, temp);
    if !ok {
      BandIsBandOf(ds, temp, Insufficient);
      return Insufficient;
    }
    NearTallies(ds, temp, hi - temp);
    var low, high := Quartiles(sel);
    var miles := 0.0;
    for n := 0 to |sel|
      invariant miles == SumTo(Mi, sel, n)
    {
      miles := miles + sel[n].mi;
    }
    b := Band(|sel|, miles, lo, hi, low, high);
    BandIsBandOf(ds, temp, b);
  }

  lemma OneQuantile(ds: seq<Drive>, cs: seq<Drive>, q: real, e: real, f: real)
    requires Driven(ds) && multiset(ds) == multiset(cs) && IsQuantile(ds, q, e) && IsQuantile(cs, q, f)
    ensures e == f
  {
    QuantilePermuted(cs, ds, q, f);
    QuantileMonotone(ds, q, q, e, f);
    QuantileMonotone(ds, q, q, f, e);
  }

  /** The band depends on the drives, not on their order, nor on the order equal efficiencies are sorted in. */
  lemma BandOrderFree(ds: seq<Drive>, cs: seq<Drive>, temp: real, b: Band, c: Band)
    requires Driven(ds) && multiset(ds) == multiset(cs) && IsBand(ds, temp, b) && IsBand(cs, temp, c)
    ensures b == c
  {
    NearPermuted(ds, cs, temp, WINDOW);
    NearPermuted(ds, cs, temp, WIDE_WINDOW);
    if Available(ds, temp) {
      var half := if Enough(Near(ds, temp, WINDOW)) then WINDOW else WIDE_WINDOW;
      NearTallies(ds, temp, half);
      OneQuantile(Near(ds, temp, half), Near(cs, temp, half), 0.25, b.effLow, c.effLow);
      OneQuantile(Near(ds, temp, half), Near(cs, temp, half), 0.75, b.effHigh, c.effHigh);
    }
  }

  function NearBag(temp: real, half: real): Drive -> multiset<Drive> {
    (d: Drive) => if IsNear(d, temp, half) then multiset{d} else multiset{}
  }

  lemma {:induction false} NearAsBag(ds: seq<Drive>, temp: real, half: real)
    ensures multiset(Near(ds, temp, half)) == Bag(NearBag(temp, half), ds)
  {
    if ds != [] {
      var n := |ds| - 1;
      NearAsBag(ds[..n], temp, half);
      BagLast(NearBag(temp, half), ds);
    }
  }

  lemma NearPermuted(ds: seq<Drive>, cs: seq<Drive>, temp: real, half: real)
    requires multiset(ds) == multiset(cs)
    ensures multiset(Near(ds, temp, half)) == multiset(Near(cs, temp, half))
    ensures |Near(ds, temp, half)| == |Near(cs, temp, half)|
            && Sum(Mi, Near(ds, temp, half)) == Sum(Mi, Near(cs, temp, half))
    ensures Enough(Near(ds, temp, half)) == Enough(Near(cs, temp, half))
  {
    NearAsBag(ds, temp, half);
    NearAsBag(cs, temp, half);
    BagPermuted(NearBag(temp, half), ds, cs);
    SameMembers(Near(ds, temp, half), Near(cs, temp, half));
    SumPermuted(Mi, Near(ds, temp, half), Near(cs, temp, half));
  }
}

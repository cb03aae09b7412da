/** What collapsing round trips promises. */
module RoundTripLaws {
  import opened Options
  import opened Sums
  import opened RoundTrips

  // ---------------------------------------------------------------------------------------------
  // The rows are the merges of the greedy partition
  // ---------------------------------------------------------------------------------------------

  lemma SpansCons(es: seq<nat>, i: nat)
    requires EndsOk(es) && i < |es|
    ensures |Spans(es, i)| == 1 + |Spans(es, es[i] + 1)|
  {
  }

  lemma ChainsCons(asc: seq<Row>, es: seq<nat>, i: nat)
    requires |es| == |asc| && EndsOk(es) && i < |asc|
    ensures |Chains(asc, es, i)| == 1 + |Chains(asc, es, es[i] + 1)|
  {
  }

  lemma {:induction false} SameCount(asc: seq<Row>, es: seq<nat>, i: nat)
    requires |es| == |asc| && EndsOk(es) && i <= |asc|
    ensures |Spans(es, i)| == |Chains(asc, es, i)|
    decreases |asc| - i
  {
    if i < |asc| {
      SpansCons(es, i);
      ChainsCons(asc, es, i);
      SameCount(asc, es, es[i] + 1);
    }
  }

  lemma {:induction false} ChainIsSpan(asc: seq<Row>, es: seq<nat>, i: nat, k: nat)
    requires |es| == |asc| && EndsOk(es) && i <= |asc| && k < |Spans(es, i)|
    ensures k < |Chains(asc, es, i)| && Spans(es, i)[k].from < Spans(es, i)[k].to <= |asc|
    ensures Chains(asc, es, i)[k] == asc[Spans(es, i)[k].from..Spans(es, i)[k].to]
    decreases k
  {
    if k > 0 {
      ChainIsSpan(asc, es, es[i] + 1, k - 1);
    }
  }

  /** Row k of the result is the merge of the k-th span of the one greedy partition. */
  lemma RowIsMergedSpan(r: Rule, asc: seq<Row>, k: nat)
    requires k < |CollapsedAsc(r, asc)|
    ensures var sp := Spans(Ends(r, asc), 0);
            && |CollapsedAsc(r, asc)| == |sp| && sp[k].from < sp[k].to <= |asc|
            && CollapsedAsc(r, asc)[k] == Merge(asc[sp[k].from..sp[k].to])
  {
    SameCount(asc, Ends(r, asc), 0);
    ChainIsSpan(asc, Ends(r, asc), 0, k);
  }

  /** Row k starts where and when its first leg does, and ends where and when its last leg does. */
  ghost predicate SameEnds(asc: seq<Row>, s: Span, row: Row)
    requires s.from < s.to <= |asc|
  {
    && row.d.start == asc[s.from].d.start && row.d.startAt == asc[s.from].d.startAt
    && row.d.end == asc[s.to - 1].d.end && row.d.endAt == asc[s.to - 1].d.endAt
  }

  /** rows are the spans sp of asc, as far as times and places go. */
  ghost predicate Summarises(r: Rule, asc: seq<Row>, sp: seq<Span>, rows: seq<Row>) {
    && |rows| == |sp| && GreedyPartition(r, asc, sp)
    && (forall k :: 0 <= k < |sp| ==> sp[k].from < sp[k].to <= |asc| && SameEnds(asc, sp[k], rows[k]))
  }

  /** Merging keeps the first leg's start and the last leg's end. */
  ghost predicate KeepsEnds(f: seq<Row> -> Row) {
    forall c: seq<Row> :: c != [] ==>
      && f(c).d.start == c[0].d.start && f(c).d.startAt == c[0].d.startAt
      && f(c).d.end == c[|c| - 1].d.end && f(c).d.endAt == c[|c| - 1].d.endAt
  }

  lemma MappedEnds(f: seq<Row> -> Row, asc: seq<Row>, s: Span, chain: seq<Row>)
    requires KeepsEnds(f) && s.from < s.to <= |asc| && chain == asc[s.from..s.to]
    ensures SameEnds(asc, s, f(chain))
  {
  }

  lemma CollapseSummarises(r: Rule, asc: seq<Row>)
    ensures Summarises(r, asc, Spans(Ends(r, asc), 0), CollapsedAsc(r, asc))
  {
    var es := Ends(r, asc);
    var sp := Spans(es, 0);
    SpansAreGreedy(r, asc);
    SameCount(asc, es, 0);
    forall k | 0 <= k < |sp|
      ensures sp[k].from < sp[k].to <= |asc| && SameEnds(asc, sp[k], CollapsedAsc(r, asc)[k])
    {
      ChainIsSpan(asc, es, 0, k);
      MappedEnds(MERGE, asc, sp[k], Chains(asc, es, 0)[k]);
    }
  }

  // ---------------------------------------------------------------------------------------------
  // Collapsing twice is collapsing once
  // ---------------------------------------------------------------------------------------------

  lemma SameOrigin(r: Rule, asc: seq<Row>, sp: seq<Span>, rows: seq<Row>, k: nat)
    requires Summarises(r, asc, sp, rows) && k < |sp|
    ensures Origin(rows, k) == Origin(asc, sp[k].from)
  {
    assert Follows(asc, sp, k);
    assert SameEnds(asc, sp[k], rows[k]);
    if k > 0 { assert SameEnds(asc, sp[k - 1], rows[k - 1]); }
  }

  lemma SameGap(r: Rule, asc: seq<Row>, sp: seq<Span>, rows: seq<Row>, k: nat)
    requires Summarises(r, asc, sp, rows) && 0 < k < |sp|
    ensures 0 < sp[k].from && (GapOk(r, rows, k) <==> GapOk(r, asc, sp[k].from))
  {
    assert Follows(asc, sp, k);
    assert SameEnds(asc, sp[k], rows[k]) && SameEnds(asc, sp[k - 1], rows[k - 1]);
  }

  /** An unbroken run of rows is an unbroken run of their legs. */
  lemma {:induction false} UnbrokenLegs(r: Rule, asc: seq<Row>, sp: seq<Span>, rows: seq<Row>, k: nat, m: nat)
    requires Summarises(r, asc, sp, rows) && k <= m < |sp| && Unbroken(r, rows, k, m)
    ensures sp[k].from < sp[m].to && Unbroken(r, asc, sp[k].from, sp[m].to - 1)
    decreases m
  {
    assert Follows(asc, sp, m) && Greedy(r, asc, sp[m]);
    if k < m {
      UnbrokenLegs(r, asc, sp, rows, k, m - 1);
      assert GapOk(r, rows, m);
      SameGap(r, asc, sp, rows, m);
    }
  }

  /** If row m ended a round trip from row k, its last leg would end one from k's first leg. */
  lemma QualifyingLegs(r: Rule, asc: seq<Row>, sp: seq<Span>, rows: seq<Row>, k: nat, m: int)
    requires Summarises(r, asc, sp, rows) && Qualifies(r, rows, k, m)
    ensures sp[k].to <= sp[m].to - 1 < |asc| && Qualifies(r, asc, sp[k].from, sp[m].to - 1)
  {
    LaterSpanEndsLater(r, asc, sp, k, m);
    UnbrokenLegs(r, asc, sp, rows, k, m);
    SameOrigin(r, asc, sp, rows, k);
    assert SameEnds(asc, sp[m], rows[m]);
  }

  /** After a collapse no row ends a round trip that starts with an earlier one. */
  lemma NothingLeftToMerge(r: Rule, asc: seq<Row>, sp: seq<Span>, rows: seq<Row>, k: nat, m: int)
    requires Summarises(r, asc, sp, rows)
    ensures !Qualifies(r, rows, k, m)
  {
    if Qualifies(r, rows, k, m) {
      assert Greedy(r, asc, sp[k]);
      QualifyingLegs(r, asc, sp, rows, k, m);
    }
  }

  lemma {:induction false} LaterSpanEndsLater(r: Rule, asc: seq<Row>, sp: seq<Span>, k: nat, m: nat)
    requires GreedyPartition(r, asc, sp) && k < m < |sp|
    ensures sp[k].to <= sp[m].to - 1
    decreases m
  {
    assert Follows(asc, sp, m);
    if k < m - 1 {
      LaterSpanEndsLater(r, asc, sp, k, m - 1);
    }
  }

  /** If every chain is a single row, nothing changes. */
  lemma {:induction false} SingleChains(rows: seq<Row>, es: seq<nat>, i: nat)
    requires |es| == |rows| && EndsOk(es) && i <= |rows| && forall k :: 0 <= k < |rows| ==> es[k] == k
    ensures |Chains(rows, es, i)| == |rows| - i
    ensures forall k :: 0 <= k < |rows| - i ==> Chains(rows, es, i)[k] == [rows[i + k]]
    decreases |rows| - i
  {
    if i < |rows| {
      SingleChains(rows, es, i + 1);
      var rest := Chains(rows, es, i + 1);
      var ch := Chains(rows, es, i);
      assert rows[i..i + 1] == [rows[i]];
      assert ch[0] == [rows[i]];
      forall k | 0 < k < |rows| - i ensures ch[k] == [rows[i + k]] {
        assert ch[k] == rest[k - 1] == [rows[(i + 1) + (k - 1)]];
      }
    }
  }

  lemma UnmergeableUnchanged(r: Rule, rows: seq<Row>)
    requires forall k: nat, m :: !Qualifies(r, rows, k, m)
    ensures CollapsedAsc(r, rows) == rows
  {
    var es := Ends(r, rows);
    forall k | 0 <= k < |rows| ensures es[k] == k {
      assert Best(r, rows, k) == k;
    }
    SingleChains(rows, es, 0);
    assert forall x: Row :: MERGE([x]) == x;
  }

  /** For any distance function, collapsing an already collapsed list returns it unchanged. */
  lemma CollapseIsIdempotent(r: Rule, ds: seq<Row>)
    ensures Collapsed(r, Collapsed(r, ds)) == Collapsed(r, ds)
  {
    var asc := Reverse(ds);
    var rows := CollapsedAsc(r, asc);
    CollapseSummarises(r, asc);
    forall k: nat, m ensures !Qualifies(r, rows, k, m) {
      NothingLeftToMerge(r, asc, Spans(Ends(r, asc), 0), rows, k, m);
    }
    UnmergeableUnchanged(r, rows);
    assert Reverse(Reverse(rows)) == rows;
  }

  /** The partition the rows come from, stated without the scan: its spans are consecutive, non-empty
    * and cover the list; a span of two or more ends within the radius of its origin over gaps in
    * [0, maxGap]; no later drive of the same unbroken run does; and it is the only such partition. */
  lemma CollapsePartitionsMaximally(r: Rule, asc: seq<Row>, sp: seq<Span>)
    ensures GreedyPartition(r, asc, sp) <==> sp == Spans(Ends(r, asc), 0)
  {
    SpansAreGreedy(r, asc);
    if GreedyPartition(r, asc, sp) {
      GreedyPartitionUnique(r, asc, sp, 0);
      assert sp[0..] == sp;
    }
  }

  lemma {:induction false} StartsAscend(r: Rule, asc: seq<Row>, sp: seq<Span>, k: nat, m: nat)
    requires GreedyPartition(r, asc, sp) && k < m < |sp|
    ensures sp[k].from < sp[m].from
    decreases m
  {
    assert Follows(asc, sp, m) && Follows(asc, sp, m - 1);
    if k < m - 1 {
      StartsAscend(r, asc, sp, k, m - 1);
    }
  }

  ghost predicate NewestFirst(ds: seq<Row>) {
    forall i, j :: 0 <= i < j < |ds| ==> ds[j].d.start <= ds[i].d.start
  }

  /** Newest first in, newest first out. */
  lemma OrderKept(r: Rule, ds: seq<Row>)
    requires NewestFirst(ds)
    ensures NewestFirst(Collapsed(r, ds))
  {
    var asc := Reverse(ds);
    var sp, rows := Spans(Ends(r, asc), 0), CollapsedAsc(r, asc);
    CollapseSummarises(r, asc);
    forall i, j | 0 <= i < j < |rows| ensures rows[i].d.start <= rows[j].d.start {
      StartsAscend(r, asc, sp, i, j);
      assert SameEnds(asc, sp[i], rows[i]) && SameEnds(asc, sp[j], rows[j]);
    }
  }

  // ---------------------------------------------------------------------------------------------
  // The merged figures
  // ---------------------------------------------------------------------------------------------

  lemma MergeDistance(chain: seq<Row>)
    requires chain != []
    ensures Merge(chain).d.distance == Sum(DistanceOf, chain)
  {
    if |chain| == 1 {
      assert chain == [chain[0]];
      SumOne(DistanceOf, chain[0]);
    }
  }

  function Flat(chains: seq<seq<Row>>): seq<Row> {
    if chains == [] then [] else chains[0] + Flat(chains[1..])
  }

  lemma FlatCons(c: seq<Row>, rest: seq<seq<Row>>)
    ensures Flat([c] + rest) == c + Flat(rest)
  {
    assert ([c] + rest)[1..] == rest;
  }

  lemma {:induction false} ChainsCover(asc: seq<Row>, es: seq<nat>, i: nat)
    requires |es| == |asc| && EndsOk(es) && i <= |asc|
    ensures Flat(Chains(asc, es, i)) == asc[i..]
    decreases |asc| - i
  {
    if i < |asc| {
      ChainsCover(asc, es, es[i] + 1);
      assert asc[i..] == asc[i..es[i] + 1] + asc[es[i] + 1..];
      FlatCons(asc[i..es[i] + 1], Chains(asc, es, es[i] + 1));
    }
  }

  lemma MapCons(f: seq<Row> -> Row, c: seq<Row>, tail: seq<seq<Row>>)
    ensures MapChains(f, [c] + tail) == [f(c)] + MapChains(f, tail)
  {
    assert ([c] + tail)[1..] == tail;
  }

  lemma MappedDistanceCons(f: seq<Row> -> Row, c: seq<Row>, tail: seq<seq<Row>>)
    requires DistanceOf(f(c)) == Sum(DistanceOf, c)
    requires Sum(DistanceOf, MapChains(f, tail)) == Sum(DistanceOf, Flat(tail))
    ensures Sum(DistanceOf, MapChains(f, [c] + tail)) == Sum(DistanceOf, Flat([c] + tail))
  {
    MapCons(f, c, tail);
    FlatCons(c, tail);
    SumCons(DistanceOf, f(c), MapChains(f, tail));
    SumAppend(DistanceOf, c, Flat(tail));
  }

  lemma {:induction false} MappedDistance(f: seq<Row> -> Row, chains: seq<seq<Row>>)
    requires forall c :: c in chains ==> DistanceOf(f(c)) == Sum(DistanceOf, c)
    ensures Sum(DistanceOf, MapChains(f, chains)) == Sum(DistanceOf, Flat(chains))
  {
    if chains != [] {
      var c, tail := chains[0], chains[1..];
      assert chains == [c] + tail && c in chains && forall d :: d in tail ==> d in chains;
      MappedDistance(f, tail);
      MappedDistanceCons(f, c, tail);
    }
  }

  /** No distance is gained or lost. */
  lemma DistanceKept(r: Rule, ds: seq<Row>)
    ensures Sum(DistanceOf, Collapsed(r, ds)) == Sum(DistanceOf, ds)
  {
    var asc := Reverse(ds);
    var es := Ends(r, asc);
    var chains := Chains(asc, es, 0);
    forall c | c in chains ensures DistanceOf(MERGE(c)) == Sum(DistanceOf, c) {
      MergeDistance(c);
    }
    MappedDistance(MERGE, chains);
    ChainsCover(asc, es, 0);
    assert asc[0..] == asc;
    ReverseIsPermutation(ds);
    SumPermuted(DistanceOf, ds, asc);
    var rows := CollapsedAsc(r, asc);
    ReverseIsPermutation(rows);
    SumPermuted(DistanceOf, rows, Reverse(rows));
  }

  lemma {:induction false} ReverseIsPermutation<T>(xs: seq<T>)
    ensures multiset(Reverse(xs)) == multiset(xs)
  {
    if xs != [] {
      var n := |xs| - 1;
      ReverseIsPermutation(xs[..n]);
      assert xs == xs[..n] + [xs[n]] && Reverse(xs) == [xs[n]] + Reverse(xs[..n]);
    }
  }

  /** The parked time between the legs. */
  function Parked(chain: seq<Row>): real
  {
    if |chain| < 2 then 0.0
    else Parked(chain[..|chain| - 1]) + Seconds(chain[|chain| - 1].d.start - chain[|chain| - 2].d.end)
  }

  lemma {:induction false} DrivingAndParked(chain: seq<Row>)
    requires chain != [] && forall k :: 0 <= k < |chain| ==> chain[k].d.start <= chain[k].d.end
    ensures Sum(SecsOf, chain) + Parked(chain) == Seconds(chain[|chain| - 1].d.end - chain[0].d.start)
  {
    var n := |chain| - 1;
    SumSnoc(SecsOf, chain[..n], chain[n]);
    assert chain == chain[..n] + [chain[n]];
    if n > 0 {
      DrivingAndParked(chain[..n]);
    }
  }

  /** Driving time plus the parked gaps is exactly the span from the first start to the last end. */
  lemma MergedTimesAddUp(chain: seq<Row>)
    requires |chain| >= 2 && forall k :: 0 <= k < |chain| ==> chain[k].d.start <= chain[k].d.end
    ensures var m := Merge(chain); m.drivingSecs + Parked(chain) == Seconds(m.d.end - m.d.start)
  {
    DrivingAndParked(chain);
  }

  ghost predicate Within(lo: real, hi: real, num: real, den: real) {
    lo * den <= num <= hi * den
  }

  /** If f stays between lo and hi times g on every leg, so do the sums. */
  lemma {:induction false} SumWithin(f: Row -> real, g: Row -> real, lo: real, hi: real, chain: seq<Row>)
    requires forall c :: c in chain ==> Within(lo, hi, f(c), g(c))
    ensures Within(lo, hi, Sum(f, chain), Sum(g, chain))
  {
    if chain != [] {
      var n := |chain| - 1;
      SumWithin(f, g, lo, hi, chain[..n]);
      SumSnoc(f, chain[..n], chain[n]);
      SumSnoc(g, chain[..n], chain[n]);
      assert chain == chain[..n] + [chain[n]];
    }
  }

  lemma QuotientBetween(lo: real, hi: real, num: real, den: real)
    requires den > 0.0 && Within(lo, hi, num, den)
    ensures lo <= num / den <= hi
  {
    var q := num / den;
    assert q * den == num;
    if q < lo { TimesStrict(q, lo, den); }
    if q > hi { TimesStrict(hi, q, den); }
  }

  lemma TimesStrict(a: real, b: real, w: real)
    requires a < b && w > 0.0
    ensures a * w < b * w
  {
  }

  lemma SpeedSumsWithin(chain: seq<Row>, lo: real, hi: real)
    requires forall c :: c in chain && c.d.end > c.d.start ==> lo <= c.d.avgSpeed <= hi
    ensures Within(lo, hi, Sum(SpeedSecsOf, chain), Sum(SecsOf, chain))
  {
    SumWithin(SpeedSecsOf, SecsOf, lo, hi, chain);
  }

  lemma MergedSpeedFields(chain: seq<Row>, m: Row)
    requires |chain| >= 2 && m == Merge(chain) && m.drivingSecs > 0.0
    ensures m.drivingSecs == Sum(SecsOf, chain)
    ensures m.d.avgSpeed == Sum(SpeedSecsOf, chain) / m.drivingSecs
  {
  }

  lemma MeanSpeedWithin(chain: seq<Row>, v: real, secs: real, lo: real, hi: real)
    requires secs == Sum(SecsOf, chain) > 0.0 && v == Sum(SpeedSecsOf, chain) / secs
    requires forall c :: c in chain && c.d.end > c.d.start ==> lo <= c.d.avgSpeed <= hi
    ensures lo <= v <= hi
  {
    SpeedSumsWithin(chain, lo, hi);
    QuotientBetween(lo, hi, Sum(SpeedSecsOf, chain), secs);
  }

  /** Legs that take no time together take none each, so they add nothing to the speed. */
  lemma {:induction false} NoTimeNoSpeed(chain: seq<Row>)
    ensures Sum(SecsOf, chain) >= 0.0 && (Sum(SecsOf, chain) == 0.0 ==> Sum(SpeedSecsOf, chain) == 0.0)
  {
    if chain != [] {
      var n := |chain| - 1;
      NoTimeNoSpeed(chain[..n]);
      SumLast(SecsOf, chain);
      SumLast(SpeedSecsOf, chain);
      assert chain[n].d.end > chain[n].d.start ==> SecsOf(chain[n]) > 0.0;
    }
  }

  /** The merged average speed times the driving time is the sum over the legs. */
  lemma MergedSpeedIsWeightedMean(chain: seq<Row>, m: Row)
    requires |chain| >= 2 && m == Merge(chain)
    ensures m.d.avgSpeed * m.drivingSecs == Sum(SpeedSecsOf, chain)
  {
    NoTimeNoSpeed(chain);
    if m.drivingSecs > 0.0 {
      MergedSpeedFields(chain, m);
      QuotientTimes(Sum(SpeedSecsOf, chain), m.drivingSecs, m.d.avgSpeed);
    }
  }

  /** So it lies between the speeds of the legs that took any time. */
  lemma MergedSpeedBetween(chain: seq<Row>, m: Row, lo: real, hi: real)
    requires |chain| >= 2 && m == Merge(chain) && m.drivingSecs > 0.0
    requires forall c :: c in chain && c.d.end > c.d.start ==> lo <= c.d.avgSpeed <= hi
    ensures lo <= m.d.avgSpeed <= hi
  {
    MergedSpeedFields(chain, m);
    MeanSpeedWithin(chain, m.d.avgSpeed, m.drivingSecs, lo, hi);
  }

  predicate Real(c: Row) { c.d.distance > 0.1 }

  /** When each leg of real distance has both an energy and a cost, or neither, the merged rate lies
    * between the rates of the legs that have one. */
  lemma MergedRateBetween(chain: seq<Row>, m: Row, lo: real, hi: real)
    requires |chain| >= 2 && m == Merge(chain) && m.rate.Some?
    requires forall c :: c in chain && Real(c) ==> (c.d.energy > 0.0 <==> c.cost.Some?)
    requires forall c :: c in chain && Real(c) && c.cost.Some? ==> lo <= c.cost.value / c.d.energy <= hi
    ensures lo <= m.rate.value <= hi
  {
    CostSumsWithin(chain, lo, hi);
    QuotientBetween(lo, hi, Sum(CostOf, chain), Sum(EnergyOf, chain));
  }

  lemma CostSumsWithin(chain: seq<Row>, lo: real, hi: real)
    requires forall c :: c in chain && Real(c) ==> (c.d.energy > 0.0 <==> c.cost.Some?)
    requires forall c :: c in chain && Real(c) && c.cost.Some? ==> lo <= c.cost.value / c.d.energy <= hi
    ensures Within(lo, hi, Sum(CostOf, chain), Sum(EnergyOf, chain))
  {
    forall c | c in chain ensures Within(lo, hi, CostOf(c), EnergyOf(c)) {
      if Real(c) && c.cost.Some? {
        QuotientTimes(c.cost.value, c.d.energy, c.cost.value / c.d.energy);
      }
    }
    SumWithin(CostOf, EnergyOf, lo, hi, chain);
  }

  lemma QuotientTimes(num: real, den: real, q: real)
    requires den > 0.0 && q == num / den
    ensures q * den == num
  {
  }

  /** The three-valued join: any trailer, else a known absence, else unknown. */
  function Join(a: Option<bool>, b: Option<bool>): Option<bool> {
    if a == Some(true) || b == Some(true) then Some(true)
    else if a == Some(false) || b == Some(false) then Some(false)
    else None
  }

  lemma AnyJoins(p: Row -> bool, a: seq<Row>, b: seq<Row>)
    ensures Any(p, a + b) == (Any(p, a) || Any(p, b))
  {
    AnyIff(p, a);
    AnyIff(p, b);
    AnyIff(p, a + b);
    assert forall c :: c in a + b <==> c in a || c in b;
  }

  lemma AnyPermuted(p: Row -> bool, a: seq<Row>, b: seq<Row>)
    requires multiset(a) == multiset(b)
    ensures Any(p, a) == Any(p, b)
  {
    AnyIff(p, a);
    AnyIff(p, b);
    assert forall c :: (c in a <==> c in multiset(a)) && (c in b <==> c in multiset(b));
  }

  /** The trailer flag does not depend on the order of the legs. */
  lemma TrailerOrderFree(a: seq<Row>, b: seq<Row>)
    requires multiset(a) == multiset(b)
    ensures MergedTrailer(a) == MergedTrailer(b)
  {
    AnyPermuted(Towing, a, b);
    AnyPermuted(NotTowing, a, b);
  }

  /** The trailer flag of a chain is the join of the flags of its parts, however it is cut; merging
    * twice in stages therefore gives the same flag as merging once. */
  lemma TrailerIsJoin(a: seq<Row>, b: seq<Row>)
    ensures MergedTrailer(a + b) == Join(MergedTrailer(a), MergedTrailer(b))
    ensures MergedTrailer(b + a) == MergedTrailer(a + b)
    ensures |a| >= 2 ==> HasTrailer(Merge(a).d) == MergedTrailer(a)
  {
    AnyJoins(Towing, a, b);
    AnyJoins(NotTowing, a, b);
    AnyJoins(Towing, b, a);
    AnyJoins(NotTowing, b, a);
  }
}

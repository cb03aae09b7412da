/** Collapsing out-and-back drives into one row: the greedy scan and its declarative meaning. */
module RoundTrips {
  import opened Options
  import opened Seqs
  import opened Sums

  datatype Coord = Coord(lat: real, lon: real)

  /** Times are instants in nanoseconds. */
  datatype Drive = Drive(id: string, start: int, end: int, startAt: Coord, endAt: Coord,
                         startSoC: real, endSoC: real, endOdometer: real, distance: real, energy: real,
                         avgSpeed: real, maxSpeed: real, trailer: Option<bool>, trailerOverride: Option<bool>)

  /** A drive row with the figures that are not stored on the drive. */
  datatype Row = Row(d: Drive, cost: Option<real>, currency: string, rate: Option<real>, legs: int, drivingSecs: real)

  /** Any distance at all: nothing about it is used. */
  datatype Rule = Rule(hav: (Coord, Coord) -> real, radius: real, maxGap: int)

  const NANOS := 1000000000.0

  function Seconds(nanos: int): real { nanos as real / NANOS }

  // ---------------------------------------------------------------------------------------------
  // Which end a chain gets
  // ---------------------------------------------------------------------------------------------

  /** The parking spot the truck left from when the previous row has a fix, else the row's own start. */
  function Origin(asc: seq<Row>, i: nat): Coord
    requires i < |asc|
  {
    if i > 0 && (asc[i - 1].d.endAt.lat != 0.0 || asc[i - 1].d.endAt.lon != 0.0) then asc[i - 1].d.endAt
    else asc[i].d.startAt
  }

  predicate GapOk(r: Rule, asc: seq<Row>, j: int)
    requires 0 < j < |asc|
  {
    0 <= asc[j].d.start - asc[j - 1].d.end <= r.maxGap
  }

  /** Every parked gap from row i to row j is acceptable. */
  ghost predicate Unbroken(r: Rule, asc: seq<Row>, i: nat, j: int)
    requires j < |asc|
  {
    forall t :: i < t <= j ==> GapOk(r, asc, t)
  }

  /** Row j ends a round trip that started with row i. */
  ghost predicate Qualifies(r: Rule, asc: seq<Row>, i: nat, j: int) {
    i < j < |asc| && Unbroken(r, asc, i, j) && r.hav(Origin(asc, i), asc[j].d.endAt) <= r.radius
  }

  /** The last row up to hi that ends a round trip from i, or i itself. */
  ghost function BestUpTo(r: Rule, asc: seq<Row>, i: nat, hi: nat): (b: nat)
    requires i <= hi < |asc|
    ensures i <= b <= hi && (b > i ==> Qualifies(r, asc, i, b))
    ensures forall j :: b < j <= hi ==> !Qualifies(r, asc, i, j)
  {
    if hi == i then i
    else if Qualifies(r, asc, i, hi) then hi
    else BestUpTo(r, asc, i, hi - 1)
  }

  ghost function Best(r: Rule, asc: seq<Row>, i: nat): (b: nat)
    requires i < |asc|
    ensures i <= b < |asc|
  {
    BestUpTo(r, asc, i, |asc| - 1)
  }

  /** For every row, the end of a chain that would start there. */
  ghost function Ends(r: Rule, asc: seq<Row>): (es: seq<nat>)
    ensures |es| == |asc| && EndsOk(es)
    ensures forall i :: 0 <= i < |asc| ==> es[i] == Best(r, asc, i)
  {
    seq(|asc|, i requires 0 <= i < |asc| => Best(r, asc, i))
  }

  ghost predicate EndsOk(es: seq<nat>) {
    forall i :: 0 <= i < |es| ==> i <= es[i] < |es|
  }

  /** The rows from..to of one chain. */
  datatype Span = Span(from: nat, to: nat)

  /** The chains from row i on. */
  ghost function Spans(es: seq<nat>, i: nat): (sp: seq<Span>)
    requires EndsOk(es) && i <= |es|
    decreases |es| - i
  {
    if i == |es| then [] else [Span(i, es[i] + 1)] + Spans(es, es[i] + 1)
  }

  /** Span k follows the one before it. */
  ghost predicate Follows(asc: seq<Row>, sp: seq<Span>, k: nat)
    requires k < |sp|
  {
    && sp[k].from < sp[k].to <= |asc|
    && sp[k].from == (if k == 0 then 0 else sp[k - 1].to)
    && (k == |sp| - 1 ==> sp[k].to == |asc|)
  }

  /** A chain of two or more ends a round trip within the radius of its origin, over acceptable gaps,
    * and no later row of the same unbroken run would end one. */
  ghost predicate Greedy(r: Rule, asc: seq<Row>, s: Span) {
    && (s.to - s.from >= 2 ==> Qualifies(r, asc, s.from, s.to - 1))
    && (forall j :: s.to <= j < |asc| ==> !Qualifies(r, asc, s.from, j))
  }

  /** Consecutive non-empty chains that cover every row, each greedy. */
  ghost predicate GreedyPartition(r: Rule, asc: seq<Row>, sp: seq<Span>) {
    && (sp == [] ==> asc == [])
    && (forall k :: 0 <= k < |sp| ==> Follows(asc, sp, k))
    && (forall k :: 0 <= k < |sp| ==> Greedy(r, asc, sp[k]))
  }

  /** A partition of the rows from i on. */
  ghost predicate TailOk(es: seq<nat>, sp: seq<Span>, i: nat) {
    && (sp == [] ==> i == |es|)
    && (sp != [] ==> sp[0].from == i && sp[|sp| - 1].to == |es|)
    && (forall k :: 0 <= k < |sp| ==> SpanOk(es, sp[k]))
    && (forall k :: 0 <= k < |sp| ==> Joined(sp, k))
  }

  ghost predicate SpanOk(es: seq<nat>, s: Span) {
    s.from < s.to <= |es| && s.to == es[s.from] + 1
  }

  ghost predicate Joined(sp: seq<Span>, k: nat)
    requires k < |sp|
  {
    k > 0 ==> sp[k].from == sp[k - 1].to
  }

  lemma TailCons(es: seq<nat>, s: Span, rest: seq<Span>)
    requires EndsOk(es) && SpanOk(es, s) && TailOk(es, rest, s.to)
    ensures TailOk(es, [s] + rest, s.from)
  {
    var sp := [s] + rest;
    forall k | 0 <= k < |sp| ensures SpanOk(es, sp[k]) && Joined(sp, k) {
      if k > 0 {
        assert Joined(rest, k - 1) && SpanOk(es, rest[k - 1]);
      }
    }
  }

  lemma {:induction false} SpansTail(es: seq<nat>, i: nat)
    requires EndsOk(es) && i <= |es|
    ensures TailOk(es, Spans(es, i), i)
    decreases |es| - i
  {
    if i < |es| {
      SpansTail(es, es[i] + 1);
      TailCons(es, Span(i, es[i] + 1), Spans(es, es[i] + 1));
    }
  }

  lemma SpansAreGreedy(r: Rule, asc: seq<Row>)
    ensures GreedyPartition(r, asc, Spans(Ends(r, asc), 0))
  {
    var es := Ends(r, asc);
    var sp := Spans(es, 0);
    SpansTail(es, 0);
    forall k | 0 <= k < |sp| ensures Follows(asc, sp, k) && Greedy(r, asc, sp[k]) {
      assert Joined(sp, k) && SpanOk(es, sp[k]);
    }
  }

  lemma GreedyEnd(r: Rule, asc: seq<Row>, s: Span)
    requires s.from < s.to <= |asc| && Greedy(r, asc, s)
    ensures s.to == Best(r, asc, s.from) + 1
  {
  }

  /** There is only one such partition, so the property says everything about where chains are cut. */
  lemma {:induction false} GreedyPartitionUnique(r: Rule, asc: seq<Row>, sp: seq<Span>, k: nat)
    requires GreedyPartition(r, asc, sp) && k <= |sp|
    ensures var i := if k == 0 then 0 else sp[k - 1].to;
            i <= |asc| && sp[k..] == Spans(Ends(r, asc), i)
    decreases |sp| - k
  {
    if k > 0 { assert Follows(asc, sp, k - 1); }
    if k < |sp| {
      assert Follows(asc, sp, k) && Greedy(r, asc, sp[k]);
      GreedyEnd(r, asc, sp[k]);
      GreedyPartitionUnique(r, asc, sp, k + 1);
      SpansSplit(Ends(r, asc), sp, k);
    }
  }

  lemma SpansSplit(es: seq<nat>, sp: seq<Span>, k: nat)
    requires EndsOk(es) && k < |sp| && sp[k].from < sp[k].to <= |es| && sp[k].to == es[sp[k].from] + 1
    requires sp[k + 1..] == Spans(es, sp[k].to)
    ensures sp[k..] == Spans(es, sp[k].from)
  {
    assert sp[k..] == [sp[k]] + sp[k + 1..];
  }

  // ---------------------------------------------------------------------------------------------
  // Merging a chain
  // ---------------------------------------------------------------------------------------------

  const DistanceOf: Row -> real := (c: Row) => c.d.distance

  /** Time driven: a row that does not end after it starts counts nothing. */
  const SecsOf: Row -> real := (c: Row) => if c.d.end > c.d.start then Seconds(c.d.end - c.d.start) else 0.0
  const SpeedSecsOf: Row -> real :=
    (c: Row) => if c.d.end > c.d.start then c.d.avgSpeed * Seconds(c.d.end - c.d.start) else 0.0

  /** Only rows of real distance carry energy and cost. */
  const EnergyOf: Row -> real := (c: Row) => if c.d.distance > 0.1 && c.d.energy > 0.0 then c.d.energy else 0.0
  const CostOf: Row -> real := (c: Row) => if c.d.distance > 0.1 && c.cost.Some? then c.cost.value else 0.0

  /** A leg that used charge but has no energy, or no cost, spoils the total. */
  const LacksEnergy: Row -> bool := (c: Row) => c.d.distance > 0.1 && c.d.energy <= 0.0 && c.d.startSoC > c.d.endSoC
  const LacksCost: Row -> bool := (c: Row) => c.d.distance > 0.1 && c.cost.None? && c.d.startSoC > c.d.endSoC

  /** The highest top speed of the first n legs, never below zero. */
  function TopSpeed(chain: seq<Row>, n: nat): (v: real)
    requires n <= |chain|
  {
    if n == 0 then 0.0
    else
      var v := TopSpeed(chain, n - 1);
      if chain[n - 1].d.maxSpeed > v then chain[n - 1].d.maxSpeed else v
  }

  function HasTrailer(d: Drive): Option<bool> {
    if d.trailerOverride.Some? then d.trailerOverride else d.trailer
  }

  const Towing: Row -> bool := (c: Row) => HasTrailer(c.d) == Some(true)
  const NotTowing: Row -> bool := (c: Row) => HasTrailer(c.d) == Some(false)

  /** Some leg had one; none had and some leg is known; or nothing is known. */
  function MergedTrailer(chain: seq<Row>): Option<bool> {
    if Any(Towing, chain) then Some(true)
    else if Any(NotTowing, chain) then Some(false)
    else None
  }

  function Merge(chain: seq<Row>): (m: Row)
    requires chain != []
    ensures m.d.start == chain[0].d.start && m.d.startAt == chain[0].d.startAt
    ensures m.d.end == chain[|chain| - 1].d.end && m.d.endAt == chain[|chain| - 1].d.endAt
  {
    if |chain| == 1 then chain[0]
    else
      var first, last := chain[0], chain[|chain| - 1];
      var secs := Sum(SecsOf, chain);
      var energy := if Any(LacksEnergy, chain) then 0.0 else Sum(EnergyOf, chain);
      var cost := if Any(LacksCost, chain) then None else Some(Sum(CostOf, chain));
      Row(first.d.(end := last.d.end, endAt := last.d.endAt, endSoC := last.d.endSoC, endOdometer := last.d.endOdometer,
                   distance := Sum(DistanceOf, chain), maxSpeed := TopSpeed(chain, |chain|),
                   avgSpeed := if secs > 0.0 then Sum(SpeedSecsOf, chain) / secs else first.d.avgSpeed,
                   energy := energy, trailer := MergedTrailer(chain), trailerOverride := None),
          cost,
          if first.currency == "" then last.currency else first.currency,
          if cost.Some? && energy > 0.0 then Some(cost.value / energy) else None,
          |chain|,
          secs)
  }

  const NOWHERE := Coord(0.0, 0.0)
  const BLANK := Row(Drive("", 0, 0, NOWHERE, NOWHERE, 0.0, 0.0, 0.0, 0.0, 0.0, 0.0, 0.0, None, None), None, "", None,
      0, 0.0)

  /** Merge as a total function; chains are never empty. */
  const MERGE: seq<Row> -> Row := (c: seq<Row>) => if c == [] then BLANK else Merge(c)

  // ---------------------------------------------------------------------------------------------
  // What the merged row says of its legs
  // ---------------------------------------------------------------------------------------------

  /** A leg of more than a tenth of a mile over which the charge fell. */
  predicate UsedCharge(c: Row) { c.d.distance > 0.1 && c.d.startSoC > c.d.endSoC }

  predicate Unmeasured(chain: seq<Row>) {
    exists k :: 0 <= k < |chain| && UsedCharge(chain[k]) && chain[k].d.energy <= 0.0
  }

  predicate Unpriced(chain: seq<Row>) { exists k :: 0 <= k < |chain| && UsedCharge(chain[k]) && chain[k].cost == None }

  predicate Towed(c: Row, flag: bool) {
    c.d.trailerOverride == Some(flag) || (c.d.trailerOverride == None && c.d.trailer == Some(flag))
  }

  predicate SomeLeg(chain: seq<Row>, flag: bool) { exists k :: 0 <= k < |chain| && Towed(chain[k], flag) }

  function EnergyTotal(chain: seq<Row>): real {
    Sum((c: Row) => if c.d.distance > 0.1 && c.d.energy > 0.0 then c.d.energy else 0.0, chain)
  }

  function CostTotal(chain: seq<Row>): real {
    Sum((c: Row) => if c.d.distance > 0.1 && c.cost.Some? then c.cost.value else 0.0, chain)
  }

  /** Energy and cost: of the legs over a tenth of a mile, unless one that used charge has none; the rate is their
    * quotient. */
  predicate PricedAsLegs(chain: seq<Row>, m: Row) {
    && m.d.energy == (if Unmeasured(chain) then 0.0 else EnergyTotal(chain))
    && (m.cost == None <==> Unpriced(chain)) && (m.cost.Some? ==> m.cost.value == CostTotal(chain))
    && (m.rate.Some? <==> m.cost.Some? && m.d.energy > 0.0)
    && (m.rate.Some? ==> m.rate.value * m.d.energy == m.cost.value)
  }

  function DrivenSecs(c: Row): real {
    if c.d.end > c.d.start then (c.d.end - c.d.start) as real / 1000000000.0 else 0.0
  }

  /** Distance, driving time in seconds, average and top speed. */
  predicate DrivenAsLegs(chain: seq<Row>, m: Row)
    requires chain != []
  {
    && m.d.distance == Sum((c: Row) => c.d.distance, chain)
    && m.drivingSecs == Sum((c: Row) => DrivenSecs(c), chain)
    && (if m.drivingSecs > 0.0
        then m.d.avgSpeed * m.drivingSecs == Sum((c: Row) => c.d.avgSpeed * DrivenSecs(c), chain)
        else m.d.avgSpeed == chain[0].d.avgSpeed)
    && (forall k :: 0 <= k < |chain| ==> chain[k].d.maxSpeed <= m.d.maxSpeed) && m.d.maxSpeed >= 0.0
    && (m.d.maxSpeed == 0.0 || exists k :: 0 <= k < |chain| && chain[k].d.maxSpeed == m.d.maxSpeed)
  }

  /** What is taken from the first leg and from the last, and the trailer flag of all. */
  predicate EndsAsLegs(chain: seq<Row>, m: Row)
    requires chain != []
  {
    var (first, last) := (chain[0], chain[|chain| - 1]);
    && m.d.id == first.d.id && m.d.start == first.d.start && m.d.startAt == first.d.startAt
    && m.d.startSoC == first.d.startSoC && m.d.end == last.d.end && m.d.endAt == last.d.endAt
    && m.d.endSoC == last.d.endSoC && m.d.endOdometer == last.d.endOdometer && m.legs == |chain|
    && m.currency == (if |first.currency| > 0 then first.currency else last.currency)
    && m.d.trailerOverride == None
    && (m.d.trailer == Some(true) <==> SomeLeg(chain, true))
    && (m.d.trailer == Some(false) <==> SomeLeg(chain, false) && !SomeLeg(chain, true))
  }

  /** m is the row of the legs of a chain. */
  predicate RowOfLegs(chain: seq<Row>, m: Row)
    requires chain != []
  {
    if |chain| == 1 then m == chain[0]
    else PricedAsLegs(chain, m) && DrivenAsLegs(chain, m) && EndsAsLegs(chain, m)
  }

  lemma {:induction false} TopSpeedIsTop(chain: seq<Row>, n: nat)
    requires n <= |chain|
    ensures TopSpeed(chain, n) >= 0.0 && forall k :: 0 <= k < n ==> chain[k].d.maxSpeed <= TopSpeed(chain, n)
    ensures TopSpeed(chain, n) == 0.0 || exists k :: 0 <= k < n && chain[k].d.maxSpeed == TopSpeed(chain, n)
  {
    if n > 0 {
      TopSpeedIsTop(chain, n - 1);
    }
  }

  lemma AnyLeg(p: Row -> bool, chain: seq<Row>)
    ensures Any(p, chain) <==> exists k :: 0 <= k < |chain| && p(chain[k])
  {
    AnyToIff(p, chain, |chain|);
  }

  lemma MergedPrices(chain: seq<Row>)
    requires |chain| >= 2
    ensures PricedAsLegs(chain, Merge(chain))
  {
    AnyLeg(LacksEnergy, chain);
    AnyLeg(LacksCost, chain);
    SumSame((c: Row) => if c.d.distance > 0.1 && c.d.energy > 0.0 then c.d.energy else 0.0, EnergyOf, chain);
    SumSame((c: Row) => if c.d.distance > 0.1 && c.cost.Some? then c.cost.value else 0.0, CostOf, chain);
  }

  lemma MergedDriving(chain: seq<Row>)
    requires |chain| >= 2
    ensures DrivenAsLegs(chain, Merge(chain))
  {
    TopSpeedIsTop(chain, |chain|);
    SumSame((c: Row) => c.d.distance, DistanceOf, chain);
    SumSame((c: Row) => DrivenSecs(c), SecsOf, chain);
    SumSame((c: Row) => c.d.avgSpeed * DrivenSecs(c), SpeedSecsOf, chain);
  }

  lemma MergedEnds(chain: seq<Row>)
    requires |chain| >= 2
    ensures EndsAsLegs(chain, Merge(chain))
  {
    AnyLeg(Towing, chain);
    AnyLeg(NotTowing, chain);
  }

  /** Merge gives the row of the legs. */
  lemma MergedRow(chain: seq<Row>)
    requires chain != []
    ensures RowOfLegs(chain, Merge(chain))
  {
    if |chain| >= 2 {
      MergedPrices(chain);
      MergedDriving(chain);
      MergedEnds(chain);
    }
  }

  method TrailerOf(chain: seq<Row>) returns (t: Option<bool>)
    ensures t == MergedTrailer(chain)
  {
    var known := false;
    for i := 0 to |chain|
      invariant !AnyTo(Towing, chain, i) && known == AnyTo(NotTowing, chain, i)
    {
      var v := HasTrailer(chain[i].d);
      if v.Some? {
        if v.value {
          AnyToIff(Towing, chain, |chain|);
          assert Towing(chain[i]);
          return Some(true);
        }
        known := true;
      }
    }
    return if known then Some(false) else None;
  }

  lemma SecondsPositive(nanos: int)
    ensures Seconds(nanos) > 0.0 <==> nanos > 0
  {
  }

  /** The running totals of one pass over the chain. */
  datatype Totals = Totals(dist: real, top: real, wSpd: real, wDur: real, energy: real, cost: real,
                           allHaveEnergy: bool, hasCost: bool)

  ghost predicate TotalsTo(t: Totals, chain: seq<Row>, n: nat)
    requires n <= |chain|
  {
    && t.dist == SumTo(DistanceOf, chain, n) && t.top == TopSpeed(chain, n)
    && t.wSpd == SumTo(SpeedSecsOf, chain, n) && t.wDur == SumTo(SecsOf, chain, n)
    && t.energy == SumTo(EnergyOf, chain, n) && t.cost == SumTo(CostOf, chain, n)
    && t.allHaveEnergy == !AnyTo(LacksEnergy, chain, n) && t.hasCost == !AnyTo(LacksCost, chain, n)
  }

  /** One leg counted in. */
  method AddLeg(t: Totals, c: Row) returns (t': Totals)
    ensures t'.dist == t.dist + DistanceOf(c) && t'.top == (if c.d.maxSpeed > t.top then c.d.maxSpeed else t.top)
    ensures t'.wSpd == t.wSpd + SpeedSecsOf(c) && t'.wDur == t.wDur + SecsOf(c)
    ensures t'.energy == t.energy + EnergyOf(c) && t'.cost == t.cost + CostOf(c)
    ensures t'.allHaveEnergy == (t.allHaveEnergy && !LacksEnergy(c)) && t'.hasCost == (t.hasCost && !LacksCost(c))
  {
    t' := t.(dist := t.dist + c.d.distance);
    if c.d.maxSpeed > t.top {
      t' := t'.(top := c.d.maxSpeed);
    }
    var dur := Seconds(c.d.end - c.d.start);
    SecondsPositive(c.d.end - c.d.start);
    if dur > 0.0 {
      t' := t'.(wSpd := t.wSpd + c.d.avgSpeed * dur, wDur := t.wDur + dur);
    }
    if c.d.distance > 0.1 {
      var socDropped := c.d.startSoC > c.d.endSoC;
      if c.d.energy > 0.0 {
        t' := t'.(energy := t.energy + c.d.energy);
      } else if socDropped {
        t' := t'.(allHaveEnergy := false);
      }
      if c.cost.Some? {
        t' := t'.(cost := t.cost + c.cost.value);
      } else if socDropped {
        t' := t'.(hasCost := false);
      }
    }
  }

  method MergeChain(chain: seq<Row>) returns (m: Row)
    requires chain != []
    ensures m == Merge(chain) && RowOfLegs(chain, m)
  {
    if |chain| == 1 {
      m := chain[0];
    } else {
      m := MergeLegs(chain);
    }
    MergedRow(chain);
  }

  method MergeLegs(chain: seq<Row>) returns (m: Row)
    requires |chain| >= 2
    ensures m == Merge(chain)
  {
    var last := chain[|chain| - 1];
    var t := Totals(0.0, 0.0, 0.0, 0.0, 0.0, 0.0, true, true);
    for i := 0 to |chain|
      invariant TotalsTo(t, chain, i)
    {
      t := AddLeg(t, chain[i]);
    }
    m := chain[0];
    m := m.(d := m.d.(end := last.d.end, endSoC := last.d.endSoC, endOdometer := last.d.endOdometer,
        endAt := last.d.endAt,
                      distance := t.dist, maxSpeed := t.top));
    if t.wDur > 0.0 {
      m := m.(d := m.d.(avgSpeed := t.wSpd / t.wDur));
    }
    m := m.(drivingSecs := t.wDur, d := m.d.(energy := if t.allHaveEnergy then t.energy else 0.0), cost := None,
        rate := None);
    if t.hasCost {
      m := m.(cost := Some(t.cost));
    }
    if chain[0].currency == "" {
      m := m.(currency := last.currency);
    }
    if m.cost.Some? && m.d.energy > 0.0 {
      m := m.(rate := Some(m.cost.value / m.d.energy));
    }
    var flag := TrailerOf(chain);
    m := m.(legs := |chain|, d := m.d.(trailer := flag, trailerOverride := None));
  }

  // ---------------------------------------------------------------------------------------------
  // The whole collapse
  // ---------------------------------------------------------------------------------------------

  function Reverse<T>(xs: seq<T>): (r: seq<T>)
    ensures |r| == |xs| && forall k :: 0 <= k < |xs| ==> r[k] == xs[|xs| - 1 - k]
  {
    seq(|xs|, k requires 0 <= k < |xs| => xs[|xs| - 1 - k])
  }

  /** The rows of the chains from row i on. */
  ghost function Chains(asc: seq<Row>, es: seq<nat>, i: nat): (chains: seq<seq<Row>>)
    requires |es| == |asc| && EndsOk(es) && i <= |asc|
    ensures NonEmpty(chains)
    decreases |asc| - i
  {
    if i == |asc| then [] else [asc[i..es[i] + 1]] + Chains(asc, es, es[i] + 1)
  }

  ghost predicate NonEmpty(chains: seq<seq<Row>>) {
    forall k :: 0 <= k < |chains| ==> chains[k] != []
  }

  /** f of every chain. */
  ghost function MapChains(f: seq<Row> -> Row, chains: seq<seq<Row>>): (rows: seq<Row>)
    ensures |rows| == |chains| && forall k :: 0 <= k < |rows| ==> rows[k] == f(chains[k])
  {
    seq(|chains|, k requires 0 <= k < |chains| => f(chains[k]))
  }

  /** Oldest first. */
  ghost function CollapsedAsc(r: Rule, asc: seq<Row>): seq<Row> {
    MapChains(MERGE, Chains(asc, Ends(r, asc), 0))
  }

  /** Newest first in, newest first out. */
  ghost function Collapsed(r: Rule, ds: seq<Row>): seq<Row> {
    Reverse(CollapsedAsc(r, Reverse(ds)))
  }

  lemma BestStopsAtBreak(r: Rule, asc: seq<Row>, i: nat, j: nat, hi: nat)
    requires i < j <= hi < |asc| && !GapOk(r, asc, j)
    ensures BestUpTo(r, asc, i, hi) == BestUpTo(r, asc, i, j - 1)
    decreases hi
  {
    assert !Qualifies(r, asc, i, hi);
    if hi > j {
      BestStopsAtBreak(r, asc, i, j, hi - 1);
    }
  }

  ghost predicate AreEnds(r: Rule, asc: seq<Row>, es: seq<nat>) {
    |es| == |asc| && EndsOk(es) && forall i {:trigger Best(r, asc, i)} :: 0 <= i < |asc| ==> es[i] == Best(r, asc, i)
  }

  /** The next leg of an unbroken run. */
  lemma BestStep(r: Rule, asc: seq<Row>, i: nat, j: nat)
    requires i < j < |asc| && Unbroken(r, asc, i, j - 1) && GapOk(r, asc, j)
    ensures Unbroken(r, asc, i, j)
    ensures BestUpTo(r, asc, i, j) ==
            if r.hav(Origin(asc, i), asc[j].d.endAt) <= r.radius then j else BestUpTo(r, asc, i, j - 1)
  {
  }

  method FarthestEnd(r: Rule, asc: seq<Row>, i: nat, ghost es: seq<nat>) returns (best: nat)
    requires i < |asc| && AreEnds(r, asc, es)
    ensures best == es[i]
  {
    var origin := asc[i].d.startAt;
    if i > 0 && (asc[i - 1].d.endAt.lat != 0.0 || asc[i - 1].d.endAt.lon != 0.0) {
      origin := asc[i - 1].d.endAt;
    }
    best := i;
    for j := i + 1 to |asc|
      invariant best == BestUpTo(r, asc, i, j - 1) && Unbroken(r, asc, i, j - 1)
    {
      var gap := asc[j].d.start - asc[j - 1].d.end;
      if gap < 0 || gap > r.maxGap {
        BestStopsAtBreak(r, asc, i, j, |asc| - 1);
        assert best == Best(r, asc, i);
        return;
      }
      BestStep(r, asc, i, j);
      if r.hav(origin, asc[j].d.endAt) <= r.radius {
        best := j;
      }
    }
    assert best == Best(r, asc, i);
  }

  /** f of the chains from row i on. */
  ghost function RowsFrom(f: seq<Row> -> Row, asc: seq<Row>, es: seq<nat>, i: nat): seq<Row>
    requires |es| == |asc| && EndsOk(es) && i <= |asc|
    decreases |asc| - i
  {
    if i == |asc| then [] else [f(asc[i..es[i] + 1])] + RowsFrom(f, asc, es, es[i] + 1)
  }

  lemma RowsFromStep(f: seq<Row> -> Row, asc: seq<Row>, es: seq<nat>, i: nat, done: seq<Row>)
    requires |es| == |asc| && EndsOk(es) && i < |asc|
    ensures done + RowsFrom(f, asc, es, i) == done + [f(asc[i..es[i] + 1])] + RowsFrom(f, asc, es, es[i] + 1)
  {
    Regroup(done, [f(asc[i..es[i] + 1])], RowsFrom(f, asc, es, es[i] + 1));
  }

  lemma {:induction false} RowsFromMaps(f: seq<Row> -> Row, asc: seq<Row>, es: seq<nat>, i: nat)
    requires |es| == |asc| && EndsOk(es) && i <= |asc|
    ensures RowsFrom(f, asc, es, i) == MapChains(f, Chains(asc, es, i))
    decreases |asc| - i
  {
    if i < |asc| {
      RowsFromMaps(f, asc, es, es[i] + 1);
    }
  }

  /** f merges, written so that only a mention of Merge brings in what merging is. */
  ghost predicate Merges(f: seq<Row> -> Row) {
    forall c {:trigger Merge(c)} :: c != [] ==> f(c) == Merge(c)
  }

  method MergeSpan(asc: seq<Row>, i: nat, best: nat, ghost f: seq<Row> -> Row) returns (m: Row)
    requires i <= best < |asc| && Merges(f)
    ensures m == f(asc[i..best + 1])
  {
    if best > i {
      m := MergeChain(asc[i..best + 1]);
    } else {
      assert asc[i..best + 1] == [asc[i]];
      m := asc[i];
    }
    assert m == Merge(asc[i..best + 1]);
  }

  method CollapseChains(r: Rule, asc: seq<Row>, ghost es: seq<nat>, ghost f: seq<Row> -> Row) returns (merged: seq<Row>)
    requires AreEnds(r, asc, es) && Merges(f)
    ensures merged == RowsFrom(f, asc, es, 0)
  {
    merged := [];
    var i := 0;
    ghost var all := RowsFrom(f, asc, es, 0);
    while i < |asc|
      invariant i <= |asc| && merged + RowsFrom(f, asc, es, i) == all
      decreases |asc| - i
    {
      var best := FarthestEnd(r, asc, i, es);
      var m := MergeSpan(asc, i, best, f);
      RowsFromStep(f, asc, es, i, merged);
      merged := merged + [m];
      i := best + 1;
    }
  }

  // ---------------------------------------------------------------------------------------------
  // What the list of rows says of the drives
  // ---------------------------------------------------------------------------------------------

  /** No drive of i+1..j starts before the one before it ends, or more than the longest gap after. */
  ghost predicate OneRun(r: Rule, asc: seq<Row>, i: int, j: int)
    requires 0 <= i && j < |asc|
  {
    forall t :: i < t <= j ==> asc[t - 1].d.end <= asc[t].d.start <= asc[t - 1].d.end + r.maxGap
  }

  /** Drive j ends within the radius of where the truck stood before drive i: where the last drive ended, if it
    * has a fix, else where this one starts. */
  predicate Returns(r: Rule, asc: seq<Row>, i: int, j: int)
    requires 0 <= i <= j < |asc|
  {
    if i > 0 && asc[i - 1].d.endAt != Coord(0.0, 0.0) then r.hav(asc[i - 1].d.endAt, asc[j].d.endAt) <= r.radius
    else r.hav(asc[i].d.startAt, asc[j].d.endAt) <= r.radius
  }

  /** Row m stands for the drives i..j-1: one drive, or a run of several that returns; and no drive from j on
    * returns in the same run. */
  ghost predicate StandsFor(r: Rule, asc: seq<Row>, i: int, j: int, m: Row) {
    && 0 <= i < j <= |asc| && RowOfLegs(asc[i..j], m)
    && (j - i >= 2 ==> OneRun(r, asc, i, j - 1) && Returns(r, asc, i, j - 1))
    && (forall k :: j <= k < |asc| && OneRun(r, asc, i, k) ==> !Returns(r, asc, i, k))
  }

  /** The rows, oldest first, stand for the drives between successive cuts. */
  ghost predicate Explains(r: Rule, asc: seq<Row>, rows: seq<Row>, cuts: seq<int>) {
    && |cuts| == |rows| + 1 && cuts[0] == 0 && cuts[|rows|] == |asc|
    && forall k :: 0 <= k < |rows| ==> StandsFor(r, asc, cuts[k], cuts[k + 1], rows[k])
  }

  /** Rows for the stretches between cuts, from i on, each as ok says. */
  ghost predicate CutInto(ok: iset<(int, int, Row)>, n: int, i: int, rows: seq<Row>, cuts: seq<int>) {
    && |cuts| == |rows| + 1 && cuts[0] == i && cuts[|rows|] == n
    && forall k :: 0 <= k < |rows| ==> (cuts[k], cuts[k + 1], rows[k]) in ok
  }

  lemma CutCons(ok: iset<(int, int, Row)>, n: int, i: int, j: int, m: Row, rows: seq<Row>, cuts: seq<int>)
    requires (i, j, m) in ok && CutInto(ok, n, j, rows, cuts)
    ensures CutInto(ok, n, i, [m] + rows, [i] + cuts)
  {
  }

  lemma ChainsCons(f: seq<Row> -> Row, asc: seq<Row>, es: seq<nat>, i: nat)
    requires |es| == |asc| && EndsOk(es) && i < |asc|
    ensures MapChains(f, Chains(asc, es, i)) == [f(asc[i..es[i] + 1])] + MapChains(f, Chains(asc, es, es[i] + 1))
  {
    assert Chains(asc, es, i) == [asc[i..es[i] + 1]] + Chains(asc, es, es[i] + 1);
  }

  lemma {:induction false} ChainsCut(ok: iset<(int, int, Row)>, f: seq<Row> -> Row, asc: seq<Row>, es: seq<nat>, i: nat)
      returns (cuts: seq<int>)
    requires i <= |asc| == |es| && EndsOk(es)
    requires forall j :: 0 <= j < |asc| ==> (j, es[j] + 1, f(asc[j..es[j] + 1])) in ok
    ensures CutInto(ok, |asc|, i, MapChains(f, Chains(asc, es, i)), cuts)
    decreases |asc| - i
  {
    if i == |asc| {
      cuts := [i];
    } else {
      var rest := ChainsCut(ok, f, asc, es, es[i] + 1);
      ChainsCons(f, asc, es, i);
      CutCons(ok, |asc|, i, es[i] + 1, f(asc[i..es[i] + 1]), MapChains(f, Chains(asc, es, es[i] + 1)), rest);
      cuts := [i] + rest;
    }
  }

  lemma RunIsUnbroken(r: Rule, asc: seq<Row>, i: nat, j: int)
    requires j < |asc|
    ensures OneRun(r, asc, i, j) <==> Unbroken(r, asc, i, j)
  {
    assert forall t :: i < t <= j ==>
             (GapOk(r, asc, t) <==> asc[t - 1].d.end <= asc[t].d.start <= asc[t - 1].d.end + r.maxGap);
  }

  lemma ReturnsIff(r: Rule, asc: seq<Row>, i: nat, j: int)
    requires i < j < |asc|
    ensures Qualifies(r, asc, i, j) <==> OneRun(r, asc, i, j) && Returns(r, asc, i, j)
  {
    RunIsUnbroken(r, asc, i, j);
  }

  lemma SpanStands(r: Rule, asc: seq<Row>, s: Span)
    requires s.from < s.to <= |asc| && Greedy(r, asc, s)
    ensures StandsFor(r, asc, s.from, s.to, Merge(asc[s.from..s.to]))
  {
    MergedRow(asc[s.from..s.to]);
    forall j | s.from < j < |asc|
      ensures Qualifies(r, asc, s.from, j) <==> OneRun(r, asc, s.from, j) && Returns(r, asc, s.from, j)
    {
      ReturnsIff(r, asc, s.from, j);
    }
  }

  lemma BestIsGreedy(r: Rule, asc: seq<Row>, es: seq<nat>, i: nat)
    requires i < |asc| && es == Ends(r, asc)
    ensures Greedy(r, asc, Span(i, es[i] + 1))
  {
    assert es[i] == Best(r, asc, i);
  }

  lemma CutsExplain(r: Rule, asc: seq<Row>, ok: iset<(int, int, Row)>, rows: seq<Row>, cuts: seq<int>)
    requires CutInto(ok, |asc|, 0, rows, cuts) && forall i, j, m :: (i, j, m) in ok ==> StandsFor(r, asc, i, j, m)
    ensures Explains(r, asc, rows, cuts)
  {
  }

  lemma ChainStands(r: Rule, asc: seq<Row>, f: seq<Row> -> Row, es: seq<nat>, i: nat)
    requires Merges(f) && i < |asc| && es == Ends(r, asc)
    ensures StandsFor(r, asc, i, es[i] + 1, f(asc[i..es[i] + 1]))
  {
    BestIsGreedy(r, asc, es, i);
    SpanStands(r, asc, Span(i, es[i] + 1));
    assert f(asc[i..es[i] + 1]) == Merge(asc[i..es[i] + 1]);
  }

  lemma ChainsExplain(r: Rule, asc: seq<Row>, f: seq<Row> -> Row, es: seq<nat>)
    requires Merges(f) && es == Ends(r, asc)
    ensures exists cuts :: Explains(r, asc, MapChains(f, Chains(asc, es, 0)), cuts)
  {
    var ok := iset p: (int, int, Row) | StandsFor(r, asc, p.0, p.1, p.2);
    forall j | 0 <= j < |asc| ensures (j, es[j] + 1, f(asc[j..es[j] + 1])) in ok {
      ChainStands(r, asc, f, es, j);
    }
    var cuts := ChainsCut(ok, f, asc, es, 0);
    CutsExplain(r, asc, ok, MapChains(f, Chains(asc, es, 0)), cuts);
  }

  lemma CollapsedExplains(r: Rule, ds: seq<Row>)
    ensures exists cuts :: Explains(r, Reverse(ds), Reverse(Collapsed(r, ds)), cuts)
  {
    ChainsExplain(r, Reverse(ds), MERGE, Ends(r, Reverse(ds)));
    assert Reverse(Collapsed(r, ds)) == CollapsedAsc(r, Reverse(ds));
  }

  /** Newest first in, newest first out: the rows stand for runs of drives that return, each as long as can be. */
  method CollapseRoundTrips(r: Rule, ds: seq<Row>) returns (out: seq<Row>)
    ensures out == Collapsed(r, ds)
    ensures exists cuts :: Explains(r, Reverse(ds), Reverse(out), cuts)
  {
    CollapsedExplains(r, ds);
    if |ds| < 2 {
      ShortListUnchanged(r, ds);
      return ds;
    }
    ghost var es := Ends(r, Reverse(ds));
    var merged := CollapseChains(r, Reverse(ds), es, MERGE);
    RowsFromMaps(MERGE, Reverse(ds), es, 0);
    out := Reverse(merged);
  }

  lemma ShortListUnchanged(r: Rule, ds: seq<Row>)
    requires |ds| < 2
    ensures Collapsed(r, ds) == ds
  {
    var asc := Reverse(ds);
    assert asc == ds;
    if |ds| == 1 {
      assert Chains(asc, Ends(r, asc), 1) == [];
      assert asc[0..1] == asc == [asc[0]];
      assert Chains(asc, Ends(r, asc), 0) == [asc];
      assert MERGE(asc) == asc[0];
    }
  }
}

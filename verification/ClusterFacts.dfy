/** What an answer of the classification says of the charges, in terms of their own power, place and energy.
  *
  * Charges have distinct ids; an answer is any that an order of the groups can give.
  */
module ClusterFacts {
  import opened Sets
  import opened DensityGraph
  import opened Dbscan
  import opened Sums
  import opened Clusters
  import opened ClusterLaws

  // ---------------------------------------------------------------------------------------------
  // Charges near each other
  // ---------------------------------------------------------------------------------------------

  predicate Nowhere(pt: ChargePoint) { pt.lat == 0.0 && pt.lon == 0.0 }

  predicate SlowLocated(p: Params, pt: ChargePoint) { pt.power < p.fastMin && !Nowhere(pt) }

  predicate Within(hav: Metric, p: Params, a: ChargePoint, b: ChargePoint) {
    a == b || hav(LatLon(a.lat, a.lon), LatLon(b.lat, b.lon)) <= p.eps
  }

  /** The slow located charges within the radius of a, itself included. */
  ghost function Around(hav: Metric, p: Params, pts: seq<ChargePoint>, a: ChargePoint): set<ChargePoint> {
    set b | b in pts && SlowLocated(p, b) && Within(hav, p, a, b)
  }

  ghost predicate CoreCharge(hav: Metric, p: Params, pts: seq<ChargePoint>, a: ChargePoint) {
    a in pts && SlowLocated(p, a) && |Around(hav, p, pts, a)| >= p.minPts
  }

  /** d is core and a is within its radius. */
  ghost predicate CoreNear(hav: Metric, p: Params, pts: seq<ChargePoint>, d: ChargePoint, a: ChargePoint) {
    CoreCharge(hav, p, pts, d) && Within(hav, p, d, a)
  }

  /** A chain of core charges, each within the radius of the one before. */
  ghost predicate CoreChain(hav: Metric, p: Params, pts: seq<ChargePoint>, q: seq<ChargePoint>, a: ChargePoint,
                            b: ChargePoint) {
    && q != [] && q[0] == a && q[|q| - 1] == b && (forall k :: 0 <= k < |q| ==> CoreCharge(hav, p, pts, q[k]))
    && (forall k :: 0 < k < |q| ==> Within(hav, p, q[k - 1], q[k]))
  }

  /** One cluster of the answer has both. */
  ghost predicate Together(clusters: seq<Cluster>, a: ChargePoint, b: ChargePoint) {
    exists c :: c in clusters && a.id in c.members && b.id in c.members
  }

  /** a comes no later than b. */
  ghost predicate NoLater(pts: seq<ChargePoint>, a: ChargePoint, b: ChargePoint) {
    exists i, j :: 0 <= i <= j < |pts| && pts[i] == a && pts[j] == b
  }

  // ---------------------------------------------------------------------------------------------
  // The slow located charges as points of the graph
  // ---------------------------------------------------------------------------------------------

  function GeoOf(p: Params, pts: seq<ChargePoint>): seq<ChargePoint> { Select(p, GeoPool, pts) }

  lemma {:induction false} SelectDistinct(p: Params, pool: Pool, pts: seq<ChargePoint>)
    requires Distinct(Ids(pts))
    ensures Distinct(Ids(Select(p, pool, pts)))
  {
    if pts != [] {
      var n := |pts| - 1;
      var r := Select(p, pool, pts[..n]);
      assert Ids(pts[..n]) == Ids(pts)[..n];
      SelectDistinct(p, pool, pts[..n]);
      forall i | 0 <= i < |r| ensures r[i].id != pts[n].id {
        assert r[i] in pts[..n];
        var j :| 0 <= j < n && pts[..n][j] == r[i];
        assert Ids(pts)[j] != Ids(pts)[n];
      }
    }
  }

  ghost predicate OneEach(geo: seq<ChargePoint>) {
    forall i, j :: 0 <= i < |geo| && 0 <= j < |geo| && geo[i].id == geo[j].id ==> i == j
  }

  lemma GeoOneEach(p: Params, pts: seq<ChargePoint>)
    requires Distinct(Ids(pts))
    ensures OneEach(GeoOf(p, pts))
  {
    SelectDistinct(p, GeoPool, pts);
    var geo := GeoOf(p, pts);
    forall i, j | 0 <= i < |geo| && 0 <= j < |geo| && geo[i].id == geo[j].id ensures i == j {
      assert Ids(geo)[i] == Ids(geo)[j];
    }
  }

  lemma GeoIsSlowLocated(p: Params, pts: seq<ChargePoint>, a: ChargePoint)
    ensures a in GeoOf(p, pts) <==> a in pts && SlowLocated(p, a)
  {
  }

  lemma Spot(geo: seq<ChargePoint>, a: ChargePoint) returns (i: nat)
    requires a in geo
    ensures i < |geo| && geo[i] == a
  {
    i :| 0 <= i < |geo| && geo[i] == a;
  }

  lemma NearIsWithin(hav: Metric, p: Params, geo: seq<ChargePoint>, i: nat, j: nat)
    requires OneEach(geo) && i < |geo| && j < |geo|
    ensures Near(SpaceOf(hav, p, geo), i, j) <==> Within(hav, p, geo[i], geo[j])
  {
  }

  lemma {:induction false} ImageSize<T>(xs: set<int>, at: seq<T>, ys: set<T>)
    requires forall x :: x in xs ==> 0 <= x < |at| && at[x] in ys
    requires forall x, y :: x in xs && y in xs && at[x] == at[y] ==> x == y
    requires forall y :: y in ys ==> exists x :: x in xs && at[x] == y
    ensures |xs| == |ys|
  {
    if xs == {} {
      assert forall y :: y !in ys;
    } else {
      var x := Pick(xs);
      forall y | y in ys - {at[x]} ensures exists z :: z in xs - {x} && at[z] == y {
        var z :| z in xs && at[z] == y;
      }
      ImageSize(xs - {x}, at, ys - {at[x]});
    }
  }

  lemma CoreIsCoreCharge(hav: Metric, p: Params, pts: seq<ChargePoint>, i: nat)
    requires Distinct(Ids(pts)) && i < |GeoOf(p, pts)|
    ensures Core(SpaceOf(hav, p, GeoOf(p, pts)), i) <==> CoreCharge(hav, p, pts, GeoOf(p, pts)[i])
  {
    var geo := GeoOf(p, pts);
    var s := SpaceOf(hav, p, geo);
    GeoOneEach(p, pts);
    GeoIsSlowLocated(p, pts, geo[i]);
    var xs, ys := Neighbours(s, i), Around(hav, p, pts, geo[i]);
    forall x | x in xs ensures 0 <= x < |geo| && geo[x] in ys {
      NearIsWithin(hav, p, geo, i, x);
      GeoIsSlowLocated(p, pts, geo[x]);
    }
    forall y | y in ys ensures exists x :: x in xs && geo[x] == y {
      GeoIsSlowLocated(p, pts, y);
      var x := Spot(geo, y);
      NearIsWithin(hav, p, geo, i, x);
      assert x in xs;
    }
    ImageSize(xs, geo, ys);
  }

  ghost function GraphIn(hav: Metric, p: Params, pts: seq<ChargePoint>): (g: Graph)
    requires SymmetricMetric(hav)
    ensures WellFormed(g) && g.n == |GeoOf(p, pts)|
    ensures forall i, j :: g.near(i, j) <==> Near(SpaceOf(hav, p, GeoOf(p, pts)), i, j)
    ensures forall i :: g.core(i) <==> Core(SpaceOf(hav, p, GeoOf(p, pts)), i)
  {
    GraphOf(SpaceOf(hav, p, GeoOf(p, pts)))
  }

  lemma ChainOfCharges(hav: Metric, p: Params, pts: seq<ChargePoint>, q: seq<int>, i: nat, j: nat)
    requires SymmetricMetric(hav) && Distinct(Ids(pts)) && i < |GeoOf(p, pts)| && j < |GeoOf(p, pts)|
             && Chain(GraphIn(hav, p, pts), q, i, j)
    ensures exists r :: CoreChain(hav, p, pts, r, GeoOf(p, pts)[i], GeoOf(p, pts)[j])
  {
    var g, geo := GraphIn(hav, p, pts), GeoOf(p, pts);
    GeoOneEach(p, pts);
    forall k | 0 <= k < |q| ensures 0 <= q[k] < |geo| && CoreCharge(hav, p, pts, geo[q[k]]) {
      assert g.core(q[k]);
      CoreIsCoreCharge(hav, p, pts, q[k]);
    }
    var r := seq(|q|, k requires 0 <= k < |q| => geo[q[k]]);
    forall k | 0 < k < |r| ensures Within(hav, p, r[k - 1], r[k]) {
      assert g.near(q[k - 1], q[k]);
      NearIsWithin(hav, p, geo, q[k - 1], q[k]);
    }
    assert CoreChain(hav, p, pts, r, geo[i], geo[j]);
  }

  lemma ChainShorter(hav: Metric, p: Params, pts: seq<ChargePoint>, r: seq<ChargePoint>, a: ChargePoint, b: ChargePoint)
    requires CoreChain(hav, p, pts, r, a, b) && |r| > 1
    ensures var c := r[|r| - 2];
            CoreCharge(hav, p, pts, c) && Within(hav, p, c, b) && CoreChain(hav, p, pts, r[..|r| - 1], a, c)
  {
  }

  lemma {:induction false} ChainOfPoints(hav: Metric, p: Params, pts: seq<ChargePoint>, r: seq<ChargePoint>, i: nat,
                                         j: nat)
    requires SymmetricMetric(hav) && Distinct(Ids(pts)) && i < |GeoOf(p, pts)| && j < |GeoOf(p, pts)|
             && CoreChain(hav, p, pts, r, GeoOf(p, pts)[i], GeoOf(p, pts)[j])
    ensures Linked(GraphIn(hav, p, pts), i, j)
    decreases |r|
  {
    var g, geo, n := GraphIn(hav, p, pts), GeoOf(p, pts), |r| - 1;
    GeoOneEach(p, pts);
    assert CoreCharge(hav, p, pts, r[n]);
    CoreIsCoreCharge(hav, p, pts, j);
    if n == 0 {
      LinkedSelf(g, j);
    } else {
      ChainShorter(hav, p, pts, r, geo[i], geo[j]);
      GeoIsSlowLocated(p, pts, r[n - 1]);
      var m := Spot(geo, r[n - 1]);
      ChainOfPoints(hav, p, pts, r[..n], i, m);
      NearIsWithin(hav, p, geo, m, j);
      LinkedStep(g, i, m, j);
    }
  }

  /** Core points are linked exactly when a chain of core charges joins them. */
  lemma LinkedIffChained(hav: Metric, p: Params, pts: seq<ChargePoint>, i: nat, j: nat)
    requires SymmetricMetric(hav) && Distinct(Ids(pts)) && i < |GeoOf(p, pts)| && j < |GeoOf(p, pts)|
    ensures Linked(GraphIn(hav, p, pts), i, j) <==>
            exists r :: CoreChain(hav, p, pts, r, GeoOf(p, pts)[i], GeoOf(p, pts)[j])
  {
    if Linked(GraphIn(hav, p, pts), i, j) {
      var q :| Chain(GraphIn(hav, p, pts), q, i, j);
      ChainOfCharges(hav, p, pts, q, i, j);
    }
    if r :| CoreChain(hav, p, pts, r, GeoOf(p, pts)[i], GeoOf(p, pts)[j]) {
      ChainOfPoints(hav, p, pts, r, i, j);
    }
  }

  // ---------------------------------------------------------------------------------------------
  // The cluster of a slow located charge
  // ---------------------------------------------------------------------------------------------

  /** The slow cluster that point i is put into, before it is named. */
  function SlowClusterAt(k: Case, i: nat): Cluster
    requires |k.labels| == |Geo(k)| && i < |k.labels|
  {
    if k.labels[i] == -1 then Singleton(Geo(k)[i]) else GroupCluster(k, k.labels[i])
  }

  lemma {:induction false} IndexThere(labels: seq<int>, i: nat)
    requires i < |labels|
    ensures i in IndicesOf(labels, labels[i])
  {
    var n := |labels| - 1;
    if i < n {
      IndexThere(labels[..n], i);
    }
  }

  lemma EntryHolds(k: Case, i: nat)
    requires |k.labels| == |Geo(k)| && i < |k.labels|
    ensures SlowClusterAt(k, i) in FromGroup(k.hav, Geo(k), k.labels, k.labels[i])
  {
    var idxs := IndicesOf(k.labels, k.labels[i]);
    IndexThere(k.labels, i);
    var j :| 0 <= j < |idxs| && idxs[j] == i;
    assert GroupOf(Geo(k), k.labels, k.labels[i])[j] == Geo(k)[i];
    if k.labels[i] == -1 {
      assert Singletons(GroupOf(Geo(k), k.labels, -1))[j] == Singleton(Geo(k)[i]);
    }
  }

  lemma {:induction false} SlowHolds(k: Case, order: seq<int>, i: nat)
    requires |k.labels| == |Geo(k)| && (forall l :: l in order ==> l in k.labels) && i < |k.labels|
             && k.labels[i] in order
    ensures SlowClusterAt(k, i) in Slow(k, order)
  {
    var n := |order| - 1;
    assert order == order[..n] + [order[n]];
    if order[n] == k.labels[i] {
      EntryHolds(k, i);
    } else {
      SlowHolds(k, order[..n], i);
    }
  }

  predicate SlowKind(c: Cluster) { c.kind == Home || c.kind == Public }

  lemma NamedAsSlow(k: Case, order: seq<int>, c: Cluster) returns (d: Cluster)
    requires |k.labels| == |Geo(k)| && (forall l :: l in order ==> l in k.labels) && c in Slow(k, order)
    ensures d in NamedOf(k, order) && d == c.(kind := d.kind) && SlowKind(d)
  {
    var sorted := StableSort(Above, Slow(k, order));
    assert c in multiset(sorted);
    var j :| 0 <= j < |sorted| && sorted[j] == c;
    d := Named(sorted, k.p.minPts)[j];
  }

  lemma SlowAsNamed(k: Case, order: seq<int>, d: Cluster) returns (c: Cluster)
    requires |k.labels| == |Geo(k)| && (forall l :: l in order ==> l in k.labels) && d in NamedOf(k, order)
    ensures c in Slow(k, order) && d == c.(kind := d.kind) && SlowKind(d)
  {
    var sorted := StableSort(Above, Slow(k, order));
    var j :| 0 <= j < |sorted| && NamedOf(k, order)[j] == d;
    c := sorted[j];
    assert c in multiset(sorted);
  }

  /** The clusters of the answer: the named slow ones, and one each for fast and unlocated charges, if any. */
  lemma AnswerHasIff(k: Case, order: seq<int>, c: Cluster)
    requires |k.labels| == |Geo(k)| && forall l :: l in order ==> l in k.labels
    ensures var fast, missing := Select(k.p, FastPool, k.pts), Select(k.p, MissingPool, k.pts);
            c in Answer(k, order) <==>
            || c in NamedOf(k, order)
            || (fast != [] && c == FastCluster(k.hav, fast))
            || (missing != [] && c == UnknownCluster(missing))
  {
    var fast := Select(k.p, FastPool, k.pts);
    var all := WithIfAny(NamedOf(k, order), FastCluster(k.hav, fast), fast);
    assert c in all <==> c in multiset(StableSort(Above, all));
  }

  lemma InTheOrder(labels: seq<int>, order: seq<int>, i: nat)
    requires IterationOrder(order, labels) && i < |labels|
    ensures labels[i] in order
  {
    var l := labels[i];
    assert l in labels;
    assert l in order;
  }

  lemma ClusterAt(k: Case, order: seq<int>, i: nat) returns (c: Cluster)
    requires |k.labels| == |Geo(k)| && IterationOrder(order, k.labels) && i < |k.labels|
    ensures c in Answer(k, order) && SlowKind(c) && c == SlowClusterAt(k, i).(kind := c.kind)
  {
    InTheOrder(k.labels, order, i);
    SlowHolds(k, order, i);
    c := NamedAsSlow(k, order, SlowClusterAt(k, i));
    AnswerHasIff(k, order, c);
  }

  // ---------------------------------------------------------------------------------------------
  // Each charge is in one cluster
  // ---------------------------------------------------------------------------------------------

  lemma {:induction false} OnceIfDistinct(ids: seq<string>, id: string)
    requires Distinct(ids)
    ensures multiset(ids)[id] <= 1
  {
    if ids != [] {
      var n := |ids| - 1;
      assert ids == ids[..n] + [ids[n]];
      OnceIfDistinct(ids[..n], id);
    }
  }

  lemma {:induction false} MemberCounts(cs: seq<Cluster>, c: Cluster, id: string)
    requires c in cs && id in c.members
    ensures Bag(MembersOf, cs)[id] >= 1
  {
    var n := |cs| - 1;
    BagLast(MembersOf, cs);
    if cs[n] == c {
      assert id in multiset(c.members);
    } else {
      assert cs == cs[..n] + [cs[n]];
      MemberCounts(cs[..n], c, id);
    }
  }

  lemma {:induction false} OneClusterOf(cs: seq<Cluster>, c: Cluster, d: Cluster, id: string)
    requires c in cs && d in cs && id in c.members && id in d.members && Bag(MembersOf, cs)[id] <= 1
    ensures c == d
  {
    var n := |cs| - 1;
    BagLast(MembersOf, cs);
    assert cs == cs[..n] + [cs[n]];
    if c != d {
      if c == cs[n] {
        assert id in multiset(c.members);
        MemberCounts(cs[..n], d, id);
      } else if d == cs[n] {
        assert id in multiset(d.members);
        MemberCounts(cs[..n], c, id);
      } else {
        OneClusterOf(cs[..n], c, d, id);
      }
    }
  }

  /** With distinct ids, no charge is in two clusters of an answer. */
  lemma InOneCluster(k: Case, order: seq<int>, c: Cluster, d: Cluster, id: string)
    requires Proper(k) && IterationOrder(order, k.labels) && Distinct(Ids(k.pts))
    requires c in Answer(k, order) && d in Answer(k, order) && id in c.members && id in d.members
    ensures c == d
  {
    AnswerConserves(k, order);
    OnceIfDistinct(Ids(k.pts), id);
    OneClusterOf(Answer(k, order), c, d, id);
  }

  lemma MembersAt(k: Case, i: nat, j: nat)
    requires |k.labels| == |Geo(k)| && OneEach(Geo(k)) && i < |k.labels| && j < |k.labels|
    ensures Geo(k)[j].id in SlowClusterAt(k, i).members <==> i == j || k.labels[i] == k.labels[j] != -1
  {
    var (geo, l) := (Geo(k), k.labels[i]);
    if l != -1 {
      var idxs := IndicesOf(k.labels, l);
      assert SlowClusterAt(k, i).members == Ids(GroupOf(geo, k.labels, l));
      if geo[j].id in Ids(GroupOf(geo, k.labels, l)) {
        var m :| 0 <= m < |idxs| && Ids(GroupOf(geo, k.labels, l))[m] == geo[j].id;
        assert geo[idxs[m]].id == geo[j].id;
      }
      if k.labels[j] == l {
        IndexThere(k.labels, j);
        var m :| 0 <= m < |idxs| && idxs[m] == j;
        assert Ids(GroupOf(geo, k.labels, l))[m] == geo[j].id;
      }
    }
  }

  lemma TogetherIffLabel(k: Case, order: seq<int>, i: nat, j: nat)
    requires Proper(k) && IterationOrder(order, k.labels) && Distinct(Ids(k.pts)) && i < |k.labels| && j < |k.labels|
    ensures Together(Answer(k, order), Geo(k)[i], Geo(k)[j]) <==> i == j || k.labels[i] == k.labels[j] != -1
  {
    GeoOneEach(k.p, k.pts);
    MembersAt(k, i, i);
    MembersAt(k, i, j);
    var c := ClusterAt(k, order, i);
    forall d | d in Answer(k, order) && Geo(k)[i].id in d.members ensures d == c {
      InOneCluster(k, order, c, d, Geo(k)[i].id);
    }
  }

  // ---------------------------------------------------------------------------------------------
  // Which slow charges end up together
  // ---------------------------------------------------------------------------------------------

  /** An answer of the program, with the labels it computes and the order it comes from. */
  ghost predicate AnswerOf(k: Case, order: seq<int>, clusters: seq<Cluster>) {
    && SymmetricMetric(k.hav) && Distinct(Ids(k.pts)) && Proper(k) && k.labels == LabelsOf(k.hav, k.p, k.pts)
    && IterationOrder(order, k.labels) && clusters == Answer(k, order)
  }

  lemma OrderOf(hav: Metric, p: Params, pts: seq<ChargePoint>, clusters: seq<Cluster>)
      returns (k: Case, order: seq<int>)
    requires SymmetricMetric(hav) && p.minPts >= 1 && Distinct(Ids(pts)) && Possible(hav, p, pts, clusters)
    ensures k.hav == hav && k.p == p && k.pts == pts && AnswerOf(k, order, clusters)
  {
    k := Case(hav, p, pts, LabelsOf(hav, p, pts));
    ComputedLabelsAreProper(hav, p, pts);
    order :| IterationOrder(order, k.labels) && clusters == Outcome(hav, p, pts, k.labels, order);
  }

  /** An answer, charges with one id included. */
  lemma AnyOrder(hav: Metric, p: Params, pts: seq<ChargePoint>, clusters: seq<Cluster>)
      returns (k: Case, order: seq<int>)
    requires SymmetricMetric(hav) && p.minPts >= 1 && Possible(hav, p, pts, clusters)
    ensures k.hav == hav && k.p == p && k.pts == pts && Proper(k) && IterationOrder(order, k.labels)
    ensures clusters == Answer(k, order)
  {
    k := Case(hav, p, pts, LabelsOf(hav, p, pts));
    ComputedLabelsAreProper(hav, p, pts);
    order :| IterationOrder(order, k.labels) && clusters == Outcome(hav, p, pts, k.labels, order);
  }

  lemma SlowSpot(k: Case, a: ChargePoint) returns (i: nat)
    requires |k.labels| == |Geo(k)| && a in k.pts && SlowLocated(k.p, a)
    ensures i < |k.labels| && Geo(k)[i] == a
  {
    GeoIsSlowLocated(k.p, k.pts, a);
    i := Spot(Geo(k), a);
  }

  /** Two core charges are in one cluster if and only if a chain of core charges joins them. */
  lemma CoresTogetherIffChained(hav: Metric, p: Params, pts: seq<ChargePoint>, clusters: seq<Cluster>, a: ChargePoint,
                                b: ChargePoint)
    requires SymmetricMetric(hav) && p.minPts >= 1 && Distinct(Ids(pts)) && Possible(hav, p, pts, clusters)
    requires CoreCharge(hav, p, pts, a) && CoreCharge(hav, p, pts, b)
    ensures Together(clusters, a, b) <==> exists q :: CoreChain(hav, p, pts, q, a, b)
  {
    var k, order := OrderOf(hav, p, pts, clusters);
    var i := SlowSpot(k, a);
    var j := SlowSpot(k, b);
    CoreIsCoreCharge(hav, p, pts, i);
    CoreIsCoreCharge(hav, p, pts, j);
    var g := GraphIn(hav, p, pts);
    SameLabelIffLinked(g, i, j);
    LinkedIffChained(hav, p, pts, i, j);
    assert k.labels[i] == CoreLabel(g, i) && k.labels[j] == CoreLabel(g, j);
    TogetherIffLabel(k, order, i, j);
  }

  lemma LonelyIsNoise(hav: Metric, p: Params, pts: seq<ChargePoint>, i: nat)
    requires SymmetricMetric(hav) && Distinct(Ids(pts)) && i < |GeoOf(p, pts)|
    requires forall b :: !CoreNear(hav, p, pts, b, GeoOf(p, pts)[i])
    ensures Label(GraphIn(hav, p, pts), i) == -1
  {
    var g := GraphIn(hav, p, pts);
    GeoOneEach(p, pts);
    forall j | g.core(j) ensures !g.near(j, i) {
      CoreIsCoreCharge(hav, p, pts, j);
      NearIsWithin(hav, p, GeoOf(p, pts), j, i);
      assert !CoreNear(hav, p, pts, GeoOf(p, pts)[j], GeoOf(p, pts)[i]);
    }
    NoiseIffNoCoreNear(g, i);
  }

  /** A slow located charge within the radius of no core charge is a cluster of its own. */
  lemma LonelyIsAlone(hav: Metric, p: Params, pts: seq<ChargePoint>, clusters: seq<Cluster>, a: ChargePoint)
    requires SymmetricMetric(hav) && p.minPts >= 1 && Distinct(Ids(pts)) && Possible(hav, p, pts, clusters)
    requires a in pts && SlowLocated(p, a)
    requires forall b :: !CoreNear(hav, p, pts, b, a)
    ensures exists c :: c in clusters && c.members == [a.id] && c.sessions == 1 && c.energy == a.energy
                && c.centroid == LatLon(a.lat, a.lon) && c.radius == 0.0
  {
    var k, order := OrderOf(hav, p, pts, clusters);
    var i := SlowSpot(k, a);
    LonelyIsNoise(hav, p, pts, i);
    assert k.labels[i] == -1;
    var c := ClusterAt(k, order, i);
    assert c == Singleton(a).(kind := c.kind);
  }

  lemma {:induction false} SelectOrder(p: Params, pool: Pool, pts: seq<ChargePoint>, i: nat, j: nat)
    requires i <= j < |Select(p, pool, pts)|
    ensures NoLater(pts, Select(p, pool, pts)[i], Select(p, pool, pts)[j])
  {
    var n := |pts| - 1;
    var r := Select(p, pool, pts[..n]);
    if j < |r| {
      SelectOrder(p, pool, pts[..n], i, j);
      var x, y :| 0 <= x <= y < n && pts[..n][x] == r[i] && pts[..n][y] == r[j];
      assert pts[x] == r[i] && pts[y] == r[j];
    } else if i < |r| {
      assert r[i] in pts[..n];
      var x :| 0 <= x < n && pts[..n][x] == r[i];
      assert pts[x] == r[i] && pts[n] == Select(p, pool, pts)[j];
    } else {
      assert pts[n] == Select(p, pool, pts)[j];
    }
  }

  lemma LeaderIsTogether(k: Case, order: seq<int>, clusters: seq<Cluster>, j: nat)
    requires AnswerOf(k, order, clusters) && j < |Geo(k)| && GraphIn(k.hav, k.p, k.pts).core(j)
    ensures var e := LeaderOf(GraphIn(k.hav, k.p, k.pts), j);
            && 0 <= e < |Geo(k)| && CoreCharge(k.hav, k.p, k.pts, Geo(k)[e])
            && Together(clusters, Geo(k)[e], Geo(k)[j])
  {
    var g := GraphIn(k.hav, k.p, k.pts);
    var e := LeaderOf(g, j);
    SameLabelIffLinked(g, j, e);
    CoreIsCoreCharge(k.hav, k.p, k.pts, e);
    TogetherIffLabel(k, order, e, j);
  }

  /** The leader of a cluster whose number is no larger comes no later than any core charge of the other. */
  lemma LeaderComesFirst(k: Case, order: seq<int>, clusters: seq<Cluster>, j: nat, d: ChargePoint, f: ChargePoint)
    requires AnswerOf(k, order, clusters) && j < |Geo(k)| && GraphIn(k.hav, k.p, k.pts).core(j)
    requires CoreCharge(k.hav, k.p, k.pts, d) && CoreCharge(k.hav, k.p, k.pts, f) && Together(clusters, f, d)
    requires forall n :: 0 <= n < |Geo(k)| && Geo(k)[n] == d ==>
               Label(GraphIn(k.hav, k.p, k.pts), j) <= Label(GraphIn(k.hav, k.p, k.pts), n)
    ensures NoLater(k.pts, Geo(k)[LeaderOf(GraphIn(k.hav, k.p, k.pts), j)], f)
  {
    var g := GraphIn(k.hav, k.p, k.pts);
    var n := SlowSpot(k, d);
    var m := SlowSpot(k, f);
    CoreIsCoreCharge(k.hav, k.p, k.pts, n);
    CoreIsCoreCharge(k.hav, k.p, k.pts, m);
    TogetherIffLabel(k, order, m, n);
    assert k.labels[m] == Label(g, m) && k.labels[n] == Label(g, n);
    SameLabelIffLinked(g, m, n);
    LinkedSelf(g, m);
    LinkedIffSameLeader(g, m, n);
    NumberedByLowestCore(g, n, j);
    SelectOrder(k.p, GeoPool, k.pts, LeaderOf(g, j), m);
  }

  ghost predicate CoreWith(hav: Metric, p: Params, pts: seq<ChargePoint>, clusters: seq<Cluster>, f: ChargePoint,
                           d: ChargePoint) {
    CoreCharge(hav, p, pts, f) && Together(clusters, f, d)
  }

  /** b is a core charge within the radius of a, and the first core charge of b's cluster comes no later than any
    * core charge of any cluster that has a core charge within the radius of a. */
  ghost predicate JoinsEarliest(hav: Metric, p: Params, pts: seq<ChargePoint>, clusters: seq<Cluster>, a: ChargePoint,
                                b: ChargePoint, e: ChargePoint) {
    && CoreNear(hav, p, pts, b, a) && Together(clusters, a, b) && CoreWith(hav, p, pts, clusters, e, b)
    && forall d, f :: CoreNear(hav, p, pts, d, a) && CoreWith(hav, p, pts, clusters, f, d) ==> NoLater(pts, e, f)
  }

  lemma BorderPoint(k: Case, order: seq<int>, clusters: seq<Cluster>, i: nat, d: ChargePoint) returns (j: nat)
    requires AnswerOf(k, order, clusters) && i < |Geo(k)| && !CoreCharge(k.hav, k.p, k.pts, Geo(k)[i])
    requires CoreCharge(k.hav, k.p, k.pts, d) && Within(k.hav, k.p, d, Geo(k)[i])
    ensures var g := GraphIn(k.hav, k.p, k.pts);
            && g.core(j) && g.near(j, i) && Label(g, j) == Label(g, i) && j < |Geo(k)|
            && forall n :: g.core(n) && g.near(n, i) ==> Label(g, j) <= Label(g, n)
  {
    var g := GraphIn(k.hav, k.p, k.pts);
    var n := SlowSpot(k, d);
    GeoOneEach(k.p, k.pts);
    CoreIsCoreCharge(k.hav, k.p, k.pts, i);
    CoreIsCoreCharge(k.hav, k.p, k.pts, n);
    NearIsWithin(k.hav, k.p, Geo(k), n, i);
    NoiseIffNoCoreNear(g, i);
    assert g.core(n) && g.near(n, i);
    BorderTakesSmallest(g, i);
    j :| g.core(j) && g.near(j, i) && Label(g, j) == Label(g, i);
  }

  /** A slow located charge that is not core, but within the radius of a core charge, joins a cluster that has such
    * a core charge: of these, the one whose first core charge comes first. */
  lemma BorderJoinsEarliest(hav: Metric, p: Params, pts: seq<ChargePoint>, clusters: seq<Cluster>, a: ChargePoint)
      returns (b: ChargePoint, e: ChargePoint)
    requires SymmetricMetric(hav) && p.minPts >= 1 && Distinct(Ids(pts)) && Possible(hav, p, pts, clusters)
    requires a in pts && SlowLocated(p, a) && !CoreCharge(hav, p, pts, a)
    requires exists d :: CoreNear(hav, p, pts, d, a)
    ensures JoinsEarliest(hav, p, pts, clusters, a, b, e)
  {
    var k, order := OrderOf(hav, p, pts, clusters);
    var i := SlowSpot(k, a);
    var g := GraphIn(hav, p, pts);
    var d :| CoreNear(hav, p, pts, d, a);
    var j := BorderPoint(k, order, clusters, i, d);
    b, e := Geo(k)[j], Geo(k)[LeaderOf(g, j)];
    GeoOneEach(p, pts);
    CoreIsCoreCharge(hav, p, pts, j);
    NearIsWithin(hav, p, Geo(k), j, i);
    TogetherIffLabel(k, order, i, j);
    LeaderIsTogether(k, order, clusters, j);
    forall d, f | CoreNear(hav, p, pts, d, a) && CoreWith(hav, p, pts, clusters, f, d)
      ensures NoLater(pts, e, f)
    {
      NearByLabel(k, i, j, d);
      LeaderComesFirst(k, order, clusters, j, d, f);
    }
  }

  lemma NearByLabel(k: Case, i: nat, j: nat, d: ChargePoint)
    requires SymmetricMetric(k.hav) && Distinct(Ids(k.pts)) && i < |Geo(k)| && j < |Geo(k)|
    requires CoreCharge(k.hav, k.p, k.pts, d) && Within(k.hav, k.p, d, Geo(k)[i])
    requires var g := GraphIn(k.hav, k.p, k.pts);
             forall n :: g.core(n) && g.near(n, i) ==> Label(g, j) <= Label(g, n)
    ensures forall n :: 0 <= n < |Geo(k)| && Geo(k)[n] == d ==>
              Label(GraphIn(k.hav, k.p, k.pts), j) <= Label(GraphIn(k.hav, k.p, k.pts), n)
  {
    var g := GraphIn(k.hav, k.p, k.pts);
    GeoOneEach(k.p, k.pts);
    forall n | 0 <= n < |Geo(k)| && Geo(k)[n] == d ensures Label(g, j) <= Label(g, n) {
      CoreIsCoreCharge(k.hav, k.p, k.pts, n);
      NearIsWithin(k.hav, k.p, Geo(k), n, i);
      assert g.core(n) && g.near(n, i);
    }
  }

  // ---------------------------------------------------------------------------------------------
  // The figures of a cluster
  // ---------------------------------------------------------------------------------------------

  /** Members, sessions and energy are those of the charges g. */
  ghost predicate CountsUp(c: Cluster, g: seq<ChargePoint>) {
    && |c.members| == |g| && (forall i :: 0 <= i < |g| ==> c.members[i] == g[i].id)
    && c.sessions == |g| && c.energy == Sum((pt: ChargePoint) => pt.energy, g)
  }

  /** The pin is the mean of the places of g, and the radius reaches the farthest of them, no farther. */
  ghost predicate Pinned(hav: Metric, c: Cluster, g: seq<ChargePoint>) {
    && g != []
    && c.centroid.lat * |g| as real == Sum((pt: ChargePoint) => pt.lat, g)
    && c.centroid.lon * |g| as real == Sum((pt: ChargePoint) => pt.lon, g)
    && c.radius >= 0.0 && (forall pt :: pt in g ==> hav(c.centroid, LatLon(pt.lat, pt.lon)) <= c.radius)
    && (c.radius > 0.0 ==> exists pt :: pt in g && hav(c.centroid, LatLon(pt.lat, pt.lon)) == c.radius)
  }

  ghost predicate Unpinned(c: Cluster) { c.centroid == LatLon(0.0, 0.0) && c.radius == 0.0 }

  /** at has exactly the charges of g that have a fix. */
  ghost predicate WithFix(g: seq<ChargePoint>, at: seq<ChargePoint>) {
    |at| <= |g| && forall pt :: multiset(at)[pt] == if Nowhere(pt) then 0 else multiset(g)[pt]
  }

  /** A pin, which for a charge on its own may also be its own place. */
  ghost predicate AtItsPlace(hav: Metric, c: Cluster, g: seq<ChargePoint>) {
    Pinned(hav, c, g) || (|g| == 1 && c.centroid == LatLon(g[0].lat, g[0].lon) && c.radius == 0.0)
  }

  /** c is the cluster of the charges g: all the fast ones, with a pin where some have a fix; all the slow ones
    * without a fix, without a pin; or slow located ones. */
  ghost predicate ClusterOf(hav: Metric, p: Params, pts: seq<ChargePoint>, c: Cluster, g: seq<ChargePoint>) {
    && CountsUp(c, g)
    && match c.kind
       case Fast => (forall pt :: pt in g <==> pt in pts && pt.power >= p.fastMin)
                    && exists at :: WithFix(g, at) && (if at == [] then Unpinned(c) else Pinned(hav, c, at))
       case Unknown => (forall pt :: pt in g <==> pt in pts && pt.power < p.fastMin && Nowhere(pt)) && Unpinned(c)
       case _ => (forall pt :: pt in g ==> pt in pts && SlowLocated(p, pt)) && AtItsPlace(hav, c, g)
  }

  lemma {:induction false} FarthestReaches(hav: Metric, o: LatLon, pts: seq<ChargePoint>)
    ensures forall pt :: pt in pts ==> hav(o, LatLon(pt.lat, pt.lon)) <= Farthest(hav, o, pts)
    ensures Farthest(hav, o, pts) > 0.0 ==>
            exists pt :: pt in pts && hav(o, LatLon(pt.lat, pt.lon)) == Farthest(hav, o, pts)
  {
    if pts != [] {
      var n := |pts| - 1;
      assert pts == pts[..n] + [pts[n]];
      FarthestReaches(hav, o, pts[..n]);
    }
  }

  lemma QuotientTimes(num: real, den: real)
    requires den > 0.0
    ensures num / den * den == num
  {
  }

  lemma MeanIsPinned(hav: Metric, c: Cluster, g: seq<ChargePoint>)
    requires g != [] && c.centroid == Mean(g) && c.radius == Farthest(hav, Mean(g), g)
    ensures Pinned(hav, c, g)
  {
    SumSame((pt: ChargePoint) => pt.lat, LatOf, g);
    SumSame((pt: ChargePoint) => pt.lon, LonOf, g);
    QuotientTimes(Sum(LatOf, g), |g| as real);
    QuotientTimes(Sum(LonOf, g), |g| as real);
    FarthestReaches(hav, Mean(g), g);
  }

  lemma AccountsCountsUp(c: Cluster, g: seq<ChargePoint>)
    requires Accounts(c, g)
    ensures CountsUp(c, g)
  {
    SumSame((pt: ChargePoint) => pt.energy, EnergyOf, g);
  }

  lemma {:induction false} PlacedHasFix(g: seq<ChargePoint>)
    ensures WithFix(g, Placed(g))
  {
    if g != [] {
      var n := |g| - 1;
      PlacedHasFix(g[..n]);
      assert g == g[..n] + [g[n]];
    }
  }

  lemma FastIsClusterOf(hav: Metric, p: Params, pts: seq<ChargePoint>)
    ensures ClusterOf(hav, p, pts, FastCluster(hav, Select(p, FastPool, pts)), Select(p, FastPool, pts))
  {
    var g := Select(p, FastPool, pts);
    var c := FastCluster(hav, g);
    AccountsCountsUp(c, g);
    PlacedHasFix(g);
    if Placed(g) != [] {
      MeanIsPinned(hav, c, Placed(g));
    }
  }

  lemma UnknownIsClusterOf(hav: Metric, p: Params, pts: seq<ChargePoint>)
    ensures ClusterOf(hav, p, pts, UnknownCluster(Select(p, MissingPool, pts)), Select(p, MissingPool, pts))
  {
    AccountsCountsUp(UnknownCluster(Select(p, MissingPool, pts)), Select(p, MissingPool, pts));
  }

  lemma {:induction false} SlowIsClusterOf(k: Case, order: seq<int>, c: Cluster) returns (g: seq<ChargePoint>)
    requires |k.labels| == |Geo(k)| && (forall l :: l in order ==> l in k.labels) && c in Slow(k, order)
    ensures CountsUp(c, g) && (forall pt :: pt in g ==> pt in k.pts && SlowLocated(k.p, pt)) && AtItsPlace(k.hav, c, g)
  {
    var n := |order| - 1;
    if c in Slow(k, order[..n]) {
      g := SlowIsClusterOf(k, order[..n], c);
    } else {
      var l := order[n];
      var group := GroupOf(Geo(k), k.labels, l);
      forall pt | pt in group ensures pt in k.pts && SlowLocated(k.p, pt) {
        GeoIsSlowLocated(k.p, k.pts, pt);
      }
      if l == -1 {
        var j :| 0 <= j < |group| && c == Singleton(group[j]);
        g := [group[j]];
        SumOne((pt: ChargePoint) => pt.energy, group[j]);
      } else {
        g := group;
        AccountsCountsUp(c, g);
        MeanIsPinned(k.hav, c, g);
      }
    }
  }

  lemma RenamedAddsUp(hav: Metric, p: Params, pts: seq<ChargePoint>, c: Cluster, d: Cluster, g: seq<ChargePoint>)
    requires CountsUp(c, g) && (forall pt :: pt in g ==> pt in pts && SlowLocated(p, pt)) && AtItsPlace(hav, c, g)
    requires d == c.(kind := d.kind) && SlowKind(d)
    ensures ClusterOf(hav, p, pts, d, g)
  {
  }

  lemma NamedAddsUp(k: Case, order: seq<int>, c: Cluster)
    requires Proper(k) && IterationOrder(order, k.labels) && c in NamedOf(k, order)
    ensures exists g :: ClusterOf(k.hav, k.p, k.pts, c, g)
  {
    var d := SlowAsNamed(k, order, c);
    var g := SlowIsClusterOf(k, order, d);
    RenamedAddsUp(k.hav, k.p, k.pts, d, c, g);
  }

  /** Every cluster of an answer is the cluster of some of the charges. */
  lemma EveryClusterAddsUp(hav: Metric, p: Params, pts: seq<ChargePoint>, clusters: seq<Cluster>, c: Cluster)
    requires SymmetricMetric(hav) && p.minPts >= 1 && Possible(hav, p, pts, clusters) && c in clusters
    ensures exists g :: ClusterOf(hav, p, pts, c, g)
  {
    var k, order := AnyOrder(hav, p, pts, clusters);
    AnswerHasIff(k, order, c);
    FastIsClusterOf(hav, p, pts);
    UnknownIsClusterOf(hav, p, pts);
    if c in NamedOf(k, order) {
      NamedAddsUp(k, order, c);
    }
  }

  lemma OnceMore(x: real, n: nat)
    ensures x * (n + 1) as real == x * n as real + x
  {
  }

  lemma {:induction false} SumToBetween(f: ChargePoint -> real, g: seq<ChargePoint>, n: nat, lo: real, hi: real)
    requires n <= |g| && forall k :: 0 <= k < |g| ==> lo <= f(g[k]) <= hi
    ensures lo * n as real <= SumTo(f, g, n) <= hi * n as real
  {
    if n > 0 {
      SumToBetween(f, g, n - 1, lo, hi);
      OnceMore(lo, n - 1);
      OnceMore(hi, n - 1);
    }
  }

  lemma TimesLess(a: real, b: real, n: real)
    requires a < b && n > 0.0
    ensures a * n < b * n
  {
  }

  lemma ScaledBetween(x: real, lo: real, hi: real, n: real)
    requires n > 0.0 && lo * n <= x * n <= hi * n
    ensures lo <= x <= hi
  {
    if x < lo {
      TimesLess(x, lo, n);
    }
    if x > hi {
      TimesLess(hi, x, n);
    }
  }

  lemma MeanBetween(f: ChargePoint -> real, g: seq<ChargePoint>, x: real, lo: real, hi: real)
    requires g != [] && x * |g| as real == Sum(f, g) && forall k :: 0 <= k < |g| ==> lo <= f(g[k]) <= hi
    ensures lo <= x <= hi
  {
    SumToBetween(f, g, |g|, lo, hi);
    ScaledBetween(x, lo, hi, |g| as real);
  }

  /** So a pin lies between the members it is taken from, in both coordinates. */
  lemma PinBetweenMembers(hav: Metric, c: Cluster, g: seq<ChargePoint>, lo: LatLon, hi: LatLon)
    requires Pinned(hav, c, g)
    requires forall k :: 0 <= k < |g| ==> lo.lat <= g[k].lat <= hi.lat && lo.lon <= g[k].lon <= hi.lon
    ensures lo.lat <= c.centroid.lat <= hi.lat && lo.lon <= c.centroid.lon <= hi.lon
  {
    MeanBetween((pt: ChargePoint) => pt.lat, g, c.centroid.lat, lo.lat, hi.lat);
    MeanBetween((pt: ChargePoint) => pt.lon, g, c.centroid.lon, lo.lon, hi.lon);
  }

  // ---------------------------------------------------------------------------------------------
  // Rank and names
  // ---------------------------------------------------------------------------------------------

  /** More sessions, or as many and no less energy. */
  predicate NoSmaller(c: Cluster, d: Cluster) {
    c.sessions > d.sessions || (c.sessions == d.sessions && c.energy >= d.energy)
  }

  /** Larger clusters first, the one without a place last. */
  ghost predicate LargestFirst(cs: seq<Cluster>) {
    && (forall i, j :: 0 <= i < j < |cs| && cs[j].kind != Unknown ==> NoSmaller(cs[i], cs[j]))
    && (forall i :: 0 <= i < |cs| - 1 ==> cs[i].kind != Unknown)
  }

  lemma AboveIsSmaller(c: Cluster, d: Cluster)
    ensures !Above(d, c) <==> NoSmaller(c, d)
  {
  }

  lemma AnswerRanks(k: Case, order: seq<int>)
    requires Proper(k) && IterationOrder(order, k.labels)
    ensures LargestFirst(Answer(k, order))
  {
    AnswerDescends(k, order);
    var cs := Answer(k, order);
    forall i, j | 0 <= i < j < |cs| && cs[j].kind != Unknown ensures NoSmaller(cs[i], cs[j]) {
      AboveIsSmaller(cs[i], cs[j]);
    }
  }

  lemma AnswerIsRanked(hav: Metric, p: Params, pts: seq<ChargePoint>, clusters: seq<Cluster>)
    requires SymmetricMetric(hav) && p.minPts >= 1 && Possible(hav, p, pts, clusters)
    ensures LargestFirst(clusters)
  {
    var k, order := AnyOrder(hav, p, pts, clusters);
    AnswerRanks(k, order);
  }

  /** Cluster i is the only Home: it has enough sessions, and no slow located cluster is larger. */
  predicate HomeAt(p: Params, cs: seq<Cluster>, i: nat) {
    && i < |cs| && cs[i].kind == Home && cs[i].sessions >= p.minPts
    && (forall j :: 0 <= j < |cs| && SlowKind(cs[j]) ==> NoSmaller(cs[i], cs[j]))
    && (forall j :: 0 <= j < |cs| && cs[j].kind == Home ==> i == j)
  }

  /** No cluster is Home, and no slow located one has enough sessions. */
  predicate NoHome(p: Params, cs: seq<Cluster>) {
    forall j :: 0 <= j < |cs| && SlowKind(cs[j]) ==> cs[j].kind == Public && cs[j].sessions < p.minPts
  }

  lemma {:induction false} NoHomeAt(cs: seq<Cluster>)
    requires Homes(cs) == multiset{}
    ensures forall j :: 0 <= j < |cs| ==> cs[j].kind != Home
  {
    if cs != [] {
      var n := |cs| - 1;
      BagLast(HomeOf, cs);
      NoHomeAt(cs[..n]);
      assert cs[n] !in HomeOf(cs[n]);
      assert forall j :: 0 <= j < n ==> cs[..n][j] == cs[j];
    }
  }

  /** A bag of one Home: it is there, once, and no other is. */
  lemma {:induction false} OneHomeAt(cs: seq<Cluster>, h: Cluster) returns (i: nat)
    requires Homes(cs) == multiset{h}
    ensures i < |cs| && cs[i] == h && h.kind == Home && forall j :: 0 <= j < |cs| && cs[j].kind == Home ==> i == j
  {
    assert h in Homes(cs);
    var n := |cs| - 1;
    BagLast(HomeOf, cs);
    if cs[n].kind == Home {
      OneOfTwo(Homes(cs[..n]), cs[n], h);
      NoHomeAt(cs[..n]);
      i := n;
    } else {
      i := OneHomeAt(cs[..n], h);
    }
    assert forall j :: 0 <= j < n ==> cs[..n][j] == cs[j];
  }

  lemma OneOfTwo<T>(rest: multiset<T>, x: T, y: T)
    requires rest + multiset{x} == multiset{y}
    ensures rest == multiset{} && x == y
  {
    assert (rest + multiset{x})[x] >= 1;
    assert |rest + multiset{x}| == 1;
    assert |rest| == 0;
  }

  lemma SlowIsGroupOrAlone(k: Case, order: seq<int>, c: Cluster)
    requires Proper(k) && IterationOrder(order, k.labels) && c in Answer(k, order) && SlowKind(c)
    requires forall l :: l in k.labels && l != -1 ==> GroupCluster(k, l).sessions < k.p.minPts
    ensures c.sessions < k.p.minPts
  {
    AnswerHasIff(k, order, c);
    var d := SlowAsNamed(k, order, c);
    SlowComesFrom(k, order, d);
  }

  lemma TopIsNoSmaller(k: Case, order: seq<int>, l: int, c: Cluster)
    requires Proper(k) && IterationOrder(order, k.labels) && c in Answer(k, order) && SlowKind(c) && l in k.labels
    requires forall d :: d in Slow(k, order) ==> !Above(d, GroupCluster(k, l))
    ensures NoSmaller(GroupCluster(k, l), c)
  {
    AnswerHasIff(k, order, c);
    var d := SlowAsNamed(k, order, c);
    AboveIsSmaller(GroupCluster(k, l), d);
  }

  lemma NoneIsHome(k: Case, order: seq<int>)
    requires Proper(k) && IterationOrder(order, k.labels) && Homes(Answer(k, order)) == multiset{}
    requires forall l :: l in k.labels && l != -1 ==> GroupCluster(k, l).sessions < k.p.minPts
    ensures NoHome(k.p, Answer(k, order))
  {
    var cs := Answer(k, order);
    NoHomeAt(cs);
    forall j | 0 <= j < |cs| && SlowKind(cs[j]) ensures cs[j].kind == Public && cs[j].sessions < k.p.minPts {
      SlowIsGroupOrAlone(k, order, cs[j]);
    }
  }

  lemma TopIsHome(k: Case, order: seq<int>, l: int)
    requires Proper(k) && IterationOrder(order, k.labels) && Top(k, l)
    requires Homes(Answer(k, order)) == multiset{GroupCluster(k, l).(kind := Home)}
    requires forall c :: c in Slow(k, order) ==> !Above(c, GroupCluster(k, l))
    ensures exists i :: HomeAt(k.p, Answer(k, order), i)
  {
    var cs := Answer(k, order);
    var i := OneHomeAt(cs, GroupCluster(k, l).(kind := Home));
    forall j | 0 <= j < |cs| && SlowKind(cs[j]) ensures NoSmaller(cs[i], cs[j]) {
      TopIsNoSmaller(k, order, l, cs[j]);
    }
    assert HomeAt(k.p, cs, i);
  }

  lemma HomeIfAny(k: Case, order: seq<int>)
    requires Proper(k) && IterationOrder(order, k.labels)
    ensures NoHome(k.p, Answer(k, order)) || exists i :: HomeAt(k.p, Answer(k, order), i)
  {
    HomeIsTheTopGroup(k, order);
    if Homes(Answer(k, order)) == multiset{} {
      NoneIsHome(k, order);
    } else {
      var l :| Top(k, l) && Homes(Answer(k, order)) == multiset{GroupCluster(k, l).(kind := Home)}
          && forall c :: c in Slow(k, order) ==> !Above(c, GroupCluster(k, l));
      TopIsHome(k, order, l);
    }
  }

  /** An answer has no Home when no slow located cluster has enough sessions; else one, the largest of them. */
  lemma HomeIsLargest(hav: Metric, p: Params, pts: seq<ChargePoint>, clusters: seq<Cluster>)
    requires SymmetricMetric(hav) && p.minPts >= 1 && Possible(hav, p, pts, clusters)
    ensures NoHome(p, clusters) || exists i :: HomeAt(p, clusters, i)
  {
    var k, order := AnyOrder(hav, p, pts, clusters);
    HomeIfAny(k, order);
  }
}

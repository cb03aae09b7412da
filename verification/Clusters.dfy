/** Home / Public / Fast / Unknown: grouping, ranking and labelling of the density clusters. */
module Clusters {
  import opened Sets
  import opened DensityGraph
  import opened Dbscan
  import opened Sums

  datatype LatLon = LatLon(lat: real, lon: real)

  datatype ClusterLabel = Home | Public | Fast | Unknown

  datatype Cluster = Cluster(kind: ClusterLabel, centroid: LatLon, members: seq<string>,
                             sessions: int, energy: real, radius: real)

  datatype Params = Params(eps: real, minPts: int, fastMin: real)

  const DEFAULTS := Params(200.0, 2, 50.0)

  /** Distance between two coordinates; only its symmetry is used. */
  type Metric = (LatLon, LatLon) -> real

  ghost predicate SymmetricMetric(hav: Metric) {
    forall a, b :: hav(a, b) == hav(b, a)
  }

  function Normalised(p: Params): (r: Params)
    ensures r.eps > 0.0 && r.minPts >= 1 && r.fastMin > 0.0
    ensures p.eps <= 0.0 ==> r == Params(200.0, 2, 50.0)
    ensures p.eps > 0.0 ==> r == Params(p.eps, if p.minPts < 1 then 1 else p.minPts,
                                        if p.fastMin <= 0.0 then 50.0 else p.fastMin)
  {
    var p := if p.eps <= 0.0 then DEFAULTS else p;
    var p := if p.minPts < 1 then p.(minPts := 1) else p;
    if p.fastMin <= 0.0 then p.(fastMin := DEFAULTS.fastMin) else p
  }

  const LatOf: ChargePoint -> real := (pt: ChargePoint) => pt.lat
  const LonOf: ChargePoint -> real := (pt: ChargePoint) => pt.lon
  const EnergyOf: ChargePoint -> real := (pt: ChargePoint) => pt.energy
  const IdOf: ChargePoint -> multiset<string> := (pt: ChargePoint) => multiset{pt.id}
  const MembersOf: Cluster -> multiset<string> := (c: Cluster) => multiset(c.members)
  const KwhOf: Cluster -> real := (c: Cluster) => c.energy
  const HomeOf: Cluster -> multiset<Cluster> := (c: Cluster) => if c.kind == Home then multiset{c} else multiset{}

  /** More sessions first, then more energy. */
  const Above: (Cluster, Cluster) -> bool :=
    (a: Cluster, b: Cluster) => if a.sessions != b.sessions then a.sessions > b.sessions else a.energy > b.energy

  lemma AboveRanks()
    ensures Ranking(Above)
  {
  }

  // ---------------------------------------------------------------------------------------------
  // The three pools
  // ---------------------------------------------------------------------------------------------

  datatype Pool = FastPool | MissingPool | GeoPool

  /** Power decides first; only a slow charge can be unlocated. */
  function PoolOf(p: Params, pt: ChargePoint): Pool {
    if pt.power >= p.fastMin then FastPool
    else if pt.lat == 0.0 && pt.lon == 0.0 then MissingPool
    else GeoPool
  }

  function Select(p: Params, pool: Pool, pts: seq<ChargePoint>): (r: seq<ChargePoint>)
    ensures forall pt :: pt in r <==> pt in pts && PoolOf(p, pt) == pool
  {
    if pts == [] then []
    else
      var n := |pts| - 1;
      assert pts == pts[..n] + [pts[n]];
      if PoolOf(p, pts[n]) == pool then Select(p, pool, pts[..n]) + [pts[n]] else Select(p, pool, pts[..n])
  }

  lemma {:induction false} PoolsPartition(p: Params, pts: seq<ChargePoint>)
    ensures multiset(pts) ==
            multiset(Select(p, FastPool, pts)) + multiset(Select(p, MissingPool, pts))
            + multiset(Select(p, GeoPool, pts))
  {
    if pts != [] {
      var n := |pts| - 1;
      PoolsPartition(p, pts[..n]);
      assert pts == pts[..n] + [pts[n]];
    }
  }

  function SpaceOf(hav: Metric, p: Params, geo: seq<ChargePoint>): Space {
    Space(geo, (a: ChargePoint, b: ChargePoint) => hav(LatLon(a.lat, a.lon), LatLon(b.lat, b.lon)), p.eps, p.minPts)
  }

  // ---------------------------------------------------------------------------------------------
  // One cluster from its points
  // ---------------------------------------------------------------------------------------------

  function Ids(pts: seq<ChargePoint>): (r: seq<string>)
    ensures |r| == |pts| && forall i :: 0 <= i < |pts| ==> r[i] == pts[i].id
  {
    seq(|pts|, i requires 0 <= i < |pts| => pts[i].id)
  }

  lemma {:induction false} IdsBag(pts: seq<ChargePoint>)
    ensures multiset(Ids(pts)) == Bag(IdOf, pts)
  {
    if pts != [] {
      var n := |pts| - 1;
      IdsBag(pts[..n]);
      BagLast(IdOf, pts);
      assert Ids(pts) == Ids(pts[..n]) + [pts[n].id];
    }
  }

  /** The farthest of pts from c, never below zero. */
  function Farthest(hav: Metric, c: LatLon, pts: seq<ChargePoint>): (d: real)
    ensures d >= 0.0
  {
    if pts == [] then 0.0
    else
      var n := |pts| - 1;
      var m := Farthest(hav, c, pts[..n]);
      var d := hav(c, LatLon(pts[n].lat, pts[n].lon));
      if d > m then d else m
  }

  function Mean(pts: seq<ChargePoint>): LatLon
    requires pts != []
  {
    LatLon(Sum(LatOf, pts) / |pts| as real, Sum(LonOf, pts) / |pts| as real)
  }

  function Located(hav: Metric, pts: seq<ChargePoint>): Cluster
    requires pts != []
  {
    Cluster(Unknown, Mean(pts), Ids(pts), |pts|, Sum(EnergyOf, pts), Farthest(hav, Mean(pts), pts))
  }

  function Singleton(pt: ChargePoint): Cluster {
    Cluster(Unknown, LatLon(pt.lat, pt.lon), [pt.id], 1, pt.energy, 0.0)
  }

  function Placed(pts: seq<ChargePoint>): seq<ChargePoint> {
    if pts == [] then []
    else
      var n := |pts| - 1;
      if pts[n].lat != 0.0 || pts[n].lon != 0.0 then Placed(pts[..n]) + [pts[n]] else Placed(pts[..n])
  }

  /** Every fast charge counts; only the located ones place the pin. */
  function FastCluster(hav: Metric, pts: seq<ChargePoint>): Cluster {
    var at := Placed(pts);
    Cluster(Fast, if at == [] then LatLon(0.0, 0.0) else Mean(at), Ids(pts), |pts|, Sum(EnergyOf, pts),
            if at == [] then 0.0 else Farthest(hav, Mean(at), at))
  }

  function UnknownCluster(pts: seq<ChargePoint>): Cluster {
    Cluster(Unknown, LatLon(0.0, 0.0), Ids(pts), |pts|, Sum(EnergyOf, pts), 0.0)
  }

  /** c accounts for exactly the charges pts. */
  ghost predicate Accounts(c: Cluster, pts: seq<ChargePoint>) {
    c.members == Ids(pts) && c.sessions == |pts| && c.energy == Sum(EnergyOf, pts)
  }

  method Build(hav: Metric, geo: seq<ChargePoint>, idxs: seq<int>) returns (c: Cluster)
    requires idxs != [] && InRange(idxs, |geo|)
    ensures c == Located(hav, At(geo, idxs))
  {
    ghost var pts := At(geo, idxs);
    var sumLat, sumLon, sumKwh, members := 0.0, 0.0, 0.0, [];
    for k := 0 to |idxs|
      invariant sumLat == Sum(LatOf, pts[..k]) && sumLon == Sum(LonOf, pts[..k]) && sumKwh == Sum(EnergyOf, pts[..k])
      invariant members == Ids(pts[..k])
    {
      var pt := geo[idxs[k]];
      assert pts[..k + 1] == pts[..k] + [pt];
      SumSnoc(LatOf, pts[..k], pt);
      SumSnoc(LonOf, pts[..k], pt);
      SumSnoc(EnergyOf, pts[..k], pt);
      sumLat, sumLon, sumKwh := sumLat + pt.lat, sumLon + pt.lon, sumKwh + pt.energy;
      members := members + [pt.id];
    }
    assert pts[..|idxs|] == pts;
    var centroid := LatLon(sumLat / |idxs| as real, sumLon / |idxs| as real);
    var maxD := 0.0;
    for k := 0 to |idxs|
      invariant maxD == Farthest(hav, centroid, pts[..k])
    {
      var d := hav(centroid, LatLon(geo[idxs[k]].lat, geo[idxs[k]].lon));
      assert pts[..k + 1][..k] == pts[..k];
      if d > maxD {
        maxD := d;
      }
    }
    c := Cluster(Unknown, centroid, members, |idxs|, sumKwh, maxD);
  }

  method FarthestPlaced(hav: Metric, centroid: LatLon, pts: seq<ChargePoint>) returns (maxD: real)
    ensures maxD == Farthest(hav, centroid, Placed(pts))
  {
    maxD := 0.0;
    for k := 0 to |pts|
      invariant maxD == Farthest(hav, centroid, Placed(pts[..k]))
    {
      assert pts[..k + 1][..k] == pts[..k];
      if pts[k].lat == 0.0 && pts[k].lon == 0.0 {
        continue;
      }
      assert (Placed(pts[..k]) + [pts[k]])[..|Placed(pts[..k])|] == Placed(pts[..k]);
      var d := hav(centroid, LatLon(pts[k].lat, pts[k].lon));
      if d > maxD {
        maxD := d;
      }
    }
    assert pts[..|pts|] == pts;
  }

  method BuildFast(hav: Metric, pts: seq<ChargePoint>) returns (c: Cluster)
    ensures c == FastCluster(hav, pts)
  {
    var sumLat, sumLon, sumKwh, members, located := 0.0, 0.0, 0.0, [], 0;
    for k := 0 to |pts|
      invariant sumLat == Sum(LatOf, Placed(pts[..k])) && sumLon == Sum(LonOf, Placed(pts[..k]))
      invariant sumKwh == Sum(EnergyOf, pts[..k]) && members == Ids(pts[..k])
      invariant located == |Placed(pts[..k])|
    {
      assert pts[..k + 1][..k] == pts[..k] && pts[..k + 1] == pts[..k] + [pts[k]];
      SumSnoc(EnergyOf, pts[..k], pts[k]);
      SumSnoc(LatOf, Placed(pts[..k]), pts[k]);
      SumSnoc(LonOf, Placed(pts[..k]), pts[k]);
      members := members + [pts[k].id];
      sumKwh := sumKwh + pts[k].energy;
      if pts[k].lat != 0.0 || pts[k].lon != 0.0 {
        sumLat, sumLon, located := sumLat + pts[k].lat, sumLon + pts[k].lon, located + 1;
      }
    }
    assert pts[..|pts|] == pts;
    var centroid, maxD := LatLon(0.0, 0.0), 0.0;
    if located > 0 {
      centroid := LatLon(sumLat / located as real, sumLon / located as real);
      maxD := FarthestPlaced(hav, centroid, pts);
    }
    c := Cluster(Fast, centroid, members, |pts|, sumKwh, maxD);
  }

  // ---------------------------------------------------------------------------------------------
  // Grouping by label, read in any order
  // ---------------------------------------------------------------------------------------------

  predicate InRange(idxs: seq<int>, n: nat) {
    forall k :: 0 <= k < |idxs| ==> 0 <= idxs[k] < n
  }

  /** The indices labelled l, ascending. */
  function IndicesOf(labels: seq<int>, l: int): (r: seq<int>)
    ensures InRange(r, |labels|)
    ensures forall k :: 0 <= k < |r| ==> labels[r[k]] == l
    ensures l in labels <==> r != []
  {
    if labels == [] then []
    else
      var n := |labels| - 1;
      assert labels == labels[..n] + [labels[n]];
      IndicesOf(labels[..n], l) + if labels[n] == l then [n] else []
  }

  function At(geo: seq<ChargePoint>, idxs: seq<int>): (r: seq<ChargePoint>)
    requires InRange(idxs, |geo|)
    ensures |r| == |idxs| && forall k :: 0 <= k < |idxs| ==> r[k] == geo[idxs[k]]
  {
    seq(|idxs|, k requires 0 <= k < |idxs| => geo[idxs[k]])
  }

  function GroupOf(geo: seq<ChargePoint>, labels: seq<int>, l: int): seq<ChargePoint>
    requires |labels| == |geo|
  {
    At(geo, IndicesOf(labels, l))
  }

  /** An order in which the map of groups may be iterated. */
  ghost predicate IterationOrder(order: seq<int>, labels: seq<int>) {
    Distinct(order) && forall l :: l in order <==> l in labels
  }

  function Singletons(pts: seq<ChargePoint>): (r: seq<Cluster>)
    ensures |r| == |pts| && forall k :: 0 <= k < |pts| ==> r[k] == Singleton(pts[k])
  {
    seq(|pts|, k requires 0 <= k < |pts| => Singleton(pts[k]))
  }

  /** What one map entry contributes: noise falls apart into singletons. */
  function FromGroup(hav: Metric, geo: seq<ChargePoint>, labels: seq<int>, l: int): seq<Cluster>
    requires |labels| == |geo| && l in labels
  {
    if l == -1 then Singletons(GroupOf(geo, labels, l)) else [Located(hav, GroupOf(geo, labels, l))]
  }

  function SlowClusters(hav: Metric, geo: seq<ChargePoint>, labels: seq<int>, order: seq<int>): seq<Cluster>
    requires |labels| == |geo| && forall l :: l in order ==> l in labels
  {
    if order == [] then []
    else SlowClusters(hav, geo, labels, order[..|order| - 1]) + FromGroup(hav, geo, labels, order[|order| - 1])
  }

  function FirstAtLeast(cs: seq<Cluster>, minPts: int, from: nat): (k: nat)
    requires from <= |cs|
    ensures from <= k <= |cs|
    ensures k < |cs| ==> cs[k].sessions >= minPts
    ensures forall j :: from <= j < k ==> cs[j].sessions < minPts
    decreases |cs| - from
  {
    if from == |cs| || cs[from].sessions >= minPts then from else FirstAtLeast(cs, minPts, from + 1)
  }

  /** The first cluster of at least minPts sessions is Home, the others are Public. */
  function Named(cs: seq<Cluster>, minPts: int): (r: seq<Cluster>)
    ensures |r| == |cs|
  {
    var h := FirstAtLeast(cs, minPts, 0);
    seq(|cs|, k requires 0 <= k < |cs| => cs[k].(kind := if k == h then Home else Public))
  }

  function NamedSlow(hav: Metric, p: Params, geo: seq<ChargePoint>, labels: seq<int>, order: seq<int>): seq<Cluster>
    requires |labels| == |geo| && forall l :: l in order ==> l in labels
  {
    Named(StableSort(Above, SlowClusters(hav, geo, labels, order)), p.minPts)
  }

  /** Append c unless it would hold no charge. */
  function WithIfAny(cs: seq<Cluster>, c: Cluster, pts: seq<ChargePoint>): seq<Cluster> {
    if pts == [] then cs else cs + [c]
  }

  /** The answer, as a function of the order in which the groups were iterated. */
  function Outcome(hav: Metric, p: Params, pts: seq<ChargePoint>, labels: seq<int>, order: seq<int>): seq<Cluster>
    requires |labels| == |Select(p, GeoPool, pts)| && forall l :: l in order ==> l in labels
  {
    var fast, missing := Select(p, FastPool, pts), Select(p, MissingPool, pts);
    var named := NamedSlow(hav, p, Select(p, GeoPool, pts), labels, order);
    WithIfAny(StableSort(Above, WithIfAny(named, FastCluster(hav, fast), fast)), UnknownCluster(missing), missing)
  }

  lemma IndicesSnoc(labels: seq<int>, i: nat, l: int)
    requires i < |labels|
    ensures IndicesOf(labels[..i + 1], l) == IndicesOf(labels[..i], l) + if labels[i] == l then [i] else []
  {
    assert labels[..i + 1][..i] == labels[..i];
  }

  predicate GroupedAt(groups: map<int, seq<int>>, x: int, indices: seq<int>) {
    (x in groups <==> indices != []) && (x in groups ==> groups[x] == indices)
  }

  ghost predicate Grouped(groups: map<int, seq<int>>, labels: seq<int>) {
    && (forall l :: l in groups <==> IndicesOf(labels, l) != [])
    && (forall l :: l in groups ==> groups[l] == IndicesOf(labels, l))
  }

  lemma GroupedSnocAt(groups: map<int, seq<int>>, labels: seq<int>, i: nat, x: int)
    requires i < |labels| && GroupedAt(groups, x, IndicesOf(labels[..i], x))
    ensures var l := labels[i];
            GroupedAt(groups[l := if l in groups then groups[l] + [i] else [i]], x, IndicesOf(labels[..i + 1], x))
  {
    IndicesSnoc(labels, i, x);
    var was := IndicesOf(labels[..i], x);
    assert labels[i] != x ==> was + [] == was;
  }

  lemma GroupedSnoc(groups: map<int, seq<int>>, labels: seq<int>, i: nat)
    requires i < |labels| && Grouped(groups, labels[..i])
    ensures var l := labels[i];
            Grouped(groups[l := if l in groups then groups[l] + [i] else [i]], labels[..i + 1])
  {
    var l, all := labels[i], labels[..i + 1];
    var groups' := groups[l := if l in groups then groups[l] + [i] else [i]];
    forall x ensures GroupedAt(groups', x, IndicesOf(all, x)) {
      assert x in groups <==> IndicesOf(labels[..i], x) != [];
      GroupedSnocAt(groups, labels, i, x);
    }
  }

  /** Fill the map label -> indices. */
  method GroupByLabel(labels: seq<int>) returns (groups: map<int, seq<int>>)
    ensures Grouped(groups, labels)
  {
    groups := map[];
    for i := 0 to |labels|
      invariant Grouped(groups, labels[..i])
    {
      var l := labels[i];
      GroupedSnoc(groups, labels, i);
      if l in groups {
        groups := groups[l := groups[l] + [i]];
      } else {
        groups := groups[l := [i]];
      }
    }
    assert labels[..|labels|] == labels;
  }

  method ClustersOfGroup(hav: Metric, geo: seq<ChargePoint>, ghost labels: seq<int>, l: int, idxs: seq<int>)
    returns (cs: seq<Cluster>)
    requires |labels| == |geo| && l in labels && idxs == IndicesOf(labels, l)
    ensures cs == FromGroup(hav, geo, labels, l)
  {
    cs := [];
    if l == -1 {
      ghost var pts := GroupOf(geo, labels, l);
      for k := 0 to |idxs|
        invariant cs == Singletons(pts)[..k]
      {
        cs := cs + [Singleton(geo[idxs[k]])];
      }
    } else {
      var c := Build(hav, geo, idxs);
      cs := [c];
    }
  }

  /** Go's map iteration: any remaining key may come next. */
  method TakeAny<T(==)>(left: set<T>) returns (l: T)
    requires left != {}
    ensures l in left
  {
    l :| l in left;
  }

  /** Turn the groups into clusters, taking the map entries in whatever order they come. */
  method ClustersOfGroups(hav: Metric, geo: seq<ChargePoint>, labels: seq<int>, groups: map<int, seq<int>>)
    returns (clusters: seq<Cluster>)
    requires |labels| == |geo| && Grouped(groups, labels)
    ensures exists order :: IterationOrder(order, labels) && clusters == SlowClusters(hav, geo, labels, order)
  {
    clusters := [];
    ghost var order: seq<int> := [];
    var left := groups.Keys;
    while left != {}
      invariant Taken(order, left, groups.Keys)
      invariant forall l :: l in order ==> l in labels
      invariant clusters == SlowClusters(hav, geo, labels, order)
      decreases left
    {
      var l := TakeAny(left);
      var cs := ClustersOfGroup(hav, geo, labels, l, groups[l]);
      SlowClustersSnoc(hav, geo, labels, order, l);
      left, clusters, order := left - {l}, clusters + cs, order + [l];
    }
    assert IterationOrder(order, labels);
  }

  /** The keys already taken, in the order they came, and those left. */
  ghost predicate Taken(order: seq<int>, left: set<int>, keys: set<int>) {
    left <= keys && Distinct(order) && forall l :: l in order <==> l in keys && l !in left
  }

  lemma SlowClustersSnoc(hav: Metric, geo: seq<ChargePoint>, labels: seq<int>, order: seq<int>, l: int)
    requires |labels| == |geo| && l in labels && forall x :: x in order ==> x in labels
    ensures SlowClusters(hav, geo, labels, order + [l]) ==
            SlowClusters(hav, geo, labels, order) + FromGroup(hav, geo, labels, l)
  {
    assert (order + [l])[..|order|] == order;
  }

  method NameClusters(cs: seq<Cluster>, minPts: int) returns (named: seq<Cluster>)
    ensures named == Named(cs, minPts)
  {
    named := cs;
    var homeAssigned := false;
    ghost var h := FirstAtLeast(cs, minPts, 0);
    for i := 0 to |cs|
      invariant |named| == |cs| && homeAssigned == (h < i)
      invariant forall k :: 0 <= k < i ==> named[k] == Named(cs, minPts)[k]
      invariant forall k :: i <= k < |cs| ==> named[k] == cs[k]
    {
      if !homeAssigned && named[i].sessions >= minPts {
        named := named[i := named[i].(kind := Home)];
        homeAssigned := true;
        continue;
      }
      named := named[i := named[i].(kind := Public)];
    }
  }

  method Partition(p: Params, pts: seq<ChargePoint>)
      returns (fast: seq<ChargePoint>, geo: seq<ChargePoint>, missing: seq<ChargePoint>)
    ensures fast == Select(p, FastPool, pts) && geo == Select(p, GeoPool, pts) && missing == Select(p, MissingPool, pts)
  {
    fast, geo, missing := [], [], [];
    for i := 0 to |pts|
      invariant fast == Select(p, FastPool, pts[..i])
      invariant geo == Select(p, GeoPool, pts[..i])
      invariant missing == Select(p, MissingPool, pts[..i])
    {
      var pt := pts[i];
      assert pts[..i + 1][..i] == pts[..i];
      if pt.power >= p.fastMin {
        fast := fast + [pt];
        continue;
      }
      if pt.lat == 0.0 && pt.lon == 0.0 {
        missing := missing + [pt];
        continue;
      }
      geo := geo + [pt];
    }
    assert pts[..|pts|] == pts;
  }

  method BuildUnknown(missing: seq<ChargePoint>) returns (u: Cluster)
    ensures u == UnknownCluster(missing)
  {
    u := Cluster(Unknown, LatLon(0.0, 0.0), [], 0, 0.0, 0.0);
    for i := 0 to |missing|
      invariant u == UnknownCluster(missing[..i])
    {
      assert missing[..i + 1] == missing[..i] + [missing[i]];
      SumSnoc(EnergyOf, missing[..i], missing[i]);
      u := u.(members := u.members + [missing[i].id], energy := u.energy + missing[i].energy,
          sessions := u.sessions + 1);
    }
    assert missing[..|missing|] == missing;
  }

  /** One of the answers that an order of the groups can give. */
  ghost predicate Possible(hav: Metric, p: Params, pts: seq<ChargePoint>, clusters: seq<Cluster>)
    requires SymmetricMetric(hav)
  {
    exists order :: IterationOrder(order, LabelsOf(hav, p, pts))
        && clusters == Outcome(hav, p, pts, LabelsOf(hav, p, pts), order)
  }

  /** From the pools and their labels to the answer, and the order of the groups it comes from. */
  method Classify(hav: Metric, p: Params, pts: seq<ChargePoint>) returns (clusters: seq<Cluster>, ghost order: seq<int>)
    requires SymmetricMetric(hav)
    ensures IterationOrder(order, LabelsOf(hav, p, pts))
    ensures clusters == Outcome(hav, p, pts, LabelsOf(hav, p, pts), order)
  {
    var fast, geo, missing := Partition(p, pts);
    ghost var asked;
    var labels;
    labels, asked := Run(SpaceOf(hav, p, geo));
    var groups := GroupByLabel(labels);
    clusters := ClustersOfGroups(hav, geo, labels, groups);
    order :| IterationOrder(order, labels) && clusters == SlowClusters(hav, geo, labels, order);
    clusters := NameClusters(StableSort(Above, clusters), p.minPts);
    if |fast| > 0 {
      var f := BuildFast(hav, fast);
      clusters := clusters + [f];
    }
    clusters := StableSort(Above, clusters);
    if |missing| > 0 {
      var u := BuildUnknown(missing);
      clusters := clusters + [u];
    }
  }

  /** The whole classification. The groups' iteration order is the only freedom in the result. */
  method ClusterCharges(hav: Metric, pts: seq<ChargePoint>, params: Params) returns (clusters: seq<Cluster>)
    requires SymmetricMetric(hav)
    ensures Possible(hav, Normalised(params), pts, clusters)
  {
    ghost var order;
    clusters, order := Classify(hav, Normalised(params), pts);
  }

  ghost function LabelsOf(hav: Metric, p: Params, pts: seq<ChargePoint>): (labels: seq<int>)
    requires SymmetricMetric(hav)
    ensures |labels| == |Select(p, GeoPool, pts)|
  {
    Labelling(GraphOf(SpaceOf(hav, p, Select(p, GeoPool, pts))))
  }
}

/** What the classification promises, for every order in which the groups may come. */
module ClusterLaws {
  import opened Sets
  import opened DensityGraph
  import opened Dbscan
  import opened Sums
  import opened Clusters

  /** What the answer depends on. */
  datatype Case = Case(hav: Metric, p: Params, pts: seq<ChargePoint>, labels: seq<int>)

  function Geo(k: Case): seq<ChargePoint> { Select(k.p, GeoPool, k.pts) }

  /** Labels as the density clustering leaves them: noise only when a neighbourhood needs two points. */
  ghost predicate Proper(k: Case) {
    && |k.labels| == |Geo(k)|
    && k.p.minPts >= 1
    && (forall i :: 0 <= i < |k.labels| ==> k.labels[i] == -1 || k.labels[i] >= 1)
    && (-1 in k.labels ==> k.p.minPts >= 2)
  }

  /** The labels the program computes are proper. */
  lemma ComputedLabelsAreProper(hav: Metric, p: Params, pts: seq<ChargePoint>)
    requires SymmetricMetric(hav) && p.minPts >= 1
    ensures Proper(Case(hav, p, pts, LabelsOf(hav, p, pts)))
  {
    var s := SpaceOf(hav, p, Select(p, GeoPool, pts));
    var g := GraphOf(s);
    if p.minPts == 1 {
      forall i | 0 <= i < g.n ensures Label(g, i) != -1 {
        assert i in Neighbours(s, i);
        assert |Neighbours(s, i)| >= 1 by {
          SubsetNoLarger({i}, Neighbours(s, i));
        }
        NoiseIffNoCoreNear(g, i);
        assert g.core(i) && g.near(i, i);
      }
    }
  }

  function Answer(k: Case, order: seq<int>): seq<Cluster>
    requires |k.labels| == |Geo(k)| && forall l :: l in order ==> l in k.labels
  {
    Outcome(k.hav, k.p, k.pts, k.labels, order)
  }

  function Slow(k: Case, order: seq<int>): seq<Cluster>
    requires |k.labels| == |Geo(k)| && forall l :: l in order ==> l in k.labels
  {
    SlowClusters(k.hav, Geo(k), k.labels, order)
  }

  // ---------------------------------------------------------------------------------------------
  // Conservation
  // ---------------------------------------------------------------------------------------------

  /** cs accounts for exactly the charges pts: their ids (as a bag), their number and their energy. */
  ghost predicate Conserved(cs: seq<Cluster>, pts: seq<ChargePoint>) {
    && Bag(MembersOf, cs) == Bag(IdOf, pts)
    && Sum(KwhOf, cs) == Sum(EnergyOf, pts)
    && (forall c :: c in cs ==> c.sessions == |c.members|)
  }

  lemma ConservedAppend(cs: seq<Cluster>, pts: seq<ChargePoint>, ds: seq<Cluster>, qts: seq<ChargePoint>)
    requires Conserved(cs, pts) && Conserved(ds, qts)
    ensures Conserved(cs + ds, pts + qts)
  {
    BagAppend(MembersOf, cs, ds);
    BagAppend(IdOf, pts, qts);
    SumAppend(KwhOf, cs, ds);
    SumAppend(EnergyOf, pts, qts);
  }

  lemma ConservedPermuted(cs: seq<Cluster>, pts: seq<ChargePoint>, ds: seq<Cluster>, qts: seq<ChargePoint>)
    requires Conserved(cs, pts) && multiset(cs) == multiset(ds) && multiset(pts) == multiset(qts)
    ensures Conserved(ds, qts)
  {
    BagPermuted(MembersOf, cs, ds);
    BagPermuted(IdOf, pts, qts);
    SumPermuted(KwhOf, cs, ds);
    SumPermuted(EnergyOf, pts, qts);
    forall c | c in ds ensures c.sessions == |c.members| {
      assert c in multiset(ds);
      assert c in cs;
    }
  }

  lemma OneConserved(c: Cluster, pts: seq<ChargePoint>)
    requires Accounts(c, pts)
    ensures Conserved([c], pts)
  {
    IdsBag(pts);
    BagOne(MembersOf, c);
    SumOne(KwhOf, c);
  }

  lemma {:induction false} SingletonsConserved(pts: seq<ChargePoint>)
    ensures Conserved(Singletons(pts), pts)
  {
    if pts == [] {
      assert Singletons(pts) == [];
    } else {
      var n := |pts| - 1;
      SingletonsConserved(pts[..n]);
      SumOne(EnergyOf, pts[n]);
      assert Ids([pts[n]]) == [pts[n].id];
      OneConserved(Singleton(pts[n]), [pts[n]]);
      ConservedAppend(Singletons(pts[..n]), pts[..n], [Singleton(pts[n])], [pts[n]]);
      assert Singletons(pts) == Singletons(pts[..n]) + [Singleton(pts[n])];
      assert pts == pts[..n] + [pts[n]];
    }
  }

  /** The points of the groups, in iteration order. */
  function Spread(geo: seq<ChargePoint>, labels: seq<int>, order: seq<int>): seq<ChargePoint>
    requires |labels| == |geo|
  {
    if order == [] then []
    else Spread(geo, labels, order[..|order| - 1]) + GroupOf(geo, labels, order[|order| - 1])
  }

  lemma {:induction false} SlowConserved(hav: Metric, geo: seq<ChargePoint>, labels: seq<int>, order: seq<int>)
    requires |labels| == |geo| && forall l :: l in order ==> l in labels
    ensures Conserved(SlowClusters(hav, geo, labels, order), Spread(geo, labels, order))
  {
    if order != [] {
      var l := order[|order| - 1];
      var pts := GroupOf(geo, labels, l);
      SlowConserved(hav, geo, labels, order[..|order| - 1]);
      if l == -1 {
        SingletonsConserved(pts);
      } else {
        OneConserved(Located(hav, pts), pts);
      }
      ConservedAppend(SlowClusters(hav, geo, labels, order[..|order| - 1]), Spread(geo, labels, order[..|order| - 1]),
                      FromGroup(hav, geo, labels, l), pts);
    }
  }

  lemma GroupSnoc(geo: seq<ChargePoint>, labels: seq<int>, l: int)
    requires |labels| == |geo| > 0
    ensures var n := |geo| - 1;
            GroupOf(geo, labels, l) == GroupOf(geo[..n], labels[..n], l) + if labels[n] == l then [geo[n]] else []
  {
  }

  lemma {:induction false} SpreadSnoc(geo: seq<ChargePoint>, labels: seq<int>, order: seq<int>)
    requires |labels| == |geo| > 0 && Distinct(order)
    ensures var n := |geo| - 1;
            multiset(Spread(geo, labels, order)) ==
            multiset(Spread(geo[..n], labels[..n], order)) + if labels[n] in order then multiset{geo[n]} else multiset{}
  {
    if order != [] {
      var l := order[|order| - 1];
      assert order == order[..|order| - 1] + [l];
      SpreadSnoc(geo, labels, order[..|order| - 1]);
      GroupSnoc(geo, labels, l);
    }
  }

  lemma {:induction false} SpreadIsAll(geo: seq<ChargePoint>, labels: seq<int>, order: seq<int>)
    requires |labels| == |geo| && Distinct(order) && forall l :: l in labels ==> l in order
    ensures multiset(Spread(geo, labels, order)) == multiset(geo)
  {
    if geo == [] {
      SpreadNothing(labels, order);
    } else {
      var n := |geo| - 1;
      assert forall l :: l in labels[..n] ==> l in labels;
      SpreadIsAll(geo[..n], labels[..n], order);
      SpreadSnoc(geo, labels, order);
      assert labels[n] in labels;
      MultisetLast(geo);
    }
  }

  lemma MultisetLast<T>(xs: seq<T>)
    requires xs != []
    ensures multiset(xs) == multiset(xs[..|xs| - 1]) + multiset{xs[|xs| - 1]}
  {
    assert xs == xs[..|xs| - 1] + [xs[|xs| - 1]];
  }

  lemma {:induction false} SpreadNothing(labels: seq<int>, order: seq<int>)
    requires labels == []
    ensures Spread([], labels, order) == []
  {
    if order != [] {
      SpreadNothing(labels, order[..|order| - 1]);
    }
  }

  lemma {:induction false} RenamedConserved(cs: seq<Cluster>, ds: seq<Cluster>)
    requires |cs| == |ds| && forall k :: 0 <= k < |cs| ==> ds[k] == cs[k].(kind := ds[k].kind)
    ensures Bag(MembersOf, ds) == Bag(MembersOf, cs) && Sum(KwhOf, ds) == Sum(KwhOf, cs)
  {
    if cs != [] {
      BagLast(MembersOf, cs);
      BagLast(MembersOf, ds);
      SumLast(KwhOf, cs);
      SumLast(KwhOf, ds);
      RenamedConserved(cs[..|cs| - 1], ds[..|ds| - 1]);
    }
  }

  function NamedOf(k: Case, order: seq<int>): seq<Cluster>
    requires |k.labels| == |Geo(k)| && forall l :: l in order ==> l in k.labels
  {
    NamedSlow(k.hav, k.p, Geo(k), k.labels, order)
  }

  lemma RankedConserved(hav: Metric, geo: seq<ChargePoint>, labels: seq<int>, order: seq<int>)
    requires |labels| == |geo| && IterationOrder(order, labels)
    ensures Conserved(StableSort(Above, SlowClusters(hav, geo, labels, order)), geo)
  {
    var slow := SlowClusters(hav, geo, labels, order);
    SlowConserved(hav, geo, labels, order);
    SpreadIsAll(geo, labels, order);
    ConservedPermuted(slow, Spread(geo, labels, order), StableSort(Above, slow), geo);
  }

  lemma NamingConserves(cs: seq<Cluster>, minPts: int, pts: seq<ChargePoint>)
    requires Conserved(cs, pts)
    ensures Conserved(Named(cs, minPts), pts)
  {
    RenamedConserved(cs, Named(cs, minPts));
  }

  lemma NamedConserved(k: Case, order: seq<int>)
    requires Proper(k) && IterationOrder(order, k.labels)
    ensures Conserved(NamedOf(k, order), Geo(k))
  {
    RankedConserved(k.hav, Geo(k), k.labels, order);
    NamingConserves(StableSort(Above, Slow(k, order)), k.p.minPts, Geo(k));
  }

  lemma OptionalConserved(cs: seq<Cluster>, pts: seq<ChargePoint>, c: Cluster, qts: seq<ChargePoint>)
    requires Conserved(cs, pts) && Accounts(c, qts)
    ensures Conserved(WithIfAny(cs, c, qts), pts + qts)
  {
    if qts == [] {
      assert pts + qts == pts;
    } else {
      OneConserved(c, qts);
      ConservedAppend(cs, pts, [c], qts);
    }
  }

  function Pooled(p: Params, pts: seq<ChargePoint>): (r: seq<ChargePoint>)
    ensures multiset(r) == multiset(pts)
  {
    PoolsPartition(p, pts);
    Select(p, GeoPool, pts) + Select(p, FastPool, pts) + Select(p, MissingPool, pts)
  }

  lemma AnswerConservesPools(k: Case, order: seq<int>)
    requires Proper(k) && IterationOrder(order, k.labels)
    ensures Conserved(Answer(k, order), Pooled(k.p, k.pts))
  {
    var geo, fast, missing := Geo(k), Select(k.p, FastPool, k.pts), Select(k.p, MissingPool, k.pts);
    NamedConserved(k, order);
    var named := NamedOf(k, order);
    OptionalConserved(named, geo, FastCluster(k.hav, fast), fast);
    var all := WithIfAny(named, FastCluster(k.hav, fast), fast);
    ConservedPermuted(all, geo + fast, StableSort(Above, all), geo + fast);
    OptionalConserved(StableSort(Above, all), geo + fast, UnknownCluster(missing), missing);
  }

  /** Whatever the iteration order, the answer's member ids are a permutation of the input's, each
    * cluster's session count is its membership, and the energy adds up. */
  lemma AnswerConserves(k: Case, order: seq<int>)
    requires Proper(k) && IterationOrder(order, k.labels)
    ensures Bag(MembersOf, Answer(k, order)) == multiset(Ids(k.pts))
    ensures Sum(KwhOf, Answer(k, order)) == Sum(EnergyOf, k.pts)
    ensures forall c :: c in Answer(k, order) ==> c.sessions == |c.members|
  {
    AnswerConservesPools(k, order);
    ConservedPermuted(Answer(k, order), Pooled(k.p, k.pts), Answer(k, order), k.pts);
    IdsBag(k.pts);
  }

  // ---------------------------------------------------------------------------------------------
  // Ranking
  // ---------------------------------------------------------------------------------------------

  /** Everything but the Unknown cluster, ranked. */
  function RankedOf(k: Case, order: seq<int>): seq<Cluster>
    requires |k.labels| == |Geo(k)| && forall l :: l in order ==> l in k.labels
  {
    var fast := Select(k.p, FastPool, k.pts);
    StableSort(Above, WithIfAny(NamedOf(k, order), FastCluster(k.hav, fast), fast))
  }

  lemma NoneUnknown(cs: seq<Cluster>, ds: seq<Cluster>)
    requires multiset(cs) == multiset(ds) && forall c :: c in cs ==> c.kind != Unknown
    ensures forall d :: d in ds ==> d.kind != Unknown
  {
    forall d | d in ds ensures d.kind != Unknown {
      assert d in multiset(ds);
      assert d in cs;
    }
  }

  lemma JoinedKinds(named: seq<Cluster>, c: Cluster, pts: seq<ChargePoint>)
    requires c.kind != Unknown && forall d :: d in named ==> d.kind in {Home, Public}
    ensures forall d :: d in WithIfAny(named, c, pts) ==> d.kind != Unknown
  {
  }

  lemma RankedDescends(k: Case, order: seq<int>)
    requires Proper(k) && IterationOrder(order, k.labels)
    ensures Ranked(Above, RankedOf(k, order)) && forall c :: c in RankedOf(k, order) ==> c.kind != Unknown
  {
    var fast := Select(k.p, FastPool, k.pts);
    var named := NamedOf(k, order);
    NamedKinds(StableSort(Above, Slow(k, order)), k.p.minPts);
    JoinedKinds(named, FastCluster(k.hav, fast), fast);
    var all := WithIfAny(named, FastCluster(k.hav, fast), fast);
    SortedOutcome(all, StableSort(Above, all));
  }

  /** An Unknown cluster occurs exactly when some charge is slow and without a fix, and only in the last
    * place; everything before it is in descending order of sessions, then energy. */
  lemma AnswerDescends(k: Case, order: seq<int>)
    requires Proper(k) && IterationOrder(order, k.labels)
    ensures (exists c :: c in Answer(k, order) && c.kind == Unknown) <==>
            (exists pt :: pt in k.pts && PoolOf(k.p, pt) == MissingPool)
    ensures forall i :: 0 <= i < |Answer(k, order)| - 1 ==> Answer(k, order)[i].kind != Unknown
    ensures forall i, j :: 0 <= i < j < |Answer(k, order)| && Answer(k, order)[j].kind != Unknown ==>
              !Above(Answer(k, order)[j], Answer(k, order)[i])
  {
    RankedDescends(k, order);
    var missing := Select(k.p, MissingPool, k.pts);
    UnknownEndsIt(RankedOf(k, order), UnknownCluster(missing), missing);
    assert missing != [] ==> missing[0] in k.pts && PoolOf(k.p, missing[0]) == MissingPool;
  }

  lemma UnknownEndsIt(ranked: seq<Cluster>, u: Cluster, missing: seq<ChargePoint>)
    requires (forall c :: c in ranked ==> c.kind != Unknown) && u.kind == Unknown
    ensures var cs := WithIfAny(ranked, u, missing);
            && ((exists c :: c in cs && c.kind == Unknown) <==> missing != [])
            && forall i :: 0 <= i < |cs| ==> (cs[i].kind == Unknown <==> i == |ranked|)
  {
    var cs := WithIfAny(ranked, u, missing);
    assert forall i :: 0 <= i < |ranked| ==> cs[i] == ranked[i] && cs[i].kind != Unknown;
    if missing != [] {
      assert u in cs;
    }
  }

  lemma NamedKinds(cs: seq<Cluster>, minPts: int)
    ensures forall c :: c in Named(cs, minPts) ==> c.kind in {Home, Public}
  {
  }

  lemma SortedOutcome(all: seq<Cluster>, ranked: seq<Cluster>)
    requires ranked == StableSort(Above, all) && forall c :: c in all ==> c.kind != Unknown
    ensures Ranked(Above, ranked) && forall c :: c in ranked ==> c.kind != Unknown
  {
    AboveRanks();
    StableSortRanked(Above, all);
    NoneUnknown(all, ranked);
  }

  // ---------------------------------------------------------------------------------------------
  // Home
  // ---------------------------------------------------------------------------------------------

  function GroupCluster(k: Case, l: int): Cluster
    requires |k.labels| == |Geo(k)| && l in k.labels
  {
    Located(k.hav, GroupOf(Geo(k), k.labels, l))
  }

  /** A located group large enough for Home that no located group outranks. */
  ghost predicate Top(k: Case, l: int)
    requires |k.labels| == |Geo(k)|
  {
    && l in k.labels && l != -1
    && GroupCluster(k, l).sessions >= k.p.minPts
    && forall m :: m in k.labels && m != -1 ==> !Above(GroupCluster(k, m), GroupCluster(k, l))
  }

  /** Where a slow cluster comes from. */
  ghost predicate ComesFrom(k: Case, c: Cluster, l: int)
    requires |k.labels| == |Geo(k)|
  {
    l in k.labels && if l == -1 then c.sessions == 1 else c == GroupCluster(k, l)
  }

  lemma {:induction false} SlowComesFrom(k: Case, order: seq<int>, c: Cluster)
    requires |k.labels| == |Geo(k)| && (forall l :: l in order ==> l in k.labels) && c in Slow(k, order)
    ensures exists l :: l in order && ComesFrom(k, c, l)
  {
    var l := order[|order| - 1];
    if c in Slow(k, order[..|order| - 1]) {
      SlowComesFrom(k, order[..|order| - 1], c);
    } else {
      assert c in FromGroup(k.hav, Geo(k), k.labels, l);
      assert l in order && ComesFrom(k, c, l);
    }
  }

  lemma {:induction false} GroupIsSlow(k: Case, order: seq<int>, l: int)
    requires |k.labels| == |Geo(k)| && (forall m :: m in order ==> m in k.labels) && l in order && l != -1
    ensures GroupCluster(k, l) in Slow(k, order)
  {
    var n := |order| - 1;
    if order[n] != l {
      assert order == order[..n] + [order[n]];
      GroupIsSlow(k, order[..n], l);
    }
  }

  /** The highest-ranked slow cluster, once it is large enough, is a Top group; if it is not large
    * enough there is no Top group. */
  lemma FirstRankedIsTop(k: Case, order: seq<int>)
    requires Proper(k) && IterationOrder(order, k.labels)
    ensures var r := StableSort(Above, Slow(k, order));
            if r != [] && r[0].sessions >= k.p.minPts
            then exists l :: Top(k, l) && r[0] == GroupCluster(k, l)
            else forall l :: l in k.labels && l != -1 ==> GroupCluster(k, l).sessions < k.p.minPts
  {
    var slow := Slow(k, order);
    var r := StableSort(Above, slow);
    AboveRanks();
    StableSortRanked(Above, slow);
    forall m | m in k.labels && m != -1
      ensures r != [] && !Above(GroupCluster(k, m), r[0])
    {
      GroupIsSlow(k, order, m);
      FirstOutranks(slow, GroupCluster(k, m));
    }
    if r != [] && r[0].sessions >= k.p.minPts {
      assert r[0] in multiset(slow);
      SlowComesFrom(k, order, r[0]);
      var l :| l in order && ComesFrom(k, r[0], l);
      assert Top(k, l);
    }
  }

  lemma FirstOutranks(cs: seq<Cluster>, c: Cluster)
    requires c in cs
    ensures var r := StableSort(Above, cs); r != [] && !Above(c, r[0])
  {
    var r := StableSort(Above, cs);
    AboveRanks();
    StableSortRanked(Above, cs);
    assert c in multiset(r);
    var i :| 0 <= i < |r| && r[i] == c;
  }

  /** The bag of Home clusters of the answer. */
  function Homes(cs: seq<Cluster>): multiset<Cluster> { Bag(HomeOf, cs) }

  lemma {:induction false} NoHomes(cs: seq<Cluster>)
    requires forall c :: c in cs ==> c.kind != Home
    ensures Homes(cs) == multiset{}
  {
    if cs != [] {
      BagLast(HomeOf, cs);
      NoHomes(cs[..|cs| - 1]);
    }
  }

  lemma HomesOfNamed(cs: seq<Cluster>, minPts: int)
    requires Ranked(Above, cs)
    ensures Homes(Named(cs, minPts)) ==
            if cs != [] && cs[0].sessions >= minPts then multiset{cs[0].(kind := Home)} else multiset{}
  {
    var named := Named(cs, minPts);
    if cs == [] {
    } else if cs[0].sessions >= minPts {
      var tail := named[1..];
      assert named == [named[0]] + tail;
      NoHomes(tail);
      BagAppend(HomeOf, [named[0]], tail);
      BagOne(HomeOf, named[0]);
    } else {
      assert forall j :: 0 < j < |cs| ==> !Above(cs[j], cs[0]);
      NoHomes(named);
    }
  }

  lemma HomesWithOther(cs: seq<Cluster>, c: Cluster, pts: seq<ChargePoint>)
    requires c.kind != Home
    ensures Homes(WithIfAny(cs, c, pts)) == Homes(cs)
  {
    BagSnoc(HomeOf, cs, c);
  }

  lemma HomesOfAnswer(k: Case, order: seq<int>)
    requires Proper(k) && IterationOrder(order, k.labels)
    ensures var r := StableSort(Above, Slow(k, order));
            Homes(Answer(k, order)) ==
            if r != [] && r[0].sessions >= k.p.minPts then multiset{r[0].(kind := Home)} else multiset{}
  {
    HomesOfAnswerAreNamed(k, order);
    AboveRanks();
    StableSortRanked(Above, Slow(k, order));
    HomesOfNamed(StableSort(Above, Slow(k, order)), k.p.minPts);
  }

  lemma HomesOfAnswerAreNamed(k: Case, order: seq<int>)
    requires Proper(k) && IterationOrder(order, k.labels)
    ensures Homes(Answer(k, order)) == Homes(NamedOf(k, order))
  {
    var fast, missing := Select(k.p, FastPool, k.pts), Select(k.p, MissingPool, k.pts);
    var all := WithIfAny(NamedOf(k, order), FastCluster(k.hav, fast), fast);
    HomesWithOther(NamedOf(k, order), FastCluster(k.hav, fast), fast);
    BagPermuted(HomeOf, all, StableSort(Above, all));
    HomesWithOther(StableSort(Above, all), UnknownCluster(missing), missing);
  }

  /** There is at most one Home. It exists iff some located group has at least minPts members, it is
    * such a group (never a noise singleton), and no slow cluster outranks it. */
  lemma HomeIsTheTopGroup(k: Case, order: seq<int>)
    requires Proper(k) && IterationOrder(order, k.labels)
    ensures Homes(Answer(k, order)) == multiset{} <==>
            forall l :: l in k.labels && l != -1 ==> GroupCluster(k, l).sessions < k.p.minPts
    ensures Homes(Answer(k, order)) != multiset{} ==>
            exists l :: Top(k, l) && Homes(Answer(k, order)) == multiset{GroupCluster(k, l).(kind := Home)}
              && forall c :: c in Slow(k, order) ==> !Above(c, GroupCluster(k, l))
  {
    HomesOfAnswer(k, order);
    FirstRankedIsTop(k, order);
    var r := StableSort(Above, Slow(k, order));
    if r != [] && r[0].sessions >= k.p.minPts {
      var l :| Top(k, l) && r[0] == GroupCluster(k, l);
      forall c | c in Slow(k, order) ensures !Above(c, r[0]) {
        FirstOutranks(Slow(k, order), c);
      }
      assert r[0].(kind := Home) in Homes(Answer(k, order));
    }
  }
}

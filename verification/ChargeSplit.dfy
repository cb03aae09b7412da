/** The label of every charge, by charge id, read off the clustering. */
module ChargeSplit {
  import opened Sets
  import opened Dbscan
  import opened Sums
  import opened Clusters
  import opened ClusterLaws
  import opened ClusterFacts

  /** Writing every member of every cluster in turn; a later cluster overwrites. */
  function KindMap(cs: seq<Cluster>): map<string, ClusterLabel> {
    if cs == [] then map[]
    else
      var c := cs[|cs| - 1];
      KindMap(cs[..|cs| - 1]) + (map id | id in c.members :: c.kind)
  }

  method WriteMembers(before: map<string, ClusterLabel>, ids: seq<string>, kind: ClusterLabel)
    returns (out: map<string, ClusterLabel>)
    ensures out == before + (map id | id in ids :: kind)
  {
    out := before;
    for m := 0 to |ids|
      invariant forall id :: id in out <==> id in before || id in ids[..m]
      invariant forall id :: id in out ==> out[id] == if id in ids[..m] then kind else before[id]
    {
      out := out[ids[m] := kind];
    }
  }

  method WriteClusters(clusters: seq<Cluster>) returns (out: map<string, ClusterLabel>)
    ensures out == KindMap(clusters)
  {
    out := map[];
    for i := 0 to |clusters|
      invariant out == KindMap(clusters[..i])
    {
      out := WriteMembers(out, clusters[i].members, clusters[i].kind);
      assert clusters[..i + 1][..i] == clusters[..i];
    }
    assert clusters[..|clusters|] == clusters;
  }

  lemma {:induction false} KindMapKeys(cs: seq<Cluster>)
    ensures forall id :: id in KindMap(cs) <==> id in Bag(MembersOf, cs)
  {
    if cs != [] {
      BagLast(MembersOf, cs);
      KindMapKeys(cs[..|cs| - 1]);
    }
  }

  lemma {:induction false} KindOfMember(cs: seq<Cluster>, c: Cluster, id: string)
    requires c in cs && id in c.members && Bag(MembersOf, cs)[id] <= 1
    ensures id in KindMap(cs) && KindMap(cs)[id] == c.kind
  {
    var n := |cs| - 1;
    BagLast(MembersOf, cs);
    KindMapKeys(cs[..n]);
    if c != cs[n] {
      assert c in cs[..n];
      KindOfMember(cs[..n], c, id);
      assert id in multiset(c.members);
    }
  }

  lemma {:induction false} MemberOfSome(cs: seq<Cluster>, id: string) returns (c: Cluster)
    requires id in Bag(MembersOf, cs)
    ensures c in cs && id in c.members
  {
    var n := |cs| - 1;
    BagLast(MembersOf, cs);
    if id in cs[n].members {
      c := cs[n];
    } else {
      assert id !in multiset(cs[n].members);
      c := MemberOfSome(cs[..n], id);
    }
  }

  lemma SlowClusterOfCharge(k: Case, order: seq<int>, pt: ChargePoint) returns (c: Cluster)
    requires Proper(k) && IterationOrder(order, k.labels) && pt in Geo(k)
    ensures c in NamedOf(k, order) && pt.id in c.members && c.kind in {Home, Public}
  {
    NamedConserved(k, order);
    IdsBag(Geo(k));
    assert pt.id in multiset(Ids(Geo(k)));
    c := MemberOfSome(NamedOf(k, order), pt.id);
  }

  /** The label a charge ends with: Fast by power, with or without a fix; Unknown for a slow one without; Home or
    * Public for any other. */
  predicate KindFits(p: Params, pt: ChargePoint, kind: ClusterLabel) {
    && (kind == Fast <==> pt.power >= p.fastMin)
    && (kind == Unknown <==> pt.power < p.fastMin && pt.lat == 0.0 && pt.lon == 0.0)
  }

  lemma ClusterOfCharge(k: Case, order: seq<int>, pt: ChargePoint) returns (c: Cluster)
    requires Proper(k) && IterationOrder(order, k.labels) && pt in k.pts
    ensures c in Answer(k, order) && pt.id in c.members && KindFits(k.p, pt, c.kind)
  {
    var group := Select(k.p, PoolOf(k.p, pt), k.pts);
    match PoolOf(k.p, pt) {
      case FastPool => c := FastCluster(k.hav, group);
      case MissingPool => c := UnknownCluster(group);
      case GeoPool => c := SlowClusterOfCharge(k, order, pt);
    }
    AnswerHasIff(k, order, c);
  }

  /** The map labels exactly the input's ids. */
  lemma LabelledIds(k: Case, order: seq<int>, id: string)
    requires Proper(k) && IterationOrder(order, k.labels)
    ensures id in KindMap(Answer(k, order)) <==> id in Ids(k.pts)
  {
    AnswerConserves(k, order);
    KindMapKeys(Answer(k, order));
    assert id in multiset(Ids(k.pts)) <==> id in Ids(k.pts);
  }

  /** For distinct ids the map is well defined: every member of a cluster has that cluster's label. */
  lemma LabelOfMember(k: Case, order: seq<int>, c: Cluster, id: string)
    requires Proper(k) && IterationOrder(order, k.labels) && Distinct(Ids(k.pts))
    requires c in Answer(k, order) && id in c.members
    ensures id in KindMap(Answer(k, order)) && KindMap(Answer(k, order))[id] == c.kind
  {
    AnswerConserves(k, order);
    OnceIfDistinct(Ids(k.pts), id);
    KindOfMember(Answer(k, order), c, id);
  }

  /** So every charge is labelled by its own power and location: Fast by power wherever it was, Unknown
    * without a fix, Home or Public otherwise. */
  lemma EveryChargeFits(k: Case, order: seq<int>, pt: ChargePoint)
    requires Proper(k) && IterationOrder(order, k.labels) && Distinct(Ids(k.pts)) && pt in k.pts
    ensures pt.id in KindMap(Answer(k, order))
    ensures KindFits(k.p, pt, KindMap(Answer(k, order))[pt.id])
  {
    var c := ClusterOfCharge(k, order, pt);
    LabelOfMember(k, order, c, pt.id);
  }

  predicate Labelled(out: map<string, ClusterLabel>, id: string, kind: ClusterLabel) { id in out && out[id] == kind }

  predicate Fitted(p: Params, out: map<string, ClusterLabel>, pt: ChargePoint) {
    pt.id in out && KindFits(p, pt, out[pt.id])
  }

  /** What the map made of an answer says of every charge. */
  ghost predicate LabelsFit(p: Params, pts: seq<ChargePoint>, clusters: seq<Cluster>, out: map<string, ClusterLabel>) {
    && (forall id :: id in out <==> id in Ids(pts))
    && (Distinct(Ids(pts)) ==>
         && (forall c, id :: c in clusters && id in c.members ==> Labelled(out, id, c.kind))
         && (forall pt :: pt in pts ==> Fitted(p, out, pt)))
  }

  lemma AnswerMember(k: Case, order: seq<int>, c: Cluster, id: string)
    requires Proper(k) && IterationOrder(order, k.labels) && Distinct(Ids(k.pts))
    requires c in Answer(k, order) && id in c.members
    ensures Labelled(KindMap(Answer(k, order)), id, c.kind)
  {
    LabelOfMember(k, order, c, id);
  }

  lemma AnswerCharge(k: Case, order: seq<int>, pt: ChargePoint)
    requires Proper(k) && IterationOrder(order, k.labels) && Distinct(Ids(k.pts)) && pt in k.pts
    ensures Fitted(k.p, KindMap(Answer(k, order)), pt)
  {
    EveryChargeFits(k, order, pt);
  }

  lemma AnswerFits(k: Case, order: seq<int>)
    requires Proper(k) && IterationOrder(order, k.labels)
    ensures LabelsFit(k.p, k.pts, Answer(k, order), KindMap(Answer(k, order)))
  {
    var clusters, out := Answer(k, order), KindMap(Answer(k, order));
    forall id ensures id in out <==> id in Ids(k.pts) {
      LabelledIds(k, order, id);
    }
    if Distinct(Ids(k.pts)) {
      forall c, id | c in clusters && id in c.members ensures Labelled(out, id, c.kind) {
        AnswerMember(k, order, c, id);
      }
      forall pt | pt in k.pts ensures Fitted(k.p, out, pt) {
        AnswerCharge(k, order, pt);
      }
    }
  }

  lemma PossibleFits(hav: Metric, p: Params, pts: seq<ChargePoint>, clusters: seq<Cluster>)
    requires SymmetricMetric(hav) && p.minPts >= 1 && Possible(hav, p, pts, clusters)
    ensures LabelsFit(p, pts, clusters, KindMap(clusters))
  {
    var labels := LabelsOf(hav, p, pts);
    ComputedLabelsAreProper(hav, p, pts);
    var order :| IterationOrder(order, labels) && clusters == Outcome(hav, p, pts, labels, order);
    AnswerFits(Case(hav, p, pts, labels), order);
  }

  /** Labels by charge id, with the default parameters: of exactly the charges, each by its cluster and its pool. */
  method ClusterLabels(hav: Metric, pts: seq<ChargePoint>) returns (out: map<string, ClusterLabel>)
    requires SymmetricMetric(hav)
    ensures exists clusters ::
              && Possible(hav, DEFAULTS, pts, clusters) && out == KindMap(clusters)
              && LabelsFit(DEFAULTS, pts, clusters, out)
  {
    var clusters := ClusterCharges(hav, pts, DEFAULTS);
    out := WriteClusters(clusters);
    PossibleFits(hav, DEFAULTS, pts, clusters);
  }
}

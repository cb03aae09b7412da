/** How far the classification depends on the order in which the map of groups is iterated. */
module ClusterOrder {
  import opened Sets
  import opened DensityGraph
  import opened Dbscan
  import opened Sums
  import opened Clusters
  import opened ClusterLaws

  ghost function Listing(xs: set<int>): (r: seq<int>)
    ensures Distinct(r) && forall x :: x in r <==> x in xs
    decreases |xs|
  {
    if |xs| == 0 then
      assert xs == {};
      []
    else
      var x := Pick(xs);
      var r := Listing(xs - {x});
      assert x !in r;
      r + [x]
  }

  /** Some iteration order takes l first. */
  lemma OrderStartingWith(labels: seq<int>, l: int) returns (order: seq<int>)
    requires l in labels
    ensures IterationOrder(order, labels) && order[0] == l
  {
    var rest := Listing((set x | x in labels) - {l});
    order := [l] + rest;
    assert l !in rest;
  }

  function Entry(k: Case, l: int): seq<Cluster>
    requires |k.labels| == |Geo(k)| && l in k.labels
  {
    FromGroup(k.hav, Geo(k), k.labels, l)
  }

  /** Not told apart by the ranking. */
  predicate Tied(c: Cluster, d: Cluster) { c.sessions == d.sessions && c.energy == d.energy }

  /** Clusters of two different map entries never tie on sessions and energy. */
  ghost predicate NoTies(k: Case)
    requires |k.labels| == |Geo(k)|
  {
    forall l, m, c, d :: l in k.labels && m in k.labels && l != m && c in Entry(k, l) && d in Entry(k, m) ==>
        !Tied(c, d)
  }

  /** Every iteration order gives the same answer. */
  ghost predicate OrderFree(k: Case)
    requires |k.labels| == |Geo(k)|
  {
    forall a, b :: IterationOrder(a, k.labels) && IterationOrder(b, k.labels) ==> Answer(k, a) == Answer(k, b)
  }

  // ---------------------------------------------------------------------------------------------
  // Without ties the order does not show
  // ---------------------------------------------------------------------------------------------

  function TiesAt(k: Case, y: Cluster, l: int): seq<Cluster>
    requires |k.labels| == |Geo(k)| && l in k.labels
  {
    Ties(Above, y, Entry(k, l))
  }

  lemma SlowSnoc(k: Case, order: seq<int>)
    requires |k.labels| == |Geo(k)| && order != [] && forall l :: l in order ==> l in k.labels
    ensures var n := |order| - 1; Slow(k, order) == Slow(k, order[..n]) + Entry(k, order[n])
  {
  }

  lemma SlowTiesSnoc(k: Case, init: seq<int>, m: int, y: Cluster)
    requires |k.labels| == |Geo(k)| && m in k.labels && forall l :: l in init ==> l in k.labels
    ensures Ties(Above, y, Slow(k, init + [m])) == Ties(Above, y, Slow(k, init)) + TiesAt(k, y, m)
  {
    assert (init + [m])[..|init|] == init;
    SlowSnoc(k, init + [m]);
    TiesAppend(Above, y, Slow(k, init), Entry(k, m));
  }

  /** If only entry l has clusters tied with y, those are all the ties of y. */
  lemma {:induction false} SlowTies(k: Case, order: seq<int>, y: Cluster, l: int)
    requires |k.labels| == |Geo(k)| && Distinct(order) && (forall m :: m in order ==> m in k.labels)
    requires forall m :: m in order && m != l ==> TiesAt(k, y, m) == []
    ensures Ties(Above, y, Slow(k, order)) == if l in order then TiesAt(k, y, l) else []
  {
    if order == [] {
      assert Slow(k, order) == [];
    } else {
      var n := |order| - 1;
      var init, m := order[..n], order[n];
      assert order == init + [m] && m !in init;
      SlowTies(k, init, y, l);
      SlowTiesSnoc(k, init, m, y);
    }
  }

  lemma OneEntryTies(k: Case, y: Cluster, l: int, m: int)
    requires |k.labels| == |Geo(k)| && NoTies(k) && l in k.labels && m in k.labels && l != m && TiesAt(k, y, l) != []
    ensures TiesAt(k, y, m) == []
  {
    if TiesAt(k, y, m) != [] {
      var c, d := TiesAt(k, y, l)[0], TiesAt(k, y, m)[0];
      TiesIn(Above, y, Entry(k, l), c);
      TiesIn(Above, y, Entry(k, m), d);
      assert Tied(c, d);
    }
  }

  lemma SameTies(k: Case, a: seq<int>, b: seq<int>, y: Cluster)
    requires |k.labels| == |Geo(k)| && NoTies(k) && IterationOrder(a, k.labels) && IterationOrder(b, k.labels)
    ensures Ties(Above, y, Slow(k, a)) == Ties(Above, y, Slow(k, b))
  {
    if l :| l in k.labels && TiesAt(k, y, l) != [] {
      forall m | m in k.labels && m != l ensures TiesAt(k, y, m) == [] {
        OneEntryTies(k, y, l, m);
      }
      SlowTies(k, a, y, l);
      SlowTies(k, b, y, l);
    } else if a != [] {
      SlowTies(k, a, y, a[0]);
      SlowTies(k, b, y, a[0]);
    }
  }

  lemma SameRanking(k: Case, a: seq<int>, b: seq<int>)
    requires |k.labels| == |Geo(k)| && NoTies(k) && IterationOrder(a, k.labels) && IterationOrder(b, k.labels)
    ensures StableSort(Above, Slow(k, a)) == StableSort(Above, Slow(k, b))
  {
    AboveRanks();
    StableSortRanked(Above, Slow(k, a));
    StableSortRanked(Above, Slow(k, b));
    forall y ensures Ties(Above, y, StableSort(Above, Slow(k, a))) == Ties(Above, y, StableSort(Above, Slow(k, b))) {
      StableSortStable(Above, Slow(k, a), y);
      StableSortStable(Above, Slow(k, b), y);
      SameTies(k, a, b, y);
    }
    RankedDetermined(Above, StableSort(Above, Slow(k, a)), StableSort(Above, Slow(k, b)));
  }

  lemma NoTiesIsOrderFree(k: Case)
    requires |k.labels| == |Geo(k)| && NoTies(k)
    ensures OrderFree(k)
  {
    forall a, b | IterationOrder(a, k.labels) && IterationOrder(b, k.labels) ensures Answer(k, a) == Answer(k, b) {
      SameRanking(k, a, b);
    }
  }

  // ---------------------------------------------------------------------------------------------
  // A tie shows
  // ---------------------------------------------------------------------------------------------

  /** The members of the clusters tied with y, in order. */
  function TiedMembers(y: Cluster, cs: seq<Cluster>): seq<seq<string>> {
    if cs == [] then []
    else (if Tied(cs[0], y) then [cs[0].members] else []) + TiedMembers(y, cs[1..])
  }

  lemma {:induction false} MembersOfTies(y: Cluster, cs: seq<Cluster>)
    ensures |TiedMembers(y, cs)| == |Ties(Above, y, cs)|
    ensures forall i :: 0 <= i < |TiedMembers(y, cs)| ==> TiedMembers(y, cs)[i] == Ties(Above, y, cs)[i].members
  {
    if cs != [] {
      MembersOfTies(y, cs[1..]);
    }
  }

  lemma TiedMembersByTies(y: Cluster, cs: seq<Cluster>, ds: seq<Cluster>)
    requires Ties(Above, y, cs) == Ties(Above, y, ds)
    ensures TiedMembers(y, cs) == TiedMembers(y, ds)
  {
    MembersOfTies(y, cs);
    MembersOfTies(y, ds);
  }

  /** Sorting and naming show neither in the members of tied clusters nor in their order. */
  lemma {:induction false} TiedMembersRenamed(y: Cluster, cs: seq<Cluster>, ds: seq<Cluster>)
    requires |cs| == |ds| && forall i :: 0 <= i < |cs| ==> ds[i] == cs[i].(kind := ds[i].kind)
    ensures TiedMembers(y, ds) == TiedMembers(y, cs)
  {
    if cs != [] {
      TiedMembersRenamed(y, cs[1..], ds[1..]);
    }
  }

  lemma TiedMembersSorted(y: Cluster, cs: seq<Cluster>)
    ensures TiedMembers(y, StableSort(Above, cs)) == TiedMembers(y, cs)
  {
    AboveRanks();
    StableSortStable(Above, cs, y);
    TiedMembersByTies(y, StableSort(Above, cs), cs);
  }

  lemma {:induction false} TiedMembersAppend(y: Cluster, cs: seq<Cluster>, ds: seq<Cluster>)
    ensures TiedMembers(y, cs + ds) == TiedMembers(y, cs) + TiedMembers(y, ds)
  {
    if cs == [] {
      assert cs + ds == ds;
    } else {
      TiedMembersAppend(y, cs[1..], ds);
      assert (cs + ds)[1..] == cs[1..] + ds;
    }
  }

  lemma TiedMembersWith(y: Cluster, cs: seq<Cluster>, c: Cluster, pts: seq<ChargePoint>)
    ensures TiedMembers(y, cs) <= TiedMembers(y, WithIfAny(cs, c, pts))
  {
    TiedMembersAppend(y, cs, [c]);
  }

  /** They stand at the front among the answer's clusters tied with y. */
  lemma SlowTiesComeFirst(k: Case, order: seq<int>, y: Cluster)
    requires |k.labels| == |Geo(k)| && forall l :: l in order ==> l in k.labels
    ensures TiedMembers(y, Slow(k, order)) <= TiedMembers(y, Answer(k, order))
  {
    var fast, missing := Select(k.p, FastPool, k.pts), Select(k.p, MissingPool, k.pts);
    var ranked, named := StableSort(Above, Slow(k, order)), NamedOf(k, order);
    TiedMembersSorted(y, Slow(k, order));
    TiedMembersRenamed(y, ranked, named);
    TiedMembersWith(y, named, FastCluster(k.hav, fast), fast);
    TiedMembersSorted(y, WithIfAny(named, FastCluster(k.hav, fast), fast));
    TiedMembersWith(y, RankedOf(k, order), UnknownCluster(missing), missing);
  }

  lemma {:induction false} SlowBegins(k: Case, order: seq<int>, y: Cluster)
    requires |k.labels| == |Geo(k)| && order != [] && forall l :: l in order ==> l in k.labels
    ensures TiedMembers(y, Entry(k, order[0])) <= TiedMembers(y, Slow(k, order))
  {
    var n := |order| - 1;
    SlowSnoc(k, order);
    if n == 0 {
      assert Slow(k, order[..n]) == [];
      assert [] + Entry(k, order[n]) == Entry(k, order[n]);
    } else {
      SlowBegins(k, order[..n], y);
      TiedMembersAppend(y, Slow(k, order[..n]), Entry(k, order[n]));
    }
  }

  /** A member of entry l is a charge labelled l. */
  ghost predicate MemberAt(k: Case, members: seq<string>, l: int)
    requires |k.labels| == |Geo(k)|
  {
    members != [] && exists i :: 0 <= i < |k.labels| && k.labels[i] == l && Geo(k)[i].id == members[0]
  }

  lemma EntryMembers(k: Case, l: int, c: Cluster)
    requires |k.labels| == |Geo(k)| && l in k.labels && c in Entry(k, l)
    ensures MemberAt(k, c.members, l)
  {
    var idxs, pts := IndicesOf(k.labels, l), GroupOf(Geo(k), k.labels, l);
    if l == -1 {
      var j :| 0 <= j < |pts| && c == Singleton(pts[j]);
      assert k.labels[idxs[j]] == l && Geo(k)[idxs[j]].id == c.members[0];
    } else {
      assert k.labels[idxs[0]] == l && Geo(k)[idxs[0]].id == c.members[0];
    }
  }

  lemma {:induction false} TiedMemberIsFrom(y: Cluster, cs: seq<Cluster>, c: Cluster)
    requires c in cs && Tied(c, y)
    ensures TiedMembers(y, cs) != [] && exists d :: d in cs && d.members == TiedMembers(y, cs)[0]
  {
    if Tied(cs[0], y) {
      assert cs[0] in cs && cs[0].members == TiedMembers(y, cs)[0];
    } else {
      TiedMemberIsFrom(y, cs[1..], c);
      var d :| d in cs[1..] && d.members == TiedMembers(y, cs[1..])[0];
      assert d in cs;
    }
  }

  /** The first of the answer's clusters tied with c belongs to the first entry, when that holds one. */
  lemma FirstTieIsFirstEntry(k: Case, order: seq<int>, y: Cluster, c: Cluster)
    requires Proper(k) && IterationOrder(order, k.labels) && order != [] && c in Entry(k, order[0]) && Tied(c, y)
    ensures TiedMembers(y, Answer(k, order)) != [] && MemberAt(k, TiedMembers(y, Answer(k, order))[0], order[0])
  {
    SlowTiesComeFirst(k, order, y);
    SlowBegins(k, order, y);
    TiedMemberIsFrom(y, Entry(k, order[0]), c);
    var d :| d in Entry(k, order[0]) && d.members == TiedMembers(y, Entry(k, order[0]))[0];
    EntryMembers(k, order[0], d);
  }

  lemma OneMemberOneLabel(k: Case, members: seq<string>, l: int, m: int)
    requires |k.labels| == |Geo(k)| && Distinct(Ids(Geo(k))) && MemberAt(k, members, l) && MemberAt(k, members, m)
    ensures l == m
  {
    var i :| 0 <= i < |k.labels| && k.labels[i] == l && Geo(k)[i].id == members[0];
    var j :| 0 <= j < |k.labels| && k.labels[j] == m && Geo(k)[j].id == members[0];
    assert Ids(Geo(k))[i] == Ids(Geo(k))[j];
  }

  lemma TieIsOrderDependent(k: Case, l: int, m: int, c: Cluster, d: Cluster)
    requires Proper(k) && Distinct(Ids(Geo(k))) && l in k.labels && m in k.labels && l != m
    requires c in Entry(k, l) && d in Entry(k, m) && Tied(c, d)
    ensures !OrderFree(k)
  {
    var a := OrderStartingWith(k.labels, l);
    var b := OrderStartingWith(k.labels, m);
    FirstTieIsFirstEntry(k, a, c, c);
    FirstTieIsFirstEntry(k, b, c, d);
    if Answer(k, a) == Answer(k, b) {
      OneMemberOneLabel(k, TiedMembers(c, Answer(k, a))[0], l, m);
    }
  }

  /** For distinct charge ids, the answer is the same in every iteration order if and only if no clusters
    * of two different map entries tie on sessions and energy. */
  lemma AnswerOrderFreeIffNoTies(k: Case)
    requires Proper(k) && Distinct(Ids(Geo(k)))
    ensures OrderFree(k) <==> NoTies(k)
  {
    if NoTies(k) {
      NoTiesIsOrderFree(k);
    } else {
      var l, m, c, d :| l in k.labels && m in k.labels && l != m && c in Entry(k, l) && d in Entry(k, m) && Tied(c, d);
      TieIsOrderDependent(k, l, m, c, d);
    }
  }

  lemma PossibleIffAnswer(k: Case, x: seq<Cluster>)
    requires SymmetricMetric(k.hav) && k.labels == LabelsOf(k.hav, k.p, k.pts)
    ensures Possible(k.hav, k.p, k.pts, x) <==> exists order :: IterationOrder(order, k.labels) && x == Answer(k, order)
  {
    if Possible(k.hav, k.p, k.pts, x) {
      var order :| IterationOrder(order, k.labels) && x == Outcome(k.hav, k.p, k.pts, k.labels, order);
      assert x == Answer(k, order);
    }
    if order :| IterationOrder(order, k.labels) && x == Answer(k, order) {
      assert x == Outcome(k.hav, k.p, k.pts, k.labels, order);
    }
  }

  /** One answer is possible. */
  ghost predicate Deterministic(hav: Metric, p: Params, pts: seq<ChargePoint>)
    requires SymmetricMetric(hav)
  {
    forall x, y :: Possible(hav, p, pts, x) && Possible(hav, p, pts, y) ==> x == y
  }

  lemma DeterministicIffOrderFree(k: Case)
    requires SymmetricMetric(k.hav) && k.labels == LabelsOf(k.hav, k.p, k.pts)
    ensures Deterministic(k.hav, k.p, k.pts) <==> OrderFree(k)
  {
    if OrderFree(k) {
      forall x, y | Possible(k.hav, k.p, k.pts, x) && Possible(k.hav, k.p, k.pts, y) ensures x == y {
        PossibleIffAnswer(k, x);
        PossibleIffAnswer(k, y);
      }
    } else {
      var a, b :| IterationOrder(a, k.labels) && IterationOrder(b, k.labels) && Answer(k, a) != Answer(k, b);
      PossibleIffAnswer(k, Answer(k, a));
      PossibleIffAnswer(k, Answer(k, b));
    }
  }

  /** So it is for the program: it is deterministic if and only if the groups it finds do not tie. */
  lemma DeterministicIffNoTies(hav: Metric, p: Params, pts: seq<ChargePoint>)
    requires SymmetricMetric(hav) && p.minPts >= 1 && Distinct(Ids(Select(p, GeoPool, pts)))
    ensures Deterministic(hav, p, pts) <==> NoTies(Case(hav, p, pts, LabelsOf(hav, p, pts)))
  {
    var k := Case(hav, p, pts, LabelsOf(hav, p, pts));
    ComputedLabelsAreProper(hav, p, pts);
    AnswerOrderFreeIffNoTies(k);
    DeterministicIffOrderFree(k);
  }

  // ---------------------------------------------------------------------------------------------
  // When Home depends on it
  // ---------------------------------------------------------------------------------------------

  lemma {:induction false} SlowStartsWith(k: Case, order: seq<int>)
    requires |k.labels| == |Geo(k)| && (forall l :: l in order ==> l in k.labels)
    requires order != [] && order[0] != -1
    ensures Slow(k, order) != [] && Slow(k, order)[0] == GroupCluster(k, order[0])
  {
    var n := |order| - 1;
    if n == 0 {
      assert order[..n] == [] && Slow(k, order[..n]) == [];
    } else {
      SlowStartsWith(k, order[..n]);
    }
  }

  lemma SortKeepsUnbeatenHead(cs: seq<Cluster>)
    requires cs != [] && forall c :: c in cs ==> !Above(c, cs[0])
    ensures StableSort(Above, cs)[0] == cs[0]
  {
    var tail := StableSort(Above, cs[1..]);
    if tail != [] {
      assert tail[0] in multiset(tail);
      assert tail[0] in cs[1..];
    }
  }

  /** A Top group that comes first in the iteration is Home. */
  lemma FirstTopIsHome(k: Case, order: seq<int>, l: int)
    requires Proper(k) && IterationOrder(order, k.labels) && Top(k, l) && order[0] == l
    ensures Homes(Answer(k, order)) == multiset{GroupCluster(k, l).(kind := Home)}
  {
    SlowStartsWith(k, order);
    forall c | c in Slow(k, order) ensures !Above(c, GroupCluster(k, l)) {
      SlowComesFrom(k, order, c);
    }
    SortKeepsUnbeatenHead(Slow(k, order));
    HomesOfAnswer(k, order);
  }

  lemma DifferentGroups(k: Case, l: int, m: int)
    requires |k.labels| == |Geo(k)| && l in k.labels && m in k.labels && Distinct(Ids(Geo(k)))
    requires GroupCluster(k, l).members == GroupCluster(k, m).members
    ensures l == m
  {
    var i, j := IndicesOf(k.labels, l)[0], IndicesOf(k.labels, m)[0];
    assert Ids(GroupOf(Geo(k), k.labels, l))[0] == Ids(Geo(k))[i];
    assert Ids(GroupOf(Geo(k), k.labels, m))[0] == Ids(Geo(k))[j];
  }

  /** For distinct charge ids, Home is the same in every iteration order iff no two groups tie at the top. */
  lemma HomeOrderFreeIffNoTie(k: Case)
    requires Proper(k) && Distinct(Ids(Geo(k)))
    ensures (forall a, b :: IterationOrder(a, k.labels) && IterationOrder(b, k.labels) ==>
               Homes(Answer(k, a)) == Homes(Answer(k, b)))
            <==> (forall l, m :: Top(k, l) && Top(k, m) ==> l == m)
  {
    if l, m :| Top(k, l) && Top(k, m) && l != m {
      var a := OrderStartingWith(k.labels, l);
      var b := OrderStartingWith(k.labels, m);
      FirstTopIsHome(k, a, l);
      FirstTopIsHome(k, b, m);
      if Homes(Answer(k, a)) == Homes(Answer(k, b)) {
        assert GroupCluster(k, l).(kind := Home) in Homes(Answer(k, b));
        DifferentGroups(k, l, m);
      }
    } else {
      forall a, b | IterationOrder(a, k.labels) && IterationOrder(b, k.labels)
        ensures Homes(Answer(k, a)) == Homes(Answer(k, b))
      {
        HomeIsTheTopGroup(k, a);
        HomeIsTheTopGroup(k, b);
      }
    }
  }

  lemma TopTieChangesHome(k: Case, l: int, m: int) returns (a: seq<int>, b: seq<int>)
    requires Proper(k) && Distinct(Ids(Geo(k))) && Top(k, l) && Top(k, m) && l != m
    ensures IterationOrder(a, k.labels) && IterationOrder(b, k.labels) && Homes(Answer(k, a)) != Homes(Answer(k, b))
  {
    HomeOrderFreeIffNoTie(k);
    a, b :| IterationOrder(a, k.labels) && IterationOrder(b, k.labels) && Homes(Answer(k, a)) != Homes(Answer(k, b));
  }

  // ---------------------------------------------------------------------------------------------
  // An input whose Home depends on it
  // ---------------------------------------------------------------------------------------------

  function Spot(id: string, lat: real): ChargePoint { ChargePoint(id, lat, 0.0, 10.0, 7.0) }

  /** Two charges at one place, two at another, all of one energy. */
  const PAIRS := [Spot("a", 1.0), Spot("b", 1.0), Spot("c", 2.0), Spot("d", 2.0)]

  /** Places a kilometre apart. */
  const APART: Metric := (a: LatLon, b: LatLon) => if a == b then 0.0 else 1000.0

  lemma AllAreLocated()
    ensures Select(DEFAULTS, GeoPool, PAIRS) == PAIRS
  {
    assert PAIRS[..3] == [PAIRS[0], PAIRS[1], PAIRS[2]] && PAIRS[..3][..2] == [PAIRS[0], PAIRS[1]];
    assert [PAIRS[0], PAIRS[1]][..1] == [PAIRS[0]] && [PAIRS[0]][..0] == [];
    assert Select(DEFAULTS, GeoPool, [PAIRS[0]]) == [PAIRS[0]];
    assert Select(DEFAULTS, GeoPool, [PAIRS[0], PAIRS[1]]) == [PAIRS[0], PAIRS[1]];
    assert Select(DEFAULTS, GeoPool, PAIRS[..3]) == PAIRS[..3];
  }

  ghost function PairSpace(): (s: Space)
    ensures Symmetric(s.dist)
  {
    SpaceOf(APART, DEFAULTS, PAIRS)
  }

  lemma PairNeighbours(i: int)
    requires 0 <= i < 4
    ensures Core(PairSpace(), i)
    ensures forall j :: Near(PairSpace(), i, j) <==> 0 <= j < 4 && (i < 2 <==> j < 2)
  {
    assert Neighbours(PairSpace(), i) == if i < 2 then {0, 1} else {2, 3};
  }

  lemma {:induction false} PairChainStays(p: seq<int>, n: nat)
    requires n < |p| && p[0] == 0 && Chain(GraphOf(PairSpace()), p, 0, p[|p| - 1])
    ensures 0 <= p[n] < 2
  {
    if n > 0 {
      PairChainStays(p, n - 1);
      assert GraphOf(PairSpace()).near(p[n - 1], p[n]);
      PairNeighbours(p[n - 1]);
    }
  }

  lemma PairsLinked(i: int, j: int)
    requires 0 <= i < 4 && 0 <= j < 4 && (i < 2 <==> j < 2)
    ensures Label(GraphOf(PairSpace()), i) == Label(GraphOf(PairSpace()), j)
  {
    var g := GraphOf(PairSpace());
    PairNeighbours(i);
    PairNeighbours(j);
    LinkedSelf(g, i);
    LinkedStep(g, i, i, j);
    SameLabelIffLinked(g, i, j);
  }

  lemma PairsApart()
    ensures Label(GraphOf(PairSpace()), 0) != Label(GraphOf(PairSpace()), 2)
  {
    var g := GraphOf(PairSpace());
    PairNeighbours(0);
    PairNeighbours(2);
    SameLabelIffLinked(g, 0, 2);
    if Linked(g, 0, 2) {
      var p :| Chain(g, p, 0, 2);
      PairChainStays(p, |p| - 1);
      assert false;
    }
  }

  lemma FourLabels(g: Graph)
    requires WellFormed(g) && g.n == 4 && Label(g, 0) == Label(g, 1) && Label(g, 2) == Label(g, 3)
    ensures Labelling(g) == [Label(g, 0), Label(g, 0), Label(g, 2), Label(g, 2)]
  {
  }

  lemma LabelsOfPairs()
    ensures LabelsOf(APART, DEFAULTS, PAIRS) == Labelling(GraphOf(PairSpace())) && GraphOf(PairSpace()).n == 4
  {
    AllAreLocated();
  }

  lemma PairIsClustered(i: int)
    requires 0 <= i < 4
    ensures Label(GraphOf(PairSpace()), i) >= 1
  {
    PairNeighbours(i);
  }

  /** The labels the program finds: one number for each pair. */
  lemma PairLabels() returns (l: int, m: int)
    ensures l != m && l >= 1 && m >= 1 && LabelsOf(APART, DEFAULTS, PAIRS) == [l, l, m, m]
  {
    LabelsOfPairs();
    PairIsClustered(0);
    PairIsClustered(2);
    PairsLinked(0, 1);
    PairsLinked(2, 3);
    PairsApart();
    FourLabels(GraphOf(PairSpace()));
    l, m := Label(GraphOf(PairSpace()), 0), Label(GraphOf(PairSpace()), 2);
  }

  lemma PairIndices(l: int, m: int)
    requires l != m
    ensures IndicesOf([l, l, m, m], l) == [0, 1] && IndicesOf([l, l, m, m], m) == [2, 3]
  {
    assert [l, l, m, m][..3] == [l, l, m] && [l, l, m][..2] == [l, l] && [l, l][..1] == [l] && [l][..0] == [];
    assert IndicesOf([l], l) == [0] && IndicesOf([l], m) == [];
    assert IndicesOf([l, l], l) == [0, 1] && IndicesOf([l, l], m) == [];
    assert IndicesOf([l, l, m], l) == [0, 1] && IndicesOf([l, l, m], m) == [2];
  }

  lemma GroupOfTwo(k: Case, l: int, i: nat, j: nat)
    requires |k.labels| == |Geo(k)| && l in k.labels && i < |Geo(k)| && j < |Geo(k)| && IndicesOf(k.labels, l) == [i, j]
    ensures GroupCluster(k, l).sessions == 2 && GroupCluster(k, l).energy == Geo(k)[i].energy + Geo(k)[j].energy
  {
    assert GroupOf(Geo(k), k.labels, l) == [Geo(k)[i]] + [Geo(k)[j]];
    SumOne(EnergyOf, Geo(k)[i]);
    SumSnoc(EnergyOf, [Geo(k)[i]], Geo(k)[j]);
  }

  /** Of two groups alike, both are Top. */
  lemma AlikeAreTop(k: Case, l: int, m: int)
    requires |k.labels| == |Geo(k)| && l in k.labels && m in k.labels && l != -1 && m != -1
    requires forall n :: n in k.labels ==> n == l || n == m
    requires GroupCluster(k, l).sessions == GroupCluster(k, m).sessions >= k.p.minPts
    requires GroupCluster(k, l).energy == GroupCluster(k, m).energy
    ensures Top(k, l) && Top(k, m)
  {
  }

  /** Four charges of the same energy in two groups of two. */
  ghost predicate TwoPairs(k: Case, l: int, m: int) {
    && k.p.minPts == 2 && |Geo(k)| == 4 && k.labels == [l, l, m, m] && l != m && l >= 1 && m >= 1
    && Distinct(Ids(Geo(k))) && forall i :: 0 <= i < 4 ==> Geo(k)[i].energy == 10.0
  }

  lemma BothPairsTop(k: Case, l: int, m: int)
    requires TwoPairs(k, l, m)
    ensures Top(k, l) && Top(k, m)
  {
    PairIndices(l, m);
    assert l in k.labels && m in k.labels;
    GroupOfTwo(k, l, 0, 1);
    GroupOfTwo(k, m, 2, 3);
    AlikeAreTop(k, l, m);
  }

  lemma PairIdsDiffer()
    ensures Distinct(Ids(PAIRS))
  {
    assert Ids(PAIRS) == ["a", "b", "c", "d"];
  }

  lemma TwoAnswers(k: Case, a: seq<int>, b: seq<int>)
    requires SymmetricMetric(k.hav) && k.labels == LabelsOf(k.hav, k.p, k.pts)
    requires IterationOrder(a, k.labels) && IterationOrder(b, k.labels)
    ensures Possible(k.hav, k.p, k.pts, Answer(k, a)) && Possible(k.hav, k.p, k.pts, Answer(k, b))
  {
    PossibleIffAnswer(k, Answer(k, a));
    PossibleIffAnswer(k, Answer(k, b));
  }

  lemma TwoHomes(k: Case, l: int, m: int) returns (x: seq<Cluster>, y: seq<Cluster>)
    requires SymmetricMetric(k.hav) && k.labels == LabelsOf(k.hav, k.p, k.pts) && TwoPairs(k, l, m)
    ensures Possible(k.hav, k.p, k.pts, x) && Possible(k.hav, k.p, k.pts, y) && Homes(x) != Homes(y)
  {
    ComputedLabelsAreProper(k.hav, k.p, k.pts);
    BothPairsTop(k, l, m);
    var a, b := TopTieChangesHome(k, l, m);
    TwoAnswers(k, a, b);
    x, y := Answer(k, a), Answer(k, b);
  }

  /** Two pairs of charges of the same energy, with the default parameters: two answers are possible, and
    * they differ in which pair is Home. */
  lemma HomeCanDependOnIteration() returns (x: seq<Cluster>, y: seq<Cluster>)
    ensures SymmetricMetric(APART) && Possible(APART, DEFAULTS, PAIRS, x) && Possible(APART, DEFAULTS, PAIRS, y)
    ensures Homes(x) != Homes(y)
  {
    var l, m := PairLabels();
    AllAreLocated();
    PairIdsDiffer();
    x, y := TwoHomes(Case(APART, DEFAULTS, PAIRS, LabelsOf(APART, DEFAULTS, PAIRS)), l, m);
  }
}

/** What a correct density labelling is, on an abstract neighbourhood graph.
  *
  * Nothing here mentions an algorithm: core points, chains of core points, leaders, border points,
  * noise, and the numbering of clusters.
  */
module DensityGraph {
  import opened Sets

  /** n points, a neighbourhood relation, and which points are core. */
  datatype Graph = Graph(n: nat, near: (int, int) -> bool, core: int -> bool)

  ghost predicate WellFormed(g: Graph) {
    && (forall i :: g.core(i) ==> 0 <= i < g.n)
    && (forall i, j :: g.near(i, j) ==> 0 <= i < g.n && 0 <= j < g.n)
    && (forall i, j :: g.near(i, j) ==> g.near(j, i))
    && (forall i :: 0 <= i < g.n ==> g.near(i, i))
  }

  /** A chain of core points, each in the neighbourhood of the one before. */
  ghost predicate Chain(g: Graph, p: seq<int>, i: int, j: int) {
    && p != [] && p[0] == i && p[|p| - 1] == j
    && (forall k :: 0 <= k < |p| ==> g.core(p[k]))
    && (forall k :: 0 < k < |p| ==> g.near(p[k - 1], p[k]))
  }

  /** Two core points are density-connected. */
  ghost predicate Linked(g: Graph, i: int, j: int) {
    exists p :: Chain(g, p, i, j)
  }

  lemma LinkedCores(g: Graph, i: int, j: int)
    requires Linked(g, i, j)
    ensures g.core(i) && g.core(j)
  {
    var p :| Chain(g, p, i, j);
  }

  lemma LinkedSelf(g: Graph, i: int)
    requires g.core(i)
    ensures Linked(g, i, i)
  {
    assert Chain(g, [i], i, i);
  }

  lemma LinkedStep(g: Graph, i: int, j: int, k: int)
    requires Linked(g, i, j) && g.core(k) && g.near(j, k)
    ensures Linked(g, i, k)
  {
    var p :| Chain(g, p, i, j);
    assert Chain(g, p + [k], i, k);
  }

  lemma LinkedTransitive(g: Graph, i: int, j: int, k: int)
    requires WellFormed(g) && Linked(g, i, j) && Linked(g, j, k)
    ensures Linked(g, i, k)
  {
    var p :| Chain(g, p, i, j);
    var q :| Chain(g, q, j, k);
    assert Chain(g, p + q, i, k);
  }

  lemma LinkedSymmetric(g: Graph, i: int, j: int)
    requires WellFormed(g) && Linked(g, i, j)
    ensures Linked(g, j, i)
  {
    var p :| Chain(g, p, i, j);
    var r := seq(|p|, k requires 0 <= k < |p| => p[|p| - 1 - k]);
    forall k | 0 < k < |r| ensures g.near(r[k - 1], r[k]) {
      var m := |p| - k;
      assert r[k - 1] == p[m] && r[k] == p[m - 1] && g.near(p[m - 1], p[m]);
    }
    assert Chain(g, r, j, i);
  }

  /** The lowest-index core point of i's cluster. */
  ghost function LeaderOf(g: Graph, i: int): (r: int)
    requires WellFormed(g) && g.core(i)
    ensures 0 <= r <= i && g.core(r) && Linked(g, i, r)
    ensures forall j :: Linked(g, i, j) ==> r <= j
  {
    LinkedSelf(g, i);
    assert forall j :: Linked(g, i, j) ==> 0 <= j by {
      forall j | Linked(g, i, j) ensures 0 <= j { LinkedCores(g, i, j); }
    }
    var r := LeastLinked(g, i, 0);
    LinkedCores(g, i, r);
    r
  }

  ghost function LeastLinked(g: Graph, i: int, from: nat): (r: int)
    requires Linked(g, i, i) && from <= i
    requires forall j :: Linked(g, i, j) ==> from <= j
    ensures from <= r <= i && Linked(g, i, r)
    ensures forall j :: Linked(g, i, j) ==> r <= j
    decreases i - from
  {
    if Linked(g, i, from) then from else LeastLinked(g, i, from + 1)
  }

  ghost predicate Leader(g: Graph, i: int)
    requires WellFormed(g)
  {
    g.core(i) && LeaderOf(g, i) == i
  }

  lemma LinkedIffSameLeader(g: Graph, i: int, j: int)
    requires WellFormed(g) && g.core(i) && g.core(j)
    ensures Linked(g, i, j) <==> LeaderOf(g, i) == LeaderOf(g, j)
  {
    var a, b := LeaderOf(g, i), LeaderOf(g, j);
    if Linked(g, i, j) {
      LinkedSymmetric(g, i, j);
      LinkedTransitive(g, i, j, b);
      LinkedTransitive(g, j, i, a);
    }
    if a == b {
      LinkedSymmetric(g, j, b);
      LinkedTransitive(g, i, a, j);
    }
  }

  lemma LeaderOfIsLeader(g: Graph, i: int)
    requires WellFormed(g) && g.core(i)
    ensures Leader(g, LeaderOf(g, i))
  {
    LinkedIffSameLeader(g, i, LeaderOf(g, i));
  }

  ghost function LeadersBelow(g: Graph, r: int): set<int>
    requires WellFormed(g)
  {
    set j | 0 <= j < r && Leader(g, j)
  }

  /** Clusters are numbered 1, 2, ... by their lowest-index core point. */
  ghost function CoreLabel(g: Graph, i: int): (l: int)
    requires WellFormed(g) && g.core(i)
    ensures l >= 1
  {
    1 + |LeadersBelow(g, LeaderOf(g, i))|
  }

  ghost function CoresNear(g: Graph, i: int): set<int> {
    set j | 0 <= j < g.n && g.core(j) && g.near(j, i)
  }

  ghost function Least(xs: set<int>): (m: int)
    requires |xs| > 0
    ensures m in xs && forall x :: x in xs ==> m <= x
    decreases |xs|
  {
    var x := Pick(xs);
    assert xs == (xs - {x}) + {x};
    if |xs - {x}| == 0 then x
    else
      var m := Least(xs - {x});
      if m <= x then m else x
  }

  ghost function LabelsNear(g: Graph, i: int): (ls: set<int>)
    requires WellFormed(g)
    ensures forall j :: j in CoresNear(g, i) ==> CoreLabel(g, j) in ls
    ensures forall l :: l in ls ==> exists j :: j in CoresNear(g, i) && CoreLabel(g, j) == l
  {
    set j | j in CoresNear(g, i) :: CoreLabel(g, j)
  }

  /** What point i must be labelled: -1 is noise, a border point takes the smallest number near it. */
  ghost function Label(g: Graph, i: int): (l: int)
    requires WellFormed(g)
    ensures l == -1 || l >= 1
  {
    if g.core(i) then CoreLabel(g, i)
    else if |LabelsNear(g, i)| == 0 then -1
    else Least(LabelsNear(g, i))
  }

  ghost function Labelling(g: Graph): (ls: seq<int>)
    requires WellFormed(g)
    ensures |ls| == g.n && forall i :: 0 <= i < g.n ==> ls[i] == Label(g, i)
  {
    seq(g.n, i requires 0 <= i < g.n => Label(g, i))
  }

  lemma LeadersBelowGrow(g: Graph, a: int, b: int)
    requires WellFormed(g) && Leader(g, a) && Leader(g, b) && a < b
    ensures |LeadersBelow(g, a)| < |LeadersBelow(g, b)|
  {
    SubsetNoLarger(LeadersBelow(g, a) + {a}, LeadersBelow(g, b));
  }

  /** A point is noise iff no core point has it in its neighbourhood. */
  lemma NoiseIffNoCoreNear(g: Graph, i: int)
    requires WellFormed(g) && 0 <= i < g.n
    ensures Label(g, i) == -1 <==> forall j :: g.core(j) ==> !g.near(j, i)
  {
    if g.core(i) {
      assert g.near(i, i);
    } else if |LabelsNear(g, i)| == 0 {
      forall j | g.core(j) ensures g.near(j, i) ==> CoreLabel(g, j) in LabelsNear(g, i) {
        assert g.near(j, i) ==> j in CoresNear(g, i);
      }
    } else {
      var l := Least(LabelsNear(g, i));
      var j :| j in CoresNear(g, i) && CoreLabel(g, j) == l;
    }
  }

  /** Two core points share a label iff a chain of core points joins them. */
  lemma SameLabelIffLinked(g: Graph, i: int, j: int)
    requires WellFormed(g) && g.core(i) && g.core(j)
    ensures Label(g, i) == Label(g, j) <==> Linked(g, i, j)
  {
    LinkedIffSameLeader(g, i, j);
    var a, b := LeaderOf(g, i), LeaderOf(g, j);
    LeaderOfIsLeader(g, i);
    LeaderOfIsLeader(g, j);
    if a < b {
      LeadersBelowGrow(g, a, b);
    } else if b < a {
      LeadersBelowGrow(g, b, a);
    }
  }

  /** Clusters are numbered in the order of their lowest-index core points. */
  lemma NumberedByLowestCore(g: Graph, i: int, j: int)
    requires WellFormed(g) && g.core(i) && g.core(j)
    ensures Label(g, i) < Label(g, j) <==> LeaderOf(g, i) < LeaderOf(g, j)
  {
    var a, b := LeaderOf(g, i), LeaderOf(g, j);
    LeaderOfIsLeader(g, i);
    LeaderOfIsLeader(g, j);
    if a < b {
      LeadersBelowGrow(g, a, b);
    } else if b < a {
      LeadersBelowGrow(g, b, a);
    }
  }

  /** A border point takes the smallest cluster number among the core points near it. */
  lemma BorderTakesSmallest(g: Graph, i: int)
    requires WellFormed(g) && 0 <= i < g.n && !g.core(i) && Label(g, i) != -1
    ensures exists j :: g.core(j) && g.near(j, i) && Label(g, j) == Label(g, i)
    ensures forall j :: g.core(j) && g.near(j, i) ==> Label(g, i) <= Label(g, j)
  {
    var l := Least(LabelsNear(g, i));
    var w :| w in CoresNear(g, i) && CoreLabel(g, w) == l;
    assert g.core(w) && g.near(w, i) && Label(g, w) == Label(g, i);
    forall j | g.core(j) && g.near(j, i) ensures Label(g, i) <= Label(g, j) {
      assert j in CoresNear(g, i);
      assert CoreLabel(g, j) in LabelsNear(g, i);
    }
  }
}

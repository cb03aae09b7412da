/** What the order of the input can and cannot change in the density labelling. */
module DbscanOrder {
  import opened Sets
  import opened DensityGraph
  import opened Dbscan

  /** A permutation of 0..n, given with its inverse. */
  ghost predicate Permutation(pi: seq<int>, inv: seq<int>, n: nat) {
    && |pi| == |inv| == n
    && (forall k :: 0 <= k < n ==> 0 <= pi[k] < n && inv[pi[k]] == k)
    && (forall k :: 0 <= k < n ==> 0 <= inv[k] < n && pi[inv[k]] == k)
  }

  /** The same charges listed in another order. */
  function Reorder(s: Space, pi: seq<int>): Space
    requires forall k :: 0 <= k < |pi| ==> 0 <= pi[k] < |s.pts|
  {
    s.(pts := seq(|pi|, k requires 0 <= k < |pi| => s.pts[pi[k]]))
  }

  /** h is g with point i renamed to pi[i]. */
  ghost predicate Reordered(g: Graph, h: Graph, pi: seq<int>, inv: seq<int>) {
    && WellFormed(g) && WellFormed(h) && g.n == h.n
    && Permutation(pi, inv, g.n)
    && (forall i, j :: 0 <= i < g.n && 0 <= j < g.n ==> (h.near(i, j) <==> g.near(pi[i], pi[j])))
    && (forall i :: 0 <= i < g.n ==> (h.core(i) <==> g.core(pi[i])))
  }

  lemma {:induction false} ImageSize(xs: set<int>, pi: seq<int>, inv: seq<int>, n: nat, ys: set<int>)
    requires Permutation(pi, inv, n)
    requires forall x :: x in xs ==> 0 <= x < n && pi[x] in ys
    requires forall y :: y in ys ==> 0 <= y < n && inv[y] in xs
    ensures |xs| == |ys|
  {
    if xs == {} {
      assert forall y :: y !in ys;
    } else {
      var x := Pick(xs);
      ImageSize(xs - {x}, pi, inv, n, ys - {pi[x]});
    }
  }

  lemma ReorderGraph(s: Space, pi: seq<int>, inv: seq<int>)
    requires Symmetric(s.dist) && Permutation(pi, inv, |s.pts|)
    ensures Reordered(GraphOf(s), GraphOf(Reorder(s, pi)), pi, inv)
  {
    var t := Reorder(s, pi);
    forall i, j | 0 <= i < |s.pts| && 0 <= j < |s.pts| ensures Near(t, i, j) <==> Near(s, pi[i], pi[j]) {
      assert inv[pi[i]] == i && inv[pi[j]] == j;
    }
    forall i | 0 <= i < |s.pts| ensures Core(t, i) <==> Core(s, pi[i]) {
      forall y | y in Neighbours(s, pi[i]) ensures inv[y] in Neighbours(t, i) {
        assert pi[inv[y]] == y;
      }
      ImageSize(Neighbours(t, i), pi, inv, |s.pts|, Neighbours(s, pi[i]));
    }
  }

  /** A chain of h, renamed, is a chain of g. */
  lemma ChainRenamed(g: Graph, h: Graph, pi: seq<int>, inv: seq<int>, p: seq<int>, i: int, j: int, q: seq<int>)
    requires Reordered(g, h, pi, inv) && Chain(h, p, i, j) && |q| == |p|
    requires forall k :: 0 <= k < |p| ==> 0 <= p[k] < g.n && q[k] == pi[p[k]]
    ensures Chain(g, q, pi[i], pi[j])
  {
    forall k | 0 < k < |q| ensures g.near(q[k - 1], q[k]) {
      assert h.near(p[k - 1], p[k]);
    }
    forall k | 0 <= k < |q| ensures g.core(q[k]) {
      assert h.core(p[k]);
    }
  }

  lemma ChainInRange(h: Graph, p: seq<int>, i: int, j: int)
    requires WellFormed(h) && Chain(h, p, i, j)
    ensures forall k :: 0 <= k < |p| ==> 0 <= p[k] < h.n
  {
  }

  lemma LinkedForward(g: Graph, h: Graph, pi: seq<int>, inv: seq<int>, i: int, j: int)
    requires Reordered(g, h, pi, inv) && Linked(h, i, j)
    ensures 0 <= i < g.n && 0 <= j < g.n && Linked(g, pi[i], pi[j])
  {
    var p :| Chain(h, p, i, j);
    ChainInRange(h, p, i, j);
    var q := seq(|p|, k requires 0 <= k < |p| => pi[p[k]]);
    ChainRenamed(g, h, pi, inv, p, i, j, q);
  }

  lemma LinkedReordered(g: Graph, h: Graph, pi: seq<int>, inv: seq<int>, i: int, j: int)
    requires Reordered(g, h, pi, inv) && 0 <= i < g.n && 0 <= j < g.n
    ensures Linked(h, i, j) <==> Linked(g, pi[i], pi[j])
  {
    if Linked(h, i, j) {
      LinkedForward(g, h, pi, inv, i, j);
    }
    if Linked(g, pi[i], pi[j]) {
      LinkedForward(h, g, inv, pi, pi[i], pi[j]);
    }
  }

  /** Reordering the input changes neither the noise set nor the partition of the core points. */
  lemma NoiseAndCoresOrderFree(s: Space, pi: seq<int>, inv: seq<int>)
    requires Symmetric(s.dist) && Permutation(pi, inv, |s.pts|)
    ensures var L, M := Labelling(GraphOf(s)), Labelling(GraphOf(Reorder(s, pi)));
            && (forall i :: 0 <= i < |s.pts| ==> (M[i] == -1 <==> L[pi[i]] == -1))
            && (forall i, j :: 0 <= i < |s.pts| && 0 <= j < |s.pts| && Core(s, pi[i]) && Core(s, pi[j]) ==>
                  (M[i] == M[j] <==> L[pi[i]] == L[pi[j]]))
  {
    var g, h := GraphOf(s), GraphOf(Reorder(s, pi));
    ReorderGraph(s, pi, inv);
    forall i | 0 <= i < g.n ensures Label(h, i) == -1 <==> Label(g, pi[i]) == -1 {
      NoiseReordered(g, h, pi, inv, i);
    }
    forall i, j | 0 <= i < g.n && 0 <= j < g.n && g.core(pi[i]) && g.core(pi[j])
      ensures Label(h, i) == Label(h, j) <==> Label(g, pi[i]) == Label(g, pi[j])
    {
      SameLabelIffLinked(h, i, j);
      SameLabelIffLinked(g, pi[i], pi[j]);
      LinkedReordered(g, h, pi, inv, i, j);
    }
  }

  lemma NoiseReordered(g: Graph, h: Graph, pi: seq<int>, inv: seq<int>, i: int)
    requires Reordered(g, h, pi, inv) && 0 <= i < g.n
    ensures Label(h, i) == -1 <==> Label(g, pi[i]) == -1
  {
    NoiseIffNoCoreNear(h, i);
    NoiseIffNoCoreNear(g, pi[i]);
    forall j | g.core(j) && g.near(j, pi[i]) ensures h.core(inv[j]) && h.near(inv[j], i) {
      assert pi[inv[j]] == j;
    }
  }

  /** i and j are put in the same cluster. */
  ghost predicate Together(g: Graph, i: int, j: int)
    requires WellFormed(g)
  {
    Label(g, i) == Label(g, j) && Label(g, i) != -1
  }

  /** No reordering of the input changes which charges are clustered together. */
  ghost predicate OrderFree(s: Space)
    requires Symmetric(s.dist)
  {
    forall pi, inv :: Permutation(pi, inv, |s.pts|) ==> SamePartition(s, pi)
  }

  ghost predicate SamePartition(s: Space, pi: seq<int>)
    requires Symmetric(s.dist) && |pi| == |s.pts| && forall k :: 0 <= k < |pi| ==> 0 <= pi[k] < |s.pts|
  {
    forall i, j :: 0 <= i < |s.pts| && 0 <= j < |s.pts| ==>
      (Together(GraphOf(Reorder(s, pi)), i, j) <==> Together(GraphOf(s), pi[i], pi[j]))
  }

  /** Some border point has core points of two different clusters near it. */
  ghost predicate Contested(g: Graph, i: int, a: int, b: int) {
    !g.core(i) && g.core(a) && g.core(b) && g.near(a, i) && g.near(b, i) && !Linked(g, a, b)
  }

  /** The partition is independent of the input order iff no border point lies between two clusters. */
  lemma OrderFreeIffUncontested(s: Space)
    requires Symmetric(s.dist)
    ensures OrderFree(s) <==> !exists i, a, b :: Contested(GraphOf(s), i, a, b)
  {
    var g := GraphOf(s);
    if exists i, a, b :: Contested(g, i, a, b) {
      var i, a, b :| Contested(g, i, a, b);
      ContestedIsOrderDependent(s, i, a, b);
    } else {
      forall pi, inv | Permutation(pi, inv, |s.pts|) ensures SamePartition(s, pi) {
        ReorderGraph(s, pi, inv);
        UncontestedIsOrderFree(g, GraphOf(Reorder(s, pi)), pi, inv);
      }
    }
  }

  /** With at most two points to a neighbourhood (the default) there are no border points at all. */
  lemma SmallMinPointsIsOrderFree(s: Space)
    requires Symmetric(s.dist) && s.minPts <= 2
    ensures OrderFree(s)
    ensures forall i :: 0 <= i < |s.pts| ==> (Label(GraphOf(s), i) != -1 <==> Core(s, i))
  {
    var g := GraphOf(s);
    forall i, j | g.core(j) && g.near(j, i) ensures g.core(i) {
      if i != j {
        assert {i, j} <= Neighbours(s, i) by {
          assert g.near(i, j);
        }
        SubsetNoLarger({i, j}, Neighbours(s, i));
      }
    }
    forall i | 0 <= i < g.n ensures Label(g, i) != -1 <==> g.core(i) {
      NoiseIffNoCoreNear(g, i);
    }
    OrderFreeIffUncontested(s);
  }

  // ---------------------------------------------------------------------------------------------

  /** Without contested points, a clustered point goes wherever any core point near it goes. */
  lemma FollowsAnyCoreNear(g: Graph, i: int, a: int)
    requires WellFormed(g) && (forall x, y, z :: !Contested(g, x, y, z))
    requires g.core(a) && g.near(a, i)
    ensures Label(g, i) == Label(g, a)
  {
    if g.core(i) {
      LinkedSelf(g, a);
      LinkedStep(g, a, a, i);
      SameLabelIffLinked(g, a, i);
    } else {
      NoiseIffNoCoreNear(g, i);
      BorderTakesSmallest(g, i);
      var b :| g.core(b) && g.near(b, i) && Label(g, b) == Label(g, i);
      assert !Contested(g, i, a, b);
      SameLabelIffLinked(g, a, b);
    }
  }

  lemma ContestedReordered(g: Graph, h: Graph, pi: seq<int>, inv: seq<int>, i: int, a: int, b: int)
    requires Reordered(g, h, pi, inv) && Contested(h, i, a, b)
    ensures 0 <= i < g.n && 0 <= a < g.n && 0 <= b < g.n && Contested(g, pi[i], pi[a], pi[b])
  {
    assert h.near(a, i) && h.near(b, i);
    LinkedReordered(g, h, pi, inv, a, b);
  }

  lemma UncontestedIsOrderFree(g: Graph, h: Graph, pi: seq<int>, inv: seq<int>)
    requires Reordered(g, h, pi, inv) && (forall x, y, z :: !Contested(g, x, y, z))
    ensures forall i, j :: 0 <= i < g.n && 0 <= j < g.n ==> (Together(h, i, j) <==> Together(g, pi[i], pi[j]))
  {
    forall x, y, z ensures !Contested(h, x, y, z) {
      if Contested(h, x, y, z) {
        ContestedReordered(g, h, pi, inv, x, y, z);
      }
    }
    forall i, j | 0 <= i < g.n && 0 <= j < g.n ensures Together(h, i, j) <==> Together(g, pi[i], pi[j]) {
      NoiseReordered(g, h, pi, inv, i);
      NoiseReordered(g, h, pi, inv, j);
      if Label(h, i) != -1 && Label(h, j) != -1 {
        var a := CoreNearClustered(h, i);
        var b := CoreNearClustered(h, j);
        FollowsAnyCoreNear(h, i, a);
        FollowsAnyCoreNear(h, j, b);
        FollowsAnyCoreNear(g, pi[i], pi[a]);
        FollowsAnyCoreNear(g, pi[j], pi[b]);
        SameLabelIffLinked(h, a, b);
        SameLabelIffLinked(g, pi[a], pi[b]);
        LinkedReordered(g, h, pi, inv, a, b);
      }
    }
  }

  lemma CoreNearClustered(g: Graph, i: int) returns (a: int)
    requires WellFormed(g) && 0 <= i < g.n && Label(g, i) != -1
    ensures g.core(a) && g.near(a, i)
  {
    NoiseIffNoCoreNear(g, i);
    a :| g.core(a) && g.near(a, i);
  }

  function Swap(n: nat, a: nat): seq<int>
    requires a < n
  {
    seq(n, k => if k == 0 then a else if k == a then 0 else k)
  }

  /** Listing core point a first makes its cluster number 1, which every contested border point near it takes. */
  lemma FirstWins(g: Graph, h: Graph, pi: seq<int>, inv: seq<int>, i: int)
    requires Reordered(g, h, pi, inv) && 0 <= i < g.n && 0 < g.n
    requires h.core(0) && h.near(0, i) && !h.core(i)
    ensures Together(h, i, 0)
  {
    assert LeadersBelow(h, LeaderOf(h, 0)) == {};
    assert Label(h, 0) == 1;
    NoiseIffNoCoreNear(h, i);
    BorderTakesSmallest(h, i);
  }

  lemma JoinsWhenFirst(s: Space, i: int, a: int)
    requires Symmetric(s.dist) && OrderFree(s)
    requires GraphOf(s).core(a) && GraphOf(s).near(a, i) && !GraphOf(s).core(i)
    ensures Together(GraphOf(s), i, a)
  {
    var g, pi := GraphOf(s), Swap(|s.pts|, a);
    assert Permutation(pi, pi, |s.pts|);
    ReorderGraph(s, pi, pi);
    var h := GraphOf(Reorder(s, pi));
    assert pi[pi[i]] == i && pi[0] == a;
    FirstWins(g, h, pi, pi, pi[i]);
    assert SamePartition(s, pi);
    assert Together(h, pi[i], 0) <==> Together(g, pi[pi[i]], pi[0]);
  }

  lemma ContestedIsOrderDependent(s: Space, i: int, a: int, b: int)
    requires Symmetric(s.dist) && Contested(GraphOf(s), i, a, b)
    ensures !OrderFree(s)
  {
    if OrderFree(s) {
      JoinsWhenFirst(s, i, a);
      JoinsWhenFirst(s, i, b);
      SameLabelIffLinked(GraphOf(s), a, b);
    }
  }

  // ---------------------------------------------------------------------------------------------
  // An input whose partition depends on the order
  // ---------------------------------------------------------------------------------------------

  function At(x: real): ChargePoint { ChargePoint("", x, 0.0, 0.0, 0.0) }

  /** Seven charges on a line; the one at 1 lies between the clusters around 0 and around 2. */
  const BETWEEN := Space([At(-1.0), At(-1.0), At(0.0), At(1.0), At(2.0), At(3.0), At(3.0)],
                         (a: ChargePoint, b: ChargePoint) => if a.lat < b.lat then b.lat - a.lat else a.lat - b.lat,
                             1.0, 4)

  lemma OnlyTwoCores(i: int)
    requires 0 <= i < 7
    ensures Core(BETWEEN, i) <==> i == 2 || i == 4
  {
    var around := if i <= 1 then {0, 1, 2} else if i == 2 then {0, 1, 2, 3} else if i == 3 then {2, 3, 4}
                  else if i == 4 then {3, 4, 5, 6} else {4, 5, 6};
    assert Neighbours(BETWEEN, i) == around;
  }

  lemma {:induction false} ChainStays(p: seq<int>, k: nat)
    requires k < |p| && p[0] == 2 && Chain(GraphOf(BETWEEN), p, 2, p[|p| - 1])
    ensures p[k] == 2
  {
    if k > 0 {
      ChainStays(p, k - 1);
      assert GraphOf(BETWEEN).near(p[k - 1], p[k]) && GraphOf(BETWEEN).core(p[k]);
      OnlyTwoCores(p[k]);
    }
  }

  lemma PartitionCanDependOnOrder()
    ensures Symmetric(BETWEEN.dist) && !OrderFree(BETWEEN)
  {
    var g := GraphOf(BETWEEN);
    OnlyTwoCores(2);
    OnlyTwoCores(3);
    OnlyTwoCores(4);
    if Linked(g, 2, 4) {
      var p :| Chain(g, p, 2, 4);
      ChainStays(p, |p| - 1);
      assert false;
    }
    assert Contested(g, 3, 2, 4);
    OrderFreeIffUncontested(BETWEEN);
  }
}

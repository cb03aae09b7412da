/** The DBSCAN worklist over the arrays `labels` and `visited`, proved to compute exactly the
  * declarative labelling of DensityGraph.
  */
module Dbscan {
  import opened DensityGraph
  import opened Sets

  datatype ChargePoint = ChargePoint(id: string, lat: real, lon: real, energy: real, power: real)

  /** The located slow charges with a distance, of which only symmetry is used. */
  datatype Space = Space(pts: seq<ChargePoint>, dist: (ChargePoint, ChargePoint) -> real, eps: real, minPts: int)

  ghost predicate Symmetric(dist: (ChargePoint, ChargePoint) -> real) {
    forall a, b :: dist(a, b) == dist(b, a)
  }

  /** A point is in its own neighbourhood whatever the distance says. */
  predicate Near(s: Space, i: int, j: int) {
    0 <= i < |s.pts| && 0 <= j < |s.pts| && (i == j || s.dist(s.pts[i], s.pts[j]) <= s.eps)
  }

  ghost function Neighbours(s: Space, i: int): set<int> {
    set j | 0 <= j < |s.pts| && Near(s, i, j)
  }

  ghost predicate Core(s: Space, i: int) {
    0 <= i < |s.pts| && |Neighbours(s, i)| >= s.minPts
  }

  ghost function GraphOf(s: Space): (g: Graph)
    requires Symmetric(s.dist)
    ensures WellFormed(g) && g.n == |s.pts|
    ensures forall i, j :: g.near(i, j) <==> Near(s, i, j)
    ensures forall i :: g.core(i) <==> Core(s, i)
  {
    Graph(|s.pts|, (i, j) => Near(s, i, j), i => Core(s, i))
  }

  /** The neighbourhood of i as a list: i first, then the others in index order. */
  method RegionQuery(s: Space, i: int) returns (out: seq<int>)
    requires 0 <= i < |s.pts|
    ensures forall x :: x in out <==> Near(s, i, x)
    ensures Distinct(out) && |out| == |Neighbours(s, i)|
  {
    out := [i];
    for j := 0 to |s.pts|
      invariant forall x :: x in out ==> x == i || x < j
      invariant forall x :: x in out <==> x == i || (x < j && Near(s, i, x))
      invariant Distinct(out)
    {
      if j != i && s.dist(s.pts[i], s.pts[j]) <= s.eps {
        assert j !in out;
        out := out + [j];
      }
    }
    DistinctSize(out, Neighbours(s, i));
  }

  // ---------------------------------------------------------------------------------------------
  // What holds of the two arrays while the algorithm runs
  // ---------------------------------------------------------------------------------------------

  /** A border point carries the number of a core point near it. */
  ghost predicate Attached(g: Graph, L: seq<int>, V: seq<bool>, k: int)
    requires |L| == |V| == g.n
  {
    0 <= k < g.n && exists m :: 0 <= m < g.n && g.core(m) && V[m] && g.near(m, k) && L[m] == L[k]
  }

  ghost predicate PointOk(g: Graph, L: seq<int>, V: seq<bool>, roots: seq<int>, k: int)
    requires |L| == |V| == g.n && 0 <= k < g.n
  {
    if !V[k] then L[k] == 0
    else if g.core(k) then 1 <= L[k] <= |roots| && roots[L[k] - 1] <= k && Linked(g, roots[L[k] - 1], k)
    else L[k] == -1 || (1 <= L[k] <= |roots| && Attached(g, L, V, k))
  }

  /** `roots[c]` is the point that opened cluster c + 1. */
  ghost predicate RootOk(g: Graph, L: seq<int>, V: seq<bool>, roots: seq<int>, c: int)
    requires |L| == |V| == g.n && 0 <= c < |roots|
  {
    0 <= roots[c] < g.n && g.core(roots[c]) && V[roots[c]] && L[roots[c]] == c + 1
  }

  ghost predicate Increasing(xs: seq<int>) {
    forall c, d :: 0 <= c < d < |xs| ==> xs[c] < xs[d]
  }

  ghost predicate Progress(g: Graph, L: seq<int>, V: seq<bool>, roots: seq<int>) {
    && |L| == |V| == g.n
    && Increasing(roots)
    && (forall k :: 0 <= k < g.n ==> PointOk(g, L, V, roots, k))
    && (forall c :: 0 <= c < |roots| ==> RootOk(g, L, V, roots, c))
  }

  /** A neighbour m of a visited core point k was reached no later than k, or waits in k's queue. */
  ghost predicate EdgeOk(g: Graph, L: seq<int>, V: seq<bool>, current: int, queue: seq<int>, k: int, m: int)
    requires |L| == |V| == g.n && 0 <= k < g.n && 0 <= m < g.n
  {
    g.core(k) && V[k] && g.near(k, m) ==>
      (V[m] && 1 <= L[m] <= L[k]) || (L[k] == current && m in queue)
  }

  ghost predicate Closed(g: Graph, L: seq<int>, V: seq<bool>, current: int, queue: seq<int>)
    requires |L| == |V| == g.n
  {
    forall k, m :: 0 <= k < g.n && 0 <= m < g.n ==> EdgeOk(g, L, V, current, queue, k, m)
  }

  /** Between two outer iterations. */
  ghost predicate Settled(g: Graph, L: seq<int>, V: seq<bool>, roots: seq<int>) {
    Progress(g, L, V, roots) && Closed(g, L, V, 0, [])
  }

  /** j waits in the queue because a core point of the current cluster has it near. */
  ghost predicate Waiting(g: Graph, L: seq<int>, V: seq<bool>, current: int, j: int)
    requires |L| == |V| == g.n
  {
    0 <= j < g.n && exists k :: 0 <= k < g.n && g.core(k) && V[k] && L[k] == current && g.near(k, j)
  }

  ghost predicate Below(V: seq<bool>, i: int) {
    i <= |V| && forall k :: 0 <= k < i ==> V[k]
  }

  /** While the newest cluster is being expanded. */
  ghost predicate Expanding(g: Graph, L: seq<int>, V: seq<bool>, roots: seq<int>, queue: seq<int>) {
    && Progress(g, L, V, roots)
    && Closed(g, L, V, |roots|, queue)
    && (forall x :: x in queue ==> Waiting(g, L, V, |roots|, x))
    && |roots| > 0 && Below(V, roots[|roots| - 1])
  }

  // ---------------------------------------------------------------------------------------------
  // One lemma per step
  // ---------------------------------------------------------------------------------------------

  /** A labelled or core point taken off the queue when already visited changes nothing. */
  lemma DequeueKnown(g: Graph, L: seq<int>, V: seq<bool>, roots: seq<int>, j: int, queue: seq<int>)
    requires WellFormed(g) && Expanding(g, L, V, roots, [j] + queue)
    requires 0 <= j < g.n && V[j] && L[j] > 0
    ensures Expanding(g, L, V, roots, queue)
  {
    var q := [j] + queue;
    assert PointOk(g, L, V, roots, j);
    forall k, m | 0 <= k < g.n && 0 <= m < g.n ensures EdgeOk(g, L, V, |roots|, queue, k, m) {
      assert EdgeOk(g, L, V, |roots|, q, k, m);
    }
    forall x | x in queue ensures Waiting(g, L, V, |roots|, x) {
      assert x in q;
    }
  }

  /** Noise taken off the queue becomes a border point of the current cluster. */
  lemma DequeueNoise(g: Graph, L: seq<int>, V: seq<bool>, roots: seq<int>, j: int, queue: seq<int>)
    requires WellFormed(g) && Expanding(g, L, V, roots, [j] + queue)
    requires 0 <= j < g.n && V[j] && L[j] <= 0
    ensures Expanding(g, L[j := |roots|], V, roots, queue)
  {
    var q, c, L' := [j] + queue, |roots|, L[j := |roots|];
    assert PointOk(g, L, V, roots, j);
    assert Waiting(g, L, V, c, q[0]);
    forall k | 0 <= k < g.n ensures PointOk(g, L', V, roots, k) {
      assert PointOk(g, L, V, roots, k);
      if k == j {
        var w :| 0 <= w < g.n && g.core(w) && V[w] && L[w] == c && g.near(w, j);
        assert L'[w] == L'[j];
      }
    }
    forall d | 0 <= d < |roots| ensures RootOk(g, L', V, roots, d) {
      assert RootOk(g, L, V, roots, d);
    }
    forall k, m | 0 <= k < g.n && 0 <= m < g.n ensures EdgeOk(g, L', V, c, queue, k, m) {
      assert EdgeOk(g, L, V, c, q, k, m);
    }
    forall x | x in queue ensures Waiting(g, L', V, c, x) {
      assert x in q;
    }
  }

  /** A point seen for the first time joins the cluster; a core point brings its neighbourhood. */
  lemma DequeueFresh(g: Graph, L: seq<int>, V: seq<bool>, roots: seq<int>, j: int, queue: seq<int>, queue': seq<int>)
    requires WellFormed(g) && Expanding(g, L, V, roots, [j] + queue)
    requires 0 <= j < g.n && !V[j]
    requires forall x :: x in queue' <==> x in queue || (g.core(j) && g.near(j, x))
    ensures Expanding(g, L[j := |roots|], V[j := true], roots, queue')
  {
    var q, c, L', V' := [j] + queue, |roots|, L[j := |roots|], V[j := true];
    assert Waiting(g, L, V, c, q[0]);
    var w :| 0 <= w < g.n && g.core(w) && V[w] && L[w] == c && g.near(w, j);
    assert PointOk(g, L, V, roots, w) && PointOk(g, L, V, roots, j);
    assert V'[w] && L'[w] == L'[j];
    if g.core(j) {
      LinkedStep(g, roots[c - 1], w, j);
      assert RootOk(g, L, V, roots, c - 1);
    }
    forall k | 0 <= k < g.n ensures PointOk(g, L', V', roots, k) {
      assert PointOk(g, L, V, roots, k);
    }
    forall d | 0 <= d < |roots| ensures RootOk(g, L', V', roots, d) {
      assert RootOk(g, L, V, roots, d);
    }
    forall k, m | 0 <= k < g.n && 0 <= m < g.n ensures EdgeOk(g, L', V', c, queue', k, m) {
      assert EdgeOk(g, L, V, c, q, k, m);
    }
    forall x | x in queue' ensures Waiting(g, L', V', c, x) {
      if x in queue {
        assert x in q;
      }
    }
  }

  /** Opening a cluster at an unvisited core point. */
  lemma OpenCluster(g: Graph, L: seq<int>, V: seq<bool>, roots: seq<int>, i: int, queue: seq<int>)
    requires WellFormed(g) && Settled(g, L, V, roots)
    requires g.core(i) && !V[i] && Below(V, i) && (forall c :: 0 <= c < |roots| ==> roots[c] < i)
    requires forall x :: x in queue <==> g.near(i, x)
    ensures Expanding(g, L[i := |roots| + 1], V[i := true], roots + [i], queue)
  {
    var c, L', V', roots' := |roots| + 1, L[i := |roots| + 1], V[i := true], roots + [i];
    LinkedSelf(g, i);
    forall k | 0 <= k < g.n ensures PointOk(g, L', V', roots', k) {
      assert PointOk(g, L, V, roots, k);
    }
    forall d | 0 <= d < |roots'| ensures RootOk(g, L', V', roots', d) {
      assert d < |roots| ==> RootOk(g, L, V, roots, d);
    }
    forall k, m | 0 <= k < g.n && 0 <= m < g.n ensures EdgeOk(g, L', V', c, queue, k, m) {
      assert EdgeOk(g, L, V, 0, [], k, m);
    }
    forall x | x in queue ensures Waiting(g, L', V', c, x) {
      assert V'[i] && L'[i] == c;
    }
  }

  /** Marking an unvisited point that is not core as noise. */
  lemma MarkNoise(g: Graph, L: seq<int>, V: seq<bool>, roots: seq<int>, i: int)
    requires WellFormed(g) && Settled(g, L, V, roots) && 0 <= i < g.n && !g.core(i) && !V[i]
    ensures Settled(g, L[i := -1], V[i := true], roots)
  {
    var L', V' := L[i := -1], V[i := true];
    forall k | 0 <= k < g.n ensures PointOk(g, L', V', roots, k) {
      assert PointOk(g, L, V, roots, k);
    }
    forall d | 0 <= d < |roots| ensures RootOk(g, L', V', roots, d) {
      assert RootOk(g, L, V, roots, d);
    }
    forall k, m | 0 <= k < g.n && 0 <= m < g.n ensures EdgeOk(g, L', V', 0, [], k, m) {
      assert EdgeOk(g, L, V, 0, [], k, m);
    }
  }

  /** An empty queue means the cluster is closed. */
  lemma DrainedIsSettled(g: Graph, L: seq<int>, V: seq<bool>, roots: seq<int>)
    requires Expanding(g, L, V, roots, [])
    ensures Settled(g, L, V, roots)
  {
    forall k, m | 0 <= k < g.n && 0 <= m < g.n ensures EdgeOk(g, L, V, 0, [], k, m) {
      assert EdgeOk(g, L, V, |roots|, [], k, m);
    }
  }

  // ---------------------------------------------------------------------------------------------
  // The two loops
  // ---------------------------------------------------------------------------------------------

  ghost function Unvisited(V: seq<bool>): set<int> {
    set k | 0 <= k < |V| && !V[k]
  }

  lemma BelowIfNoneUnvisited(V: seq<bool>, i: nat)
    requires i <= |V| && forall k :: k in Unvisited(V) ==> i <= k
    ensures Below(V, i)
  {
    forall k | 0 <= k < i ensures V[k] {
      assert k !in Unvisited(V);
    }
  }

  /** `asked` lists the points whose neighbourhood was computed: the visited ones, each once. */
  ghost predicate AskedOnce(asked: seq<int>, V: seq<bool>) {
    Distinct(asked) && forall k :: k in asked <==> 0 <= k < |V| && V[k]
  }

  lemma AskedOneMore(asked: seq<int>, V: seq<bool>, j: int)
    requires AskedOnce(asked, V) && 0 <= j < |V| && !V[j]
    ensures AskedOnce(asked + [j], V[j := true])
    ensures Unvisited(V[j := true]) < Unvisited(V)
  {
    assert j !in asked;
    assert j in Unvisited(V);
  }

  /** Walk the closure of the seeds and attach it to cluster `cid`. */
  method ExpandCluster(s: Space, labels: array<int>, visited: array<bool>, seeds: seq<int>, cid: int,
                       ghost roots: seq<int>, ghost asked0: seq<int>)
    returns (ghost asked: seq<int>)
    requires Symmetric(s.dist) && labels.Length == visited.Length == |s.pts|
    requires cid == |roots| && Expanding(GraphOf(s), labels[..], visited[..], roots, seeds)
    requires AskedOnce(asked0, visited[..])
    modifies labels, visited
    ensures Settled(GraphOf(s), labels[..], visited[..], roots)
    ensures Unvisited(visited[..]) <= old(Unvisited(visited[..]))
    ensures AskedOnce(asked, visited[..]) && asked0 <= asked
  {
    ghost var g := GraphOf(s);
    asked := asked0;
    var queue := seeds;
    while queue != []
      invariant Expanding(g, labels[..], visited[..], roots, queue)
      invariant Unvisited(visited[..]) <= old(Unvisited(visited[..]))
      invariant AskedOnce(asked, visited[..]) && asked0 <= asked
      decreases Unvisited(visited[..]), |queue|
    {
      ghost var L, V := labels[..], visited[..];
      var j := queue[0];
      assert queue == [j] + queue[1..] && Waiting(g, L, V, |roots|, j);
      queue := queue[1..];
      ghost var rest := queue;
      if !visited[j] {
        visited[j] := true;
        var neigh := RegionQuery(s, j);
        if |neigh| >= s.minPts {
          queue := queue + neigh;
        }
        assert PointOk(g, L, V, roots, j);
        DequeueFresh(g, L, V, roots, j, rest, queue);
        AskedOneMore(asked, V, j);
        asked := asked + [j];
      } else if labels[j] <= 0 {
        DequeueNoise(g, L, V, roots, j, rest);
      } else {
        DequeueKnown(g, L, V, roots, j, rest);
      }
      assert visited[..] == if V[j] then V else V[j := true];
      if labels[j] <= 0 {
        labels[j] := cid;
      }
      assert labels[..] == if L[j] <= 0 then L[j := cid] else L;
    }
    DrainedIsSettled(g, labels[..], visited[..], roots);
  }

  /** DBSCAN: the labels end up exactly the declarative labelling, and every point's neighbourhood
    * is computed, and so enqueued, at most once in the whole run. */
  method Run(s: Space) returns (result: seq<int>, ghost asked: seq<int>)
    requires Symmetric(s.dist)
    ensures result == Labelling(GraphOf(s))
    ensures Distinct(asked) && forall k :: k in asked <==> 0 <= k < |s.pts|
  {
    ghost var g := GraphOf(s);
    var n := |s.pts|;
    var labels := new int[n](_ => 0);
    var visited := new bool[n](_ => false);
    var cid := 0;
    ghost var roots: seq<int> := [];
    asked := [];
    for i := 0 to n
      invariant cid == |roots| && Settled(g, labels[..], visited[..], roots)
      invariant forall k :: k in Unvisited(visited[..]) ==> i <= k
      invariant forall c :: 0 <= c < |roots| ==> roots[c] < i
      invariant AskedOnce(asked, visited[..])
    {
      ghost var L, V := labels[..], visited[..];
      BelowIfNoneUnvisited(V, i);
      if visited[i] {
        continue;
      }
      visited[i] := true;
      AskedOneMore(asked, V, i);
      assert visited[..] == V[i := true];
      var neigh := RegionQuery(s, i);
      asked := asked + [i];
      if |neigh| < s.minPts {
        labels[i] := -1;
        MarkNoise(g, L, V, roots, i);
        assert labels[..] == L[i := -1];
        continue;
      }
      cid := cid + 1;
      labels[i] := cid;
      OpenCluster(g, L, V, roots, i, neigh);
      assert labels[..] == L[i := cid];
      roots := roots + [i];
      asked := ExpandCluster(s, labels, visited, neigh, cid, roots, asked);
    }
    BelowIfNoneUnvisited(visited[..], n);
    SettledIsLabelling(g, labels[..], visited[..], roots);
    result := labels[..];
  }

  // ---------------------------------------------------------------------------------------------
  // When every point is visited, the settled labels are the declarative ones
  // ---------------------------------------------------------------------------------------------

  ghost predicate Finished(g: Graph, L: seq<int>, V: seq<bool>, roots: seq<int>) {
    WellFormed(g) && Settled(g, L, V, roots) && Below(V, g.n)
  }

  lemma {:induction false} ChainKeepsLabel(g: Graph, L: seq<int>, V: seq<bool>, roots: seq<int>, p: seq<int>, i: int,
      j: int)
    requires Finished(g, L, V, roots) && Chain(g, p, i, j)
    ensures L[i] == L[j]
  {
    if |p| > 1 {
      var q := p[..|p| - 1];
      var k := q[|q| - 1];
      assert Chain(g, q, i, k);
      ChainKeepsLabel(g, L, V, roots, q, i, k);
      assert g.near(k, j) && EdgeOk(g, L, V, 0, [], k, j) && EdgeOk(g, L, V, 0, [], j, k);
    }
  }

  /** A core point's cluster was opened by its leader. */
  lemma OpenedByLeader(g: Graph, L: seq<int>, V: seq<bool>, roots: seq<int>, i: int)
    requires Finished(g, L, V, roots) && g.core(i)
    ensures 1 <= L[i] <= |roots| && roots[L[i] - 1] == LeaderOf(g, i)
  {
    var r := LeaderOf(g, i);
    assert PointOk(g, L, V, roots, i) && PointOk(g, L, V, roots, r);
    LinkedSymmetric(g, roots[L[i] - 1], i);
    var p :| Chain(g, p, i, r);
    ChainKeepsLabel(g, L, V, roots, p, i, r);
  }

  lemma RootsBefore(g: Graph, L: seq<int>, V: seq<bool>, roots: seq<int>, c: int)
    requires Finished(g, L, V, roots) && 0 <= c < |roots|
    ensures |LeadersBelow(g, roots[c])| == c
  {
    var first := roots[..c];
    forall x ensures x in LeadersBelow(g, roots[c]) <==> x in first {
      if x in first {
        var d :| 0 <= d < c && first[d] == x;
        assert RootOk(g, L, V, roots, d);
        OpenedByLeader(g, L, V, roots, x);
      }
      if x in LeadersBelow(g, roots[c]) {
        OpenedByLeader(g, L, V, roots, x);
        assert first[L[x] - 1] == x;
      }
    }
    DistinctSize(first, LeadersBelow(g, roots[c]));
  }

  lemma SettledCoreLabel(g: Graph, L: seq<int>, V: seq<bool>, roots: seq<int>, i: int)
    requires Finished(g, L, V, roots) && g.core(i)
    ensures L[i] == Label(g, i)
  {
    OpenedByLeader(g, L, V, roots, i);
    RootsBefore(g, L, V, roots, L[i] - 1);
  }

  lemma SettledLabel(g: Graph, L: seq<int>, V: seq<bool>, roots: seq<int>, i: int)
    requires Finished(g, L, V, roots) && 0 <= i < g.n
    ensures L[i] == Label(g, i)
  {
    if g.core(i) {
      SettledCoreLabel(g, L, V, roots, i);
    } else {
      assert PointOk(g, L, V, roots, i);
      forall j | g.core(j) && g.near(j, i) ensures L[j] == Label(g, j) && 1 <= L[i] <= L[j] {
        SettledCoreLabel(g, L, V, roots, j);
        assert EdgeOk(g, L, V, 0, [], j, i);
      }
      NoiseIffNoCoreNear(g, i);
      if Label(g, i) != -1 {
        BorderTakesSmallest(g, i);
      }
    }
  }

  lemma SettledIsLabelling(g: Graph, L: seq<int>, V: seq<bool>, roots: seq<int>)
    requires Finished(g, L, V, roots)
    ensures L == Labelling(g)
  {
    forall i | 0 <= i < g.n ensures L[i] == Label(g, i) {
      SettledLabel(g, L, V, roots, i);
    }
  }
}

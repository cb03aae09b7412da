/** Updates that may be replayed: folding a list of them twice is folding it once. */
module Replay {
  import opened Seqs

  function FoldAll<S, C>(f: (S, C) -> S, x: S, cs: seq<C>): S {
    if cs == [] then x else var n := |cs| - 1; f(FoldAll(f, x, cs[..n]), cs[n])
  }

  /** An update undoes every earlier occurrence of itself, whatever came between. */
  ghost predicate Overriding<S(!new), C(!new)>(f: (S, C) -> S) {
    && (forall x, c :: f(f(x, c), c) == f(x, c))
    && (forall a, b, c, d :: f(a, c) == f(b, c) ==> f(f(a, d), c) == f(f(b, d), c))
  }

  lemma FoldSnoc<S, C>(f: (S, C) -> S, x: S, cs: seq<C>, c: C)
    ensures FoldAll(f, x, cs + [c]) == f(FoldAll(f, x, cs), c)
  {
    assert (cs + [c])[..|cs|] == cs;
  }

  lemma {:induction false} FoldAppend<S, C>(f: (S, C) -> S, x: S, cs: seq<C>, ds: seq<C>)
    ensures FoldAll(f, x, cs + ds) == FoldAll(f, FoldAll(f, x, cs), ds)
  {
    if ds == [] {
      assert cs + ds == cs;
    } else {
      var n := |ds| - 1;
      var init, d := ds[..n], ds[n];
      assert cs + ds == cs + init + [d];
      FoldAppend(f, x, cs, init);
      FoldSnoc(f, x, cs + init, d);
    }
  }

  lemma {:induction false} LaterOneCounts<S(!new), C(!new)>(f: (S, C) -> S, x: S, c: C, w: seq<C>)
    requires Overriding(f)
    ensures f(FoldAll(f, f(x, c), w), c) == f(FoldAll(f, x, w), c)
  {
    if w != [] {
      var n := |w| - 1;
      LaterOneCounts(f, x, c, w[..n]);
    }
  }

  lemma FoldOne<S, C>(f: (S, C) -> S, x: S, c: C)
    ensures FoldAll(f, x, [c]) == f(x, c)
  {
    assert [c][..0] == [];
  }

  /** Updates that all come again later leave no trace. */
  lemma {:induction false} Covered<S(!new), C(!new)>(f: (S, C) -> S, x: S, u: seq<C>, v: seq<C>)
    requires Overriding(f) && forall c :: c in u ==> c in v
    ensures FoldAll(f, FoldAll(f, x, u), v) == FoldAll(f, x, v)
  {
    if u != [] {
      var c, tail := u[0], u[1..];
      assert u == [c] + tail && forall d :: d in tail ==> d in u;
      assert c in u;
      var i :| 0 <= i < |v| && v[i] == c;
      var before, after := v[..i], v[i + 1..];
      assert v == before + [c] + after;
      FoldOne(f, x, c);
      FoldAppend(f, x, [c], tail);
      OneCovered(f, x, c, tail, before, after);
      Covered(f, x, tail, v);
    }
  }

  lemma OneCovered<S(!new), C(!new)>(f: (S, C) -> S, x: S, c: C, tail: seq<C>, before: seq<C>, after: seq<C>)
    requires Overriding(f)
    ensures FoldAll(f, FoldAll(f, f(x, c), tail), before + [c] + after) ==
            FoldAll(f, FoldAll(f, x, tail), before + [c] + after)
  {
    LaterOneCounts(f, x, c, tail + before);
    UpTo(f, f(x, c), c, tail, before, after);
    UpTo(f, x, c, tail, before, after);
  }

  lemma UpTo<S, C>(f: (S, C) -> S, x: S, c: C, tail: seq<C>, before: seq<C>, after: seq<C>)
    ensures FoldAll(f, FoldAll(f, x, tail), before + [c] + after) ==
            FoldAll(f, f(FoldAll(f, x, tail + before), c), after)
  {
    var y := FoldAll(f, x, tail);
    FoldAppend(f, x, tail, before);
    FoldSnoc(f, y, before, c);
    FoldAppend(f, y, before + [c], after);
  }

  lemma Replays<S(!new), C(!new)>(f: (S, C) -> S, x: S, cs: seq<C>)
    requires Overriding(f)
    ensures FoldAll(f, FoldAll(f, x, cs), cs) == FoldAll(f, x, cs)
  {
    Covered(f, x, cs, cs);
  }
}

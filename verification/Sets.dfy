/** Finite sets, and lists without repeats. */
module Sets {

  ghost function Pick<T>(xs: set<T>): (x: T)
    requires |xs| > 0
    ensures x in xs
  {
    var x :| x in xs; x
  }

  lemma {:induction false} SubsetNoLarger<T>(a: set<T>, b: set<T>)
    requires a <= b
    ensures |a| <= |b|
  {
    if a != {} {
      var x :| x in a;
      SubsetNoLarger(a - {x}, b - {x});
    }
  }

  predicate Distinct<T(==)>(xs: seq<T>) {
    forall a, b :: 0 <= a < b < |xs| ==> xs[a] != xs[b]
  }

  lemma DistinctSnoc<T>(xs: seq<T>, x: T)
    requires Distinct(xs) && x !in xs
    ensures Distinct(xs + [x])
  {
  }

  lemma {:induction false} DistinctSize<T>(xs: seq<T>, all: set<T>)
    requires Distinct(xs) && forall x :: x in all <==> x in xs
    ensures |xs| == |all|
  {
    if xs == [] {
      assert forall x :: x !in all;
    } else {
      var last := xs[|xs| - 1];
      var rest := xs[..|xs| - 1];
      assert xs == rest + [last];
      DistinctSize(rest, all - {last});
    }
  }
}

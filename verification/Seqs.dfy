/** Lists cut and put together. */
module Seqs {

  lemma Regroup<T>(a: seq<T>, b: seq<T>, c: seq<T>)
    ensures a + b + c == a + (b + c)
  {
  }

  lemma SameFront<T>(a: seq<T>, b: seq<T>, c: seq<T>)
    requires a + c == b + c
    ensures a == b
  {
    assert |a + c| == |b + c|;
    assert (a + c)[..|a|] == a && (b + c)[..|b|] == b;
  }

  lemma FrontLeft<T>(a: seq<T>, m: seq<T>, z: seq<T>, all: seq<T>)
    requires a + m + z == all
    ensures |m| + |z| == 0 ==> a == all
    ensures |m| + |z| == |all| ==> a == []
  {
    assert |a + m + z| == |a| + |m| + |z|;
  }
}

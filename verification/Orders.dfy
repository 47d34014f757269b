/** Finite sets: sizes, least elements under an integer rank, and the first few of them. */
module Orders {

  ghost function Any<T>(s: set<T>): (x: T)
    requires s != {}
    ensures x in s
  {
    var x :| x in s;
    x
  }

  lemma Smaller<T>(a: set<T>, b: set<T>)
    requires a <= b
    ensures |a| <= |b|
  {
    assert b == a + (b - a);
  }

  lemma NoneIn<T>(s: set<T>)
    requires forall x :: x !in s
    ensures s == {} && |s| == 0
  {
  }

  lemma EmptyIsNone<T>(s: set<T>)
    requires |s| == 0
    ensures s == {}
  {
  }

  /** A non-empty finite set has an element of least rank. */
  lemma {:induction false} LeastExists<T>(s: set<T>, rank: map<T, int>)
    requires s != {} && s <= rank.Keys
    ensures exists x :: x in s && forall y :: y in s ==> rank[x] <= rank[y]
    decreases |s|
  {
    var a := Any(s);
    var rest := s - {a};
    if rest == {} {
      assert s == {a} + rest;
    } else {
      LeastExists(rest, rank);
      var b :| b in rest && forall y :: y in rest ==> rank[b] <= rank[y];
      var best := if rank[a] <= rank[b] then a else b;
      assert best in s && forall y :: y in s ==> y == a || y in rest;
    }
  }

  /** What ORDER BY rank LIMIT limit leaves of `all`: the least ones, each once, in order. */
  ghost predicate IsBatch<T>(batch: seq<T>, all: set<T>, rank: map<T, int>, limit: nat)
    requires all <= rank.Keys
  {
    |batch| <= limit &&
    (forall i :: 0 <= i < |batch| ==> batch[i] in all) &&
    (forall i, j :: 0 <= i < j < |batch| ==> batch[i] != batch[j] && rank[batch[i]] <= rank[batch[j]]) &&
    (forall i, x :: 0 <= i < |batch| && x in all && x !in batch ==> rank[batch[i]] <= rank[x]) &&
    (|batch| < limit ==> forall x :: x in all ==> x in batch)
  }

  method Batch<T(==)>(all: set<T>, rank: map<T, int>, limit: nat) returns (batch: seq<T>)
    requires all <= rank.Keys
    ensures IsBatch(batch, all, rank, limit)
  {
    var rest := all;
    batch := [];
    while |batch| < limit && rest != {}
      invariant |batch| <= limit && rest <= all
      invariant forall x :: x in all ==> (x in rest <==> x !in batch)
      invariant forall i :: 0 <= i < |batch| ==> batch[i] in all
      invariant forall i, j :: 0 <= i < j < |batch| ==> batch[i] != batch[j] && rank[batch[i]] <= rank[batch[j]]
      invariant forall i, x :: 0 <= i < |batch| && x in rest ==> rank[batch[i]] <= rank[x]
      decreases |rest|
    {
      LeastExists(rest, rank);
      var first :| first in rest && forall x :: x in rest ==> rank[first] <= rank[x];
      batch := batch + [first];
      rest := rest - {first};
    }
  }
}

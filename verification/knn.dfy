/** An exact k-nearest-neighbour search by squared Euclidean distance over
    integer vectors. It stands in for the flat L2 index the store delegates to:
    `Nearest` returns exactly `k` hits, nearest first, ties broken by insertion
    order, and pads with index -1 when the index holds fewer than `k` vectors. */
module Knn {
  import opened Text

  type Vector = seq<int>

  /** One column of the index's answer: a position in the index and its
      squared distance to the query. */
  datatype Hit = Hit(index: int, distance: int)

  /** The label the index reports for a slot it has no vector for. */
  const NoIndex: int := -1

  /** Squared Euclidean distance. */
  function SqDist(a: Vector, b: Vector): (d: nat)
    requires |a| == |b|
    ensures d == 0 <==> a == b
  {
    if |a| == 0 then 0
    else
      var rest := SqDist(a[1..], b[1..]);
      assert a == [a[0]] + a[1..] && b == [b[0]] + b[1..];
      var dx := a[0] - b[0];
      SquareZero(dx);
      dx * dx + rest
  }

  /** A square is never negative, and zero only for zero. */
  lemma SquareZero(x: int)
    ensures x * x >= 0 && (x * x == 0 <==> x == 0)
  {
    if x > 0 {
      assert x * x >= x;
    } else if x < 0 {
      assert x * x == (-x) * (-x);
      assert (-x) * (-x) >= -x;
    }
  }

  /** The strict ranking order: nearer first, equal distances by lower index. */
  predicate Before(x: Hit, y: Hit) {
    x.distance < y.distance || (x.distance == y.distance && x.index < y.index)
  }

  predicate Ranked(s: seq<Hit>) {
    forall i, j :: 0 <= i < j < |s| ==> Before(s[i], s[j])
  }

  predicate DistinctIndices(s: seq<Hit>) {
    forall i, j :: 0 <= i < j < |s| ==> s[i].index != s[j].index
  }

  /** Puts `x` into its place in a ranked sequence. */
  function Insert(x: Hit, s: seq<Hit>): (r: seq<Hit>)
    requires Ranked(s)
    requires forall y :: y in s ==> y.index != x.index
    ensures Ranked(r) && |r| == |s| + 1
    ensures forall y :: y in r <==> y == x || y in s
  {
    if |s| == 0 then [x]
    else if Before(x, s[0]) then [x] + s
    else
      var rest := Insert(x, s[1..]);
      assert forall y :: y in rest ==> Before(s[0], y);
      [s[0]] + rest
  }

  /** Ranks hits with distinct indices, nearest first. */
  function Rank(hs: seq<Hit>): (r: seq<Hit>)
    requires DistinctIndices(hs)
    ensures Ranked(r) && |r| == |hs|
    ensures forall y :: y in r <==> y in hs
  {
    if |hs| == 0 then []
    else
      var rest := Rank(hs[1..]);
      assert forall y :: y in rest ==> y.index != hs[0].index;
      Insert(hs[0], rest)
  }

  predicate SameDim(vectors: seq<Vector>, query: Vector) {
    forall i :: 0 <= i < |vectors| ==> |vectors[i]| == |query|
  }

  /** Every stored vector as a hit, in insertion order. */
  function Candidates(vectors: seq<Vector>, query: Vector): (r: seq<Hit>)
    requires SameDim(vectors, query)
    ensures |r| == |vectors|
    ensures forall i :: 0 <= i < |r| ==> r[i] == Hit(i, SqDist(vectors[i], query))
  {
    seq(|vectors|, i requires 0 <= i < |vectors| => Hit(i, SqDist(vectors[i], query)))
  }

  /** The index's answer to a search for the `k` nearest vectors. */
  function Nearest(vectors: seq<Vector>, query: Vector, k: int): (r: seq<Hit>)
    requires SameDim(vectors, query) && k >= 1
    ensures |r| == k
    ensures forall i :: 0 <= i < |r| && i < |vectors| ==>
              0 <= r[i].index < |vectors| && r[i].distance == SqDist(vectors[r[i].index], query)
    ensures forall i :: 0 <= i < |r| && i >= |vectors| ==> r[i].index == NoIndex
    ensures Ranked(r[..Min(k, |vectors|)])
  {
    var ranked := Rank(Candidates(vectors, query));
    assert forall i :: 0 <= i < |ranked| ==> ranked[i] in Candidates(vectors, query);
    if k <= |ranked| then ranked[..k]
    else ranked + seq(k - |ranked|, _ => Hit(NoIndex, 0))
  }

  /** Exactness: a stored vector the answer leaves out is ranked after every
      vector it includes. */
  lemma NearestIsExact(vectors: seq<Vector>, query: Vector, k: int, j: int)
    requires SameDim(vectors, query) && k >= 1
    requires 0 <= j < |vectors|
    requires forall i :: 0 <= i < Min(k, |vectors|) ==> Nearest(vectors, query, k)[i].index != j
    ensures forall i :: 0 <= i < Min(k, |vectors|) ==>
              Before(Nearest(vectors, query, k)[i], Hit(j, SqDist(vectors[j], query)))
  {
    var cands := Candidates(vectors, query);
    var ranked := Rank(cands);
    var r := Nearest(vectors, query, k);
    assert cands[j] in ranked;
    var p :| 0 <= p < |ranked| && ranked[p] == cands[j];
    assert forall i :: 0 <= i < Min(k, |vectors|) ==> r[i] == ranked[i];
    assert p >= Min(k, |vectors|);
  }
}

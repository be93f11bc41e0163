/** The vector store (`VectorStore`): an index of fixed-dimension vectors with
    an order-aligned list of metadata entries, grown only by appending, and a
    search that turns the index's answer into copies of the matching metadata
    with the distance attached. The store is generic in the metadata type. */
module VectorIndex {
  import opened Wrappers
  import opened Text
  import opened Knn

  datatype StoreError =
    | DimensionMismatch  // a vector whose length is not the index's dimension
    | InvalidTopK        // the index refuses a search for fewer than one neighbour
    | MissingMetadata    // an index hit with no metadata entry at that position

  datatype Store<M> = Store(dim: nat, vectors: seq<Vector>, metadata: seq<M>, isTrained: bool)

  /** A search result: a copy of the metadata entry plus the hit's distance. */
  datatype Retrieved<M> = Retrieved(meta: M, distance: int)

  /** Every stored vector has the store's dimension (the index enforces this). */
  predicate WellShaped<M>(s: Store<M>) {
    forall i :: 0 <= i < |s.vectors| ==> |s.vectors[i]| == s.dim
  }

  /** Position `i` of the vectors and of the metadata describe the same record. */
  predicate Aligned<M>(s: Store<M>) {
    |s.vectors| == |s.metadata|
  }

  predicate HasDim(embeddings: seq<Vector>, dim: nat) {
    forall i :: 0 <= i < |embeddings| ==> |embeddings[i]| == dim
  }

  /** `VectorStore(dim)`: an empty index of dimension `dim`, not yet trained. */
  function NewStore<M>(dim: nat): (s: Store<M>)
    ensures s.dim == dim && s.vectors == [] && s.metadata == [] && !s.isTrained
    ensures WellShaped(s) && Aligned(s)
  {
    Store(dim, [], [], false)
  }

  /** `add_embeddings`: the index refuses vectors of the wrong dimension;
      otherwise vectors and metadata are appended in order and the store is
      marked trained. The lengths of the two batches are not compared. */
  function AddEmbeddings<M>(s: Store<M>, embeddings: seq<Vector>, metadata: seq<M>): (r: Result<Store<M>, StoreError>)
    ensures r.Success? <==> HasDim(embeddings, s.dim)
    ensures r.Success? ==>
              && r.value.dim == s.dim
              && r.value.isTrained
              && |r.value.vectors| == |s.vectors| + |embeddings|
              && |r.value.metadata| == |s.metadata| + |metadata|
              && r.value.vectors[..|s.vectors|] == s.vectors
              && r.value.vectors[|s.vectors|..] == embeddings
              && r.value.metadata[..|s.metadata|] == s.metadata
              && r.value.metadata[|s.metadata|..] == metadata
    ensures r.Success? && WellShaped(s) ==> WellShaped(r.value)
    ensures r.Success? && Aligned(s) ==> (Aligned(r.value) <==> |embeddings| == |metadata|)
  {
    if !HasDim(embeddings, s.dim) then Failure(DimensionMismatch)
    else Success(Store(s.dim, s.vectors + embeddings, s.metadata + metadata, true))
  }

  /** The skipping half of the loop over the index's answer: the hits that
      name a stored vector, in the index's order (`ValidHitsMembers` says
      which they are). */
  function ValidHits(hits: seq<Hit>): (v: seq<Hit>)
    requires forall i :: 0 <= i < |hits| ==> hits[i].index >= NoIndex
    ensures |v| <= |hits|
    ensures forall i :: 0 <= i < |v| ==> v[i].index >= 0
  {
    if |hits| == 0 then []
    else if hits[0].index == NoIndex then ValidHits(hits[1..])
    else [hits[0]] + ValidHits(hits[1..])
  }

  /** The valid hits are exactly the hits not labelled -1. */
  lemma {:induction false} ValidHitsMembers(hits: seq<Hit>)
    requires forall i :: 0 <= i < |hits| ==> hits[i].index >= NoIndex
    ensures forall h :: h in ValidHits(hits) <==> h in hits && h.index != NoIndex
  {
    if |hits| > 0 {
      ValidHitsMembers(hits[1..]);
      assert hits == [hits[0]] + hits[1..];
    }
  }

  /** The skipping keeps the index's order and every repetition: filtering a
      concatenation filters each part. */
  lemma {:induction false} ValidHitsAppend(hits: seq<Hit>, more: seq<Hit>)
    requires forall i :: 0 <= i < |hits| ==> hits[i].index >= NoIndex
    requires forall i :: 0 <= i < |more| ==> more[i].index >= NoIndex
    ensures ValidHits(hits + more) == ValidHits(hits) + ValidHits(more)
  {
    var all := hits + more;
    if |hits| == 0 {
      assert all == more;
    } else {
      assert all[0] == hits[0];
      assert all[1..] == hits[1..] + more;
      ValidHitsAppend(hits[1..], more);
      var front := ValidHits(hits[1..]);
      var back := ValidHits(more);
      assert ValidHits(all[1..]) == front + back;
      if hits[0].index != NoIndex {
        assert ValidHits(all) == [hits[0]] + (front + back);
        assert ValidHits(hits) == [hits[0]] + front;
        assert [hits[0]] + (front + back) == ([hits[0]] + front) + back;
      }
    }
  }

  /** A single hit is kept exactly when it is not labelled -1. */
  lemma ValidHitsSingle(h: Hit)
    requires h.index >= NoIndex
    ensures ValidHits([h]) == (if h.index == NoIndex then [] else [h])
  {
    assert [h][1..] == [];
  }

  /** The copying half of the loop over the index's answer: the metadata
      entry each valid hit names, copied, with the hit's distance attached, in
      hit order; a label with no metadata entry is an error. */
  function Lookup<M>(metadata: seq<M>, v: seq<Hit>): (r: Result<seq<Retrieved<M>>, StoreError>)
    requires forall i :: 0 <= i < |v| ==> v[i].index >= 0
    ensures r.Success? <==> forall i :: 0 <= i < |v| ==> v[i].index < |metadata|
    ensures r.Success? ==>
              |r.value| == |v|
              && forall i :: 0 <= i < |v| ==> r.value[i] == Retrieved(metadata[v[i].index], v[i].distance)
  {
    if |v| == 0 then Success([])
    else if v[0].index >= |metadata| then Failure(MissingMetadata)
    else
      var rest := Lookup(metadata, v[1..]);
      if rest.Failure? then
        assert exists i :: 1 <= i < |v| && v[i].index >= |metadata|;
        rest
      else Success([Retrieved(metadata[v[0].index], v[0].distance)] + rest.value)
  }

  /** `search(query, top_k)`. */
  function Search<M>(s: Store<M>, query: Vector, topK: int): (r: Result<seq<Retrieved<M>>, StoreError>)
    requires WellShaped(s)
    ensures topK < 1 ==> r == Failure(InvalidTopK)
    ensures topK >= 1 && |query| != s.dim ==> r == Failure(DimensionMismatch)
    ensures r.Success? ==> |r.value| <= topK
    ensures r.Success? ==> forall i :: 0 <= i < |r.value| ==> r.value[i].meta in s.metadata
    ensures r.Success? ==> forall i, j :: 0 <= i < j < |r.value| ==> r.value[i].distance <= r.value[j].distance
    ensures topK >= 1 && |query| == s.dim && Aligned(s) ==>
              r.Success? && |r.value| == Min(topK, |s.vectors|)
  {
    if topK < 1 then Failure(InvalidTopK)
    else if |query| != s.dim then Failure(DimensionMismatch)
    else
      var hits := Nearest(s.vectors, query, topK);
      var m := Min(topK, |s.vectors|);
      ValidPrefix(hits, m);
      Lookup(s.metadata, ValidHits(hits))
  }

  /** When the first `m` hits are valid and the rest are -1, the valid hits
      are exactly the first `m`. */
  lemma {:induction false} ValidPrefix(hits: seq<Hit>, m: nat)
    requires m <= |hits|
    requires forall i :: 0 <= i < m ==> hits[i].index >= 0
    requires forall i :: m <= i < |hits| ==> hits[i].index == NoIndex
    ensures ValidHits(hits) == hits[..m]
  {
    if |hits| > 0 {
      if m == 0 {
        ValidPrefix(hits[1..], 0);
      } else {
        ValidPrefix(hits[1..], m - 1);
        assert hits[..m] == [hits[0]] + hits[1..][..m - 1];
      }
    }
  }

  /** On an aligned store, result `i` is the metadata entry at the index's
      `i`-th nearest position, carrying that vector's squared distance. */
  lemma SearchReturnsNearest<M>(s: Store<M>, query: Vector, topK: int)
    requires WellShaped(s) && Aligned(s)
    requires topK >= 1 && |query| == s.dim
    ensures var r := Search(s, query, topK);
            var hits := Nearest(s.vectors, query, topK);
            r.Success?
            && forall i :: 0 <= i < |r.value| ==>
                 0 <= hits[i].index < |s.metadata|
                 && r.value[i] == Retrieved(s.metadata[hits[i].index], hits[i].distance)
                 && r.value[i].distance == SqDist(s.vectors[hits[i].index], query)
  {
    var hits := Nearest(s.vectors, query, topK);
    ValidPrefix(hits, Min(topK, |s.vectors|));
  }

  /** Searching a freshly created index gives no results and no error. */
  lemma FreshStoreSearchesEmpty<M>(dim: nat, query: Vector, topK: int)
    requires topK >= 1 && |query| == dim
    ensures Search(NewStore<M>(dim), query, topK) == Success([])
  {
  }

  /** A new store is untrained; the first successful add trains it. */
  lemma FirstAddTrains<M>(dim: nat, embeddings: seq<Vector>, metadata: seq<M>)
    ensures !NewStore<M>(dim).isTrained
    ensures HasDim(embeddings, dim) ==> AddEmbeddings(NewStore<M>(dim), embeddings, metadata).value.isTrained
  {
  }

  /** Three records at Euclidean distances 1, 5 and 10 from the query: a search
      for two returns the first two, nearest first, with squared distances. */
  lemma RankingExample(s: Store<string>, query: Vector)
    requires s == Store(2, [[1, 0], [0, 5], [10, 0]], ["near", "middle", "far"], true)
    requires query == [0, 0]
    ensures Search(s, query, 2) == Success([Retrieved("near", 1), Retrieved("middle", 25)])
  {
    ExampleHits();
    ExampleCollect();
  }

  lemma ExampleCollect()
    ensures Lookup(["near", "middle", "far"], [Hit(0, 1), Hit(1, 25)])
            == Success([Retrieved("near", 1), Retrieved("middle", 25)])
  {
    var md := ["near", "middle", "far"];
    assert [Hit(1, 25)][1..] == [];
    assert Lookup(md, []) == Success([]);
    assert md[1] == "middle" && |md| == 3;
    assert [Retrieved("middle", 25)] + [] == [Retrieved("middle", 25)];
    assert Lookup(md, [Hit(1, 25)]) == Success([Retrieved("middle", 25)]);
    assert [Hit(0, 1), Hit(1, 25)][1..] == [Hit(1, 25)];
    assert [Retrieved("near", 1)] + [Retrieved("middle", 25)] == [Retrieved("near", 1), Retrieved("middle", 25)];
  }

  lemma ExampleHits()
    ensures Nearest([[1, 0], [0, 5], [10, 0]], [0, 0], 2) == [Hit(0, 1), Hit(1, 25)]
  {
    ExampleCandidates();
    var cands := [Hit(0, 1), Hit(1, 25), Hit(2, 100)];
    assert cands[1..][1..] == [Hit(2, 100)];
    assert Rank([Hit(2, 100)]) == [Hit(2, 100)];
    assert Insert(Hit(1, 25), [Hit(2, 100)]) == [Hit(1, 25), Hit(2, 100)];
    assert Rank(cands[1..]) == [Hit(1, 25), Hit(2, 100)];
    assert Insert(Hit(0, 1), [Hit(1, 25), Hit(2, 100)]) == cands;
  }

  lemma ExampleCandidates()
    ensures Candidates([[1, 0], [0, 5], [10, 0]], [0, 0]) == [Hit(0, 1), Hit(1, 25), Hit(2, 100)]
  {
    assert SqDist([1, 0], [0, 0]) == 1;
    assert SqDist([0, 5], [0, 0]) == 25;
    assert SqDist([10, 0], [0, 0]) == 100;
  }
}

/**
 * The vector store: a flat inner-product index over embeddings, a list of
 * page records kept position by position beside it, and a map from keys to
 * positions that makes `Add` an upsert.
 */
module VectorIndex {
  import opened Optional
  import opened PyText
  import opened Schemas
  import opened Seqs

  /**
   * The similarity of the flat index: the inner product of two vectors.
   * Embeddings are expected to be unit-length, which makes it the cosine.
   */
  function Dot(u: Vector, v: Vector): (r: real)
    ensures u == v ==> r >= 0.0
    decreases |u|
  {
    if u == [] || v == [] then 0.0 else u[0] * v[0] + Dot(u[1..], v[1..])
  }

  /** `max(0, min(d, 1.0))`: the similarity reported as a score. */
  function Clamp(d: real): (r: real)
    ensures 0.0 <= r <= 1.0
    ensures 0.0 <= d <= 1.0 ==> r == d
    ensures d < 0.0 ==> r == 0.0
    ensures 1.0 < d ==> r == 1.0
  {
    if d < 0.0 then 0.0 else if d > 1.0 then 1.0 else d
  }

  /** `{page.url: i for i, page in enumerate(pages)}` */
  function IndexByUrl(pages: seq<StoredPage>): (m: map<string, nat>)
    ensures forall u :: u in m ==> m[u] < |pages|
    ensures forall i :: 0 <= i < |pages| ==> pages[i].url in m
  {
    if pages == [] then map[]
    else IndexByUrl(pages[..|pages| - 1])[pages[|pages| - 1].url := |pages| - 1]
  }

  /**
   * The rebuilt key map holds every url of the records, and maps each to
   * the last position that carries it.
   */
  lemma {:induction false} IndexByUrlCorrect(pages: seq<StoredPage>)
    ensures var m := IndexByUrl(pages);
      && (forall i :: 0 <= i < |pages| ==> pages[i].url in m)
      && forall u :: u in m ==>
           && m[u] < |pages| && pages[m[u]].url == u
           && forall j :: m[u] < j < |pages| ==> pages[j].url != u
  {
    if pages != [] {
      var n := |pages| - 1;
      var init := pages[..n];
      IndexByUrlCorrect(init);
      var m0 := IndexByUrl(init);
      var m := IndexByUrl(pages);
      assert m == m0[pages[n].url := n];
      forall u | u in m
        ensures m[u] < |pages| && pages[m[u]].url == u
        ensures forall j :: m[u] < j < |pages| ==> pages[j].url != u
      {
        if u != pages[n].url {
          assert m[u] == m0[u] && pages[m0[u]] == init[m0[u]];
          forall j | m[u] < j < |pages|
            ensures pages[j].url != u
          {
            if j < n { assert pages[j] == init[j]; }
          }
        }
      }
    }
  }

  predicate Distinct(s: seq<nat>) {
    forall i, j :: 0 <= i < j < |s| ==> s[i] != s[j]
  }

  /** Among `n` positions, fewer than `n` distinct ones leave one out. */
  lemma {:induction false} Unselected(hits: seq<nat>, n: nat)
    requires |hits| < n && Distinct(hits)
    requires forall i :: 0 <= i < |hits| ==> hits[i] < n
    ensures exists p :: 0 <= p < n && p !in hits
  {
    if n - 1 in hits {
      var j :| 0 <= j < |hits| && hits[j] == n - 1;
      var rest := hits[..j] + hits[j + 1..];
      assert forall i :: 0 <= i < |rest| ==> rest[i] == if i < j then hits[i] else hits[i + 1];
      Unselected(rest, n - 1);
      var p :| 0 <= p < n - 1 && p !in rest;
      assert p !in hits;
    }
  }

  /**
   * `positions` is a top list of the index for `query` among the positions
   * below `bound`: distinct positions in descending similarity, none of the
   * positions left out scoring above any listed one.
   */
  ghost predicate TopList(vectors: seq<Vector>, query: Vector, positions: seq<nat>, bound: nat) {
    && Distinct(positions)
    && (forall i :: 0 <= i < |positions| ==> positions[i] < bound && positions[i] < |vectors|)
    && (forall i, j :: 0 <= i < j < |positions| ==>
          Dot(vectors[positions[i]], query) >= Dot(vectors[positions[j]], query))
    && (forall p, i :: 0 <= p < bound && p < |vectors| && p !in positions && 0 <= i < |positions| ==>
          Dot(vectors[p], query) <= Dot(vectors[positions[i]], query))
  }

  /**
   * One round of the brute-force search: the most similar position not yet
   * chosen, the lowest one among equals.
   */
  method BestUnselected(vectors: seq<Vector>, query: Vector, chosen: seq<nat>) returns (best: nat)
    requires exists p :: 0 <= p < |vectors| && p !in chosen
    ensures best < |vectors| && best !in chosen
    ensures forall p :: 0 <= p < |vectors| && p !in chosen ==> Dot(vectors[p], query) <= Dot(vectors[best], query)
    ensures forall p :: 0 <= p < best && p !in chosen ==> Dot(vectors[p], query) < Dot(vectors[best], query)
  {
    var found := -1;
    var p := 0;
    while p < |vectors|
      invariant 0 <= p <= |vectors|
      invariant found == -1 ==> forall p' :: 0 <= p' < p ==> p' in chosen
      invariant found != -1 ==> 0 <= found < p && found !in chosen
      invariant found != -1 ==> forall p' :: 0 <= p' < p && p' !in chosen ==>
        Dot(vectors[p'], query) <= Dot(vectors[found], query)
      invariant found != -1 ==> forall p' :: 0 <= p' < found && p' !in chosen ==>
        Dot(vectors[p'], query) < Dot(vectors[found], query)
    {
      if p !in chosen && (found == -1 || Dot(vectors[p], query) > Dot(vectors[found], query)) {
        found := p;
      }
      p := p + 1;
    }
    best := found;
  }

  /**
   * Brute-force top-k of the flat inner-product index: `k` positions
   * forming a top list over all stored vectors.
   */
  method TopPositions(vectors: seq<Vector>, query: Vector, k: nat) returns (hits: seq<nat>)
    requires k <= |vectors|
    ensures |hits| == k && TopList(vectors, query, hits, |vectors|)
  {
    hits := [];
    while |hits| < k
      invariant |hits| <= k && TopList(vectors, query, hits, |vectors|)
      decreases k - |hits|
    {
      Unselected(hits, |vectors|);
      var best := BestUnselected(vectors, query, hits);
      hits := hits + [best];
    }
  }

  /** The hit reported for a stored record and its vector: the record's fields and the clamped similarity. */
  function Hit(page: StoredPage, v: Vector, query: Vector): (r: SearchResult)
    ensures r.url == page.url && r.title == page.title && r.content == page.content && r.timestamp == page.timestamp
    ensures 0.0 <= r.score <= 1.0
  {
    SearchResult(page.url, page.title, page.content, Clamp(Dot(v, query)), page.timestamp)
  }

  /** The positions of `hits` below `n`, in order: those the records reach. */
  function Kept(hits: seq<nat>, n: nat): (ps: seq<nat>)
    ensures |ps| <= |hits|
    ensures forall a :: 0 <= a < |ps| ==> ps[a] < n && ps[a] in hits
  {
    if hits == [] then []
    else Kept(hits[..|hits| - 1], n) + if hits[|hits| - 1] < n then [hits[|hits| - 1]] else []
  }

  /** The hits reported for `positions`, one per position. */
  function HitsAt(metadata: seq<StoredPage>, vectors: seq<Vector>, positions: seq<nat>, query: Vector): (rs: seq<SearchResult>)
    requires forall a :: 0 <= a < |positions| ==> positions[a] < |metadata| && positions[a] < |vectors|
    ensures |rs| == |positions|
    ensures forall a :: 0 <= a < |rs| ==> rs[a] == Hit(metadata[positions[a]], vectors[positions[a]], query)
  {
    seq(|positions|, a requires 0 <= a < |positions| => Hit(metadata[positions[a]], vectors[positions[a]], query))
  }

  /** Keeping the positions below `n` drops none of them, and keeps all when all are below `n`. */
  lemma {:induction false} KeptMembers(hits: seq<nat>, n: nat)
    ensures forall j :: 0 <= j < |hits| && hits[j] < n ==> hits[j] in Kept(hits, n)
    ensures (forall j :: 0 <= j < |hits| ==> hits[j] < n) ==> Kept(hits, n) == hits
  {
    if hits != [] {
      var init := hits[..|hits| - 1];
      KeptMembers(init, n);
      InitLast(hits);
    }
  }

  /** Keeping positions of distinct hits, in descending similarity, keeps them distinct and descending. */
  lemma {:induction false} KeptOrdered(hits: seq<nat>, n: nat, vectors: seq<Vector>, query: Vector)
    requires Distinct(hits) && forall i :: 0 <= i < |hits| ==> hits[i] < |vectors|
    requires forall i, j :: 0 <= i < j < |hits| ==> Dot(vectors[hits[i]], query) >= Dot(vectors[hits[j]], query)
    ensures Distinct(Kept(hits, n))
    ensures forall a, b :: 0 <= a < b < |Kept(hits, n)| ==>
      Dot(vectors[Kept(hits, n)[a]], query) >= Dot(vectors[Kept(hits, n)[b]], query)
  {
    if hits != [] {
      var init := hits[..|hits| - 1];
      var last := hits[|hits| - 1];
      KeptOrdered(init, n, vectors, query);
      var k := Kept(init, n);
      if last < n {
        forall a | 0 <= a < |k|
          ensures k[a] != last && Dot(vectors[k[a]], query) >= Dot(vectors[last], query)
        {
          var j :| 0 <= j < |init| && init[j] == k[a];
          assert hits[j] == k[a];
        }
        OrderedPush(k, last, vectors, query);
      }
    }
  }

  /** A position no more similar than, and distinct from, all of a descending list may follow it. */
  lemma OrderedPush(k: seq<nat>, last: nat, vectors: seq<Vector>, query: Vector)
    requires last < |vectors| && forall a :: 0 <= a < |k| ==> k[a] < |vectors|
    requires Distinct(k)
    requires forall a, b :: 0 <= a < b < |k| ==> Dot(vectors[k[a]], query) >= Dot(vectors[k[b]], query)
    requires forall a :: 0 <= a < |k| ==> k[a] != last && Dot(vectors[k[a]], query) >= Dot(vectors[last], query)
    ensures Distinct(k + [last])
    ensures forall a, b :: 0 <= a < b < |k + [last]| ==>
      Dot(vectors[(k + [last])[a]], query) >= Dot(vectors[(k + [last])[b]], query)
  {
    var r := k + [last];
    assert forall a :: 0 <= a < |k| ==> r[a] == k[a];
  }

  /** The positions of a top list that have records form a top list among the recorded positions. */
  lemma KeptTopList(hits: seq<nat>, n: nat, vectors: seq<Vector>, query: Vector)
    requires TopList(vectors, query, hits, |vectors|)
    ensures TopList(vectors, query, Kept(hits, n), n)
    ensures |vectors| <= n ==> Kept(hits, n) == hits
  {
    KeptMembers(hits, n);
    KeptOrdered(hits, n, vectors, query);
  }

  /**
   * The loop of `VectorStore.search` over the positions the index returned:
   * the hit of every position that has a record, in order.
   */
  method CollectHits(metadata: seq<StoredPage>, vectors: seq<Vector>, hits: seq<nat>, query: Vector)
    returns (found: seq<SearchResult>)
    requires forall i :: 0 <= i < |hits| ==> hits[i] < |vectors|
    ensures found == HitsAt(metadata, vectors, Kept(hits, |metadata|), query)
  {
    found := [];
    var i := 0;
    while i < |hits|
      invariant 0 <= i <= |hits|
      invariant found == HitsAt(metadata, vectors, Kept(hits[..i], |metadata|), query)
    {
      assert hits[..i + 1][..i] == hits[..i];
      if hits[i] < |metadata| {
        found := found + [Hit(metadata[hits[i]], vectors[hits[i]], query)];
      }
      i := i + 1;
    }
    assert hits[..i] == hits;
  }

  class VectorStore {
    /** The dimension the index was created with. */
    const dimension: nat
    /** The stored vectors of the flat index, by position. */
    var vectors: seq<Vector>
    /** The page record of every position. */
    var metadata: seq<StoredPage>
    /** Key of every stored entry to its position. */
    var urlToIdx: map<string, nat>

    /** Keys point into the records, and no two keys share a position. */
    ghost predicate Valid()
      reads this
    {
      && (forall k :: k in urlToIdx ==> urlToIdx[k] < |metadata|)
      && (forall k, k' :: k in urlToIdx && k' in urlToIdx && k != k' ==> urlToIdx[k] != urlToIdx[k'])
    }

    /** One record per vector. `Add` keeps this; a failed load of the index file alone breaks it. */
    ghost predicate Aligned()
      reads this
    {
      |vectors| == |metadata|
    }

    /**
     * `VectorStore.__init__` with `_load_or_create`: each of the two files
     * is given as its content, or None when it is missing or cannot be read,
     * and each falls back to empty on its own. The key map is rebuilt from
     * the records' urls.
     */
    constructor Load(dimension: nat, indexFile: Option<seq<Vector>>, metadataFile: Option<seq<StoredPage>>)
      ensures Valid()
      ensures this.dimension == dimension
      ensures vectors == if indexFile.Some? then indexFile.value else []
      ensures metadata == if metadataFile.Some? then metadataFile.value else []
      ensures urlToIdx == if metadataFile.Some? then IndexByUrl(metadataFile.value) else map[]
    {
      this.dimension := dimension;
      vectors := if indexFile.Some? then indexFile.value else [];
      metadata := if metadataFile.Some? then metadataFile.value else [];
      urlToIdx := if metadataFile.Some? then IndexByUrl(metadataFile.value) else map[];
      if metadataFile.Some? {
        IndexByUrlCorrect(metadataFile.value);
      }
    }

    /**
     * `VectorStore.add`, an upsert. A known key gets its record replaced in
     * place and the new embedding is ignored; a new key appends one vector and
     * one record and maps to the new last position. The result is the number
     * of records afterwards, or None where the index rejects an embedding of
     * the wrong dimension (only on the append path, which is the only one
     * that touches the index).
     */
    method Add(key: string, embedding: Vector, page: StoredPage) returns (count: Option<nat>)
      requires Valid()
      modifies this
      ensures Valid()
      ensures key in old(urlToIdx) ==>
        && count == Some(|metadata|)
        && metadata == old(metadata)[old(urlToIdx)[key] := page]
        && vectors == old(vectors) && urlToIdx == old(urlToIdx)
      ensures key !in old(urlToIdx) && |embedding| != dimension ==>
        && count == None
        && metadata == old(metadata) && vectors == old(vectors) && urlToIdx == old(urlToIdx)
      ensures key !in old(urlToIdx) && |embedding| == dimension ==>
        && count == Some(|metadata|)
        && metadata == old(metadata) + [page]
        && vectors == old(vectors) + [embedding]
        && urlToIdx == old(urlToIdx)[key := |old(metadata)|]
      ensures old(Aligned()) ==> Aligned()
    {
      if key in urlToIdx {
        var idx := urlToIdx[key];
        metadata := metadata[idx := page];
      } else {
        if |embedding| != dimension {
          return None;
        }
        vectors := vectors + [embedding];
        metadata := metadata + [page];
        urlToIdx := urlToIdx[key := |metadata| - 1];
      }
      count := Some(|metadata|);
    }

    /**
     * `VectorStore.search`: the best `min(topK, |metadata|)` positions of
     * the index, in descending similarity, each reported with its record;
     * positions the index returns without a record are dropped. None where
     * the index rejects a query of the wrong dimension.
     */
    method Search(query: Vector, topK: int := DefaultTopK) returns (results: Option<seq<SearchResult>>, ghost positions: seq<nat>)
      requires Valid() && 1 <= topK
      ensures |metadata| == 0 ==> results == Some([])
      ensures |metadata| > 0 ==> (results.None? <==> |query| != dimension)
      ensures results.Some? ==>
        && |positions| <= Min(topK, |metadata|)
        && TopList(vectors, query, positions, |metadata|)
        && results.value == HitsAt(metadata, vectors, positions, query)
      ensures results.Some? && Aligned() ==> |positions| == Min(topK, |metadata|)
    {
      positions := [];
      if |metadata| == 0 {
        return Some([]), positions;
      }
      if |query| != dimension {
        return None, positions;
      }
      var k := Min(topK, |metadata|);
      var hits := TopPositions(vectors, query, Min(k, |vectors|));
      KeptTopList(hits, |metadata|, vectors, query);
      positions := Kept(hits, |metadata|);
      var found := CollectHits(metadata, vectors, hits, query);
      results := Some(found);
    }
  }

  /** Adding under a key that is already stored replaces its record: the store keeps one. */
  method AddTwiceKeepsOneRecord(dimension: nat, key: string, first: Vector, second: Vector, older: StoredPage, newer: StoredPage)
    returns (counts: seq<Option<nat>>, records: seq<StoredPage>, stored: seq<Vector>)
    requires |first| == dimension
    ensures counts == [Some(1), Some(1)]
    ensures records == [newer] && stored == [first]
  {
    var store := new VectorStore.Load(dimension, None, None);
    var c1 := store.Add(key, first, older);
    var c2 := store.Add(key, second, newer);
    counts := [c1, c2];
    records := store.metadata;
    stored := store.vectors;
  }

  /**
   * A position strictly more similar to the query than every other position
   * below `bound` heads every non-empty top list.
   */
  lemma StrictBestIsTop(vectors: seq<Vector>, query: Vector, positions: seq<nat>, bound: nat, best: nat)
    requires TopList(vectors, query, positions, bound) && |positions| >= 1
    requires best < bound && best < |vectors|
    requires forall p :: 0 <= p < bound && p < |vectors| && p != best ==> Dot(vectors[p], query) < Dot(vectors[best], query)
    ensures positions[0] == best
  {
    if best !in positions {
      assert false;
    } else if positions[0] != best {
      assert false;
    }
  }

  /**
   * Three entries stored under three keys; a query strictly closest to the
   * second entry's vector returns that entry alone when one result is
   * asked for.
   */
  method NearestOfThree(a: StoredPage, b: StoredPage, c: StoredPage, x: Vector, y: Vector, z: Vector, query: Vector)
    returns (results: Option<seq<SearchResult>>)
    requires a.url != b.url && b.url != c.url && a.url != c.url
    requires |x| == |y| == |z| == |query|
    requires Dot(x, query) < Dot(y, query) && Dot(z, query) < Dot(y, query)
    ensures results == Some([Hit(b, y, query)])
  {
    var store := new VectorStore.Load(|query|, None, None);
    var _ := store.Add(a.url, x, a);
    assert store.urlToIdx == map[a.url := 0];
    var _ := store.Add(b.url, y, b);
    assert c.url !in store.urlToIdx;
    var _ := store.Add(c.url, z, c);
    assert store.vectors == [x, y, z] && store.metadata == [a, b, c];
    ghost var positions;
    results, positions := store.Search(query, 1);
    TopOfThree(a, b, c, x, y, z, query, positions);
  }

  /** The single top position among three with a strictly best second vector reports the second record. */
  lemma TopOfThree(a: StoredPage, b: StoredPage, c: StoredPage, x: Vector, y: Vector, z: Vector, query: Vector,
                   positions: seq<nat>)
    requires |positions| == 1 && TopList([x, y, z], query, positions, 3)
    requires Dot(x, query) < Dot(y, query) && Dot(z, query) < Dot(y, query)
    ensures HitsAt([a, b, c], [x, y, z], positions, query) == [Hit(b, y, query)]
  {
    StrictBestIsTop([x, y, z], query, positions, 3, 1);
    assert positions == [1];
  }

  /** A unit-length stored vector that is itself the query scores 1.0. */
  lemma SelfMatchScoresOne(page: StoredPage, v: Vector)
    requires Dot(v, v) == 1.0
    ensures Hit(page, v, v) == SearchResult(page.url, page.title, page.content, 1.0, page.timestamp)
  {
  }
}

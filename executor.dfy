/**
 * The agent executor: indexing a page chunk by chunk into the vector store
 * and the chunk metadata file, and answering a search with chunk-level
 * results. The embedding model is a parameter that may fail; the files are
 * values the executor reads and replaces.
 */
module Executor {
  import opened Optional
  import opened PyText
  import opened Schemas
  import opened ContentProcessor
  import opened VectorIndex
  import opened Searcher
  import opened Seqs

  /** The separator between a page url and its chunk index in a store key. */
  const ChunkMarker: string := "#chunk"

  /** The length of a result snippet. */
  const SnippetLength: int := 200

  /** The largest `top_k` a search request may ask for. */
  const MaxTopK: int := 20

  /** `str(v)` for a metadata value. */
  function Show(v: MetaValue): string {
    match v
    case IntValue(i) => if i >= 0 then Decimal(i) else "-" + Decimal(-i)
    case TextValue(s) => s
  }

  /** The store key of a chunk: `f"{url}#chunk{chunk_index}"`. */
  function ChunkKey(url: string, index: MetaValue): (key: string)
    ensures |url| + |ChunkMarker| <= |key|
    ensures key[..|url|] == url && OccursAt(key, ChunkMarker, |url|)
  {
    assert (url + ChunkMarker + Show(index))[|url|..|url| + |ChunkMarker|] == ChunkMarker;
    url + ChunkMarker + Show(index)
  }

  /**
   * `s.split(sep)` for a non-empty separator: the pieces between the
   * occurrences of `sep` found scanning from the left.
   */
  function Split(s: string, sep: string): (pieces: seq<string>)
    requires sep != []
    ensures |pieces| >= 1
    decreases |s|
  {
    match FirstFrom(s, sep, 0)
    case None => [s]
    case Some(p) => [s[..p]] + Split(s[p + |sep|..], sep)
  }

  /** `sep.join(pieces)`. */
  function Join(pieces: seq<string>, sep: string): string
    requires |pieces| >= 1
  {
    if |pieces| == 1 then pieces[0] else pieces[0] + sep + Join(pieces[1..], sep)
  }

  /** Joining the pieces of a split with its separator gives back the string. */
  lemma {:induction false} SplitJoin(s: string, sep: string)
    requires sep != []
    ensures Join(Split(s, sep), sep) == s
    decreases |s|
  {
    var pieces := Split(s, sep);
    var first := FirstFrom(s, sep, 0);
    if first.None? {
      assert pieces == [s];
    } else {
      var p := first.value;
      var rest := s[p + |sep|..];
      var tail := Split(rest, sep);
      assert pieces == [s[..p]] + tail;
      assert pieces[0] == s[..p] && pieces[1..] == tail;
      assert Join(pieces, sep) == s[..p] + sep + Join(tail, sep);
      SplitJoin(rest, sep);
      assert s[p..p + |sep|] == sep;
      ThreeSlices(s, p, p + |sep|);
    }
  }

  /** No piece of a split contains its separator. */
  lemma {:induction false} SplitPiecesFree(s: string, sep: string)
    requires sep != []
    ensures forall i, j :: 0 <= i < |Split(s, sep)| ==> !OccursAt(Split(s, sep)[i], sep, j)
    decreases |s|
  {
    var pieces := Split(s, sep);
    match FirstFrom(s, sep, 0)
    case None =>
      forall j ensures !OccursAt(s, sep, j) {
        if 0 <= j {
          assert !OccursAt(s, sep, j);
        }
      }
    case Some(p) =>
      var rest := s[p + |sep|..];
      SplitPiecesFree(rest, sep);
      assert pieces == [s[..p]] + Split(rest, sep);
      assert pieces[1..] == Split(rest, sep);
      forall i, j | 0 <= i < |pieces| ensures !OccursAt(pieces[i], sep, j) {
        if i == 0 {
          if 0 <= j && j + |sep| <= p {
            assert s[..p][j..j + |sep|] == s[j..j + |sep|];
            assert !OccursAt(s, sep, j);
          }
        } else {
          assert pieces[i] == Split(rest, sep)[i - 1];
        }
      }
  }

  /** `url.split("#chunk")[0]`: the url a result is reported under. */
  function BaseUrl(url: string): (base: string)
    ensures |base| <= |url| && base == url[..|base|]
    ensures forall j :: !OccursAt(base, ChunkMarker, j)
    ensures !Contains(url, ChunkMarker) ==> base == url
  {
    SplitPiecesFree(url, ChunkMarker);
    ContainsOccurs(url, ChunkMarker, 0);
    Split(url, ChunkMarker)[0]
  }

  /**
   * The chunk index parsed from a key: the integer after the last
   * "#chunk", or None when there is no "#chunk" or that text is not an
   * integer.
   */
  function ChunkIndexOf(url: string): (index: Option<int>)
    ensures index.Some? ==> Contains(url, ChunkMarker)
  {
    if Contains(url, ChunkMarker) then
      var pieces := Split(url, ChunkMarker);
      ParseInt(pieces[|pieces| - 1])
    else None
  }

  /** The marker's only '#' is its first character. */
  lemma MarkerHashOnlyFirst(i: int)
    requires 0 < i < |ChunkMarker|
    ensures ChunkMarker[i] != '#'
  {
  }

  /** Past its first character, a chunk key's tail holds no '#'. */
  lemma KeyTailHasNoHash(index: nat, i: int)
    requires 0 < i < |ChunkMarker + Decimal(index)|
    ensures (ChunkMarker + Decimal(index))[i] != '#'
  {
    if i < |ChunkMarker| {
      MarkerHashOnlyFirst(i);
    } else {
      assert (ChunkMarker + Decimal(index))[i] == Decimal(index)[i - |ChunkMarker|];
    }
  }

  /**
   * In a key built from a url without "#chunk", the marker first occurs
   * right after the url.
   */
  lemma KeyMarkerPosition(url: string, index: nat)
    requires !Contains(url, ChunkMarker)
    ensures FirstFrom(ChunkKey(url, IntValue(index)), ChunkMarker, 0) == Some(|url|)
  {
    var key := ChunkKey(url, IntValue(index));
    var tail := ChunkMarker + Decimal(index);
    forall j | 0 <= j < |url|
      ensures !OccursAt(key, ChunkMarker, j)
    {
      assert key == url + tail;
      NoMarkerBefore(url, tail, j);
    }
    var r := FirstFrom(key, ChunkMarker, 0);
    assert r.Some? && r.value <= |url|;
  }

  /** Before a '#' that follows a url without "#chunk", no "#chunk" starts. */
  lemma NoMarkerBefore(url: string, tail: string, j: int)
    requires !Contains(url, ChunkMarker) && tail != [] && tail[0] == '#'
    requires 0 <= j < |url|
    ensures !OccursAt(url + tail, ChunkMarker, j)
  {
    var key := url + tail;
    if j + |ChunkMarker| <= |url| {
      assert key[j..j + |ChunkMarker|] == url[j..j + |ChunkMarker|];
      ContainsOccurs(url, ChunkMarker, j);
    } else if j + |ChunkMarker| <= |key| {
      assert key[j..j + |ChunkMarker|][|url| - j] == key[|url|] == '#';
      MarkerHashOnlyFirst(|url| - j);
    }
  }

  /**
   * The key round trip: for a url without "#chunk", the key of chunk
   * `index` splits back into the url and the index.
   */
  lemma KeyRoundTrip(url: string, index: nat)
    requires !Contains(url, ChunkMarker)
    ensures BaseUrl(ChunkKey(url, IntValue(index))) == url
    ensures ChunkIndexOf(ChunkKey(url, IntValue(index))) == Some(index)
  {
    var key := ChunkKey(url, IntValue(index));
    KeySplit(url, index);
    assert Contains(key, ChunkMarker) by {
      KeyMarkerPosition(url, index);
      ContainsOccurs(key, ChunkMarker, |url|);
    }
    ParseDecimal(index);
  }

  /** A chunk key splits at "#chunk" into exactly the url and the index digits. */
  lemma KeySplit(url: string, index: nat)
    requires !Contains(url, ChunkMarker)
    ensures Split(ChunkKey(url, IntValue(index)), ChunkMarker) == [url, Decimal(index)]
  {
    var key := ChunkKey(url, IntValue(index));
    var d := Decimal(index);
    assert Split(d, ChunkMarker) == [d] by {
      DigitsSplitWhole(d);
    }
    KeyMarkerPosition(url, index);
    assert key[..|url|] == url;
    assert key[|url| + |ChunkMarker|..] == d;
    assert Split(key, ChunkMarker) == [key[..|url|]] + Split(key[|url| + |ChunkMarker|..], ChunkMarker);
  }

  /** A string of digits holds no "#chunk", so splitting it leaves it whole. */
  lemma DigitsSplitWhole(d: string)
    requires forall i :: 0 <= i < |d| ==> IsDigit(d[i])
    ensures Split(d, ChunkMarker) == [d]
  {
    assert FirstFrom(d, ChunkMarker, 0) == None by {
      forall j | 0 <= j ensures !OccursAt(d, ChunkMarker, j) {
        if j + |ChunkMarker| <= |d| {
          assert d[j..j + |ChunkMarker|][0] == d[j];
        }
      }
    }
  }

  /**
   * Keys of chunks are distinct: two chunk keys are equal only for the
   * same url and the same index.
   */
  lemma ChunkKeyInjective(url: string, index: nat, url': string, index': nat)
    requires ChunkKey(url, IntValue(index)) == ChunkKey(url', IntValue(index'))
    ensures url == url' && index == index'
  {
    var key := ChunkKey(url, IntValue(index));
    LastHash(url, index);
    LastHash(url', index');
    assert |url| == |url'|;
    assert url == key[..|url|] == url';
    assert Decimal(index) == key[|url| + |ChunkMarker|..] == Decimal(index');
    DecimalValue(index);
    DecimalValue(index');
  }

  /** The last '#' of a chunk key is the one that starts its marker. */
  lemma LastHash(url: string, index: nat)
    ensures var key := ChunkKey(url, IntValue(index));
      && key[|url|] == '#'
      && forall i :: |url| < i < |key| ==> key[i] != '#'
  {
    var key := ChunkKey(url, IntValue(index));
    var tail := ChunkMarker + Decimal(index);
    assert key == url + tail;
    forall i | |url| < i < |key|
      ensures key[i] != '#'
    {
      assert key[i] == tail[i - |url|];
      KeyTailHasNoHash(index, i - |url|);
    }
  }

  /** An entry of the chunk metadata file. */
  datatype ChunkRecord = ChunkRecord(
    url: string,
    title: string,
    chunkIndex: int,
    content: string,
    timestamp: Micros,
    metadata: Metadata)

  /** The urls of a batch of entries (`url_set`): each entry's url, and no other. */
  function Urls(batch: seq<ChunkRecord>): (urls: set<string>)
    ensures forall i :: 0 <= i < |batch| ==> batch[i].url in urls
    ensures forall u :: u in urls ==> exists i :: 0 <= i < |batch| && batch[i].url == u
  {
    set m | m in batch :: m.url
  }

  /** The entries whose url is not in `urls`, in their order. */
  function WithoutUrls(entries: seq<ChunkRecord>, urls: set<string>): (r: seq<ChunkRecord>)
    ensures |r| <= |entries|
  {
    if entries == [] then []
    else (if entries[0].url in urls then [] else [entries[0]]) + WithoutUrls(entries[1..], urls)
  }

  /** An entry survives exactly when its url is not in `urls`. */
  lemma {:induction false} WithoutUrlsMembers(entries: seq<ChunkRecord>, urls: set<string>)
    ensures forall m :: m in WithoutUrls(entries, urls) <==> m in entries && m.url !in urls
  {
    if entries != [] {
      WithoutUrlsMembers(entries[1..], urls);
      assert entries == [entries[0]] + entries[1..];
    }
  }

  /**
   * The metadata file after indexing a batch: the existing entries of
   * other urls, then the batch.
   */
  function Merge(existing: seq<ChunkRecord>, batch: seq<ChunkRecord>): (r: seq<ChunkRecord>)
    ensures |batch| <= |r| <= |existing| + |batch|
    ensures r[|r| - |batch|..] == batch
  {
    WithoutUrls(existing, Urls(batch)) + batch
  }

  /** `a` is `b` with some entries left out. */
  ghost predicate IsSubsequence(a: seq<ChunkRecord>, b: seq<ChunkRecord>) {
    a == [] || (b != [] && ((a[0] == b[0] && IsSubsequence(a[1..], b[1..])) || IsSubsequence(a, b[1..])))
  }

  lemma {:induction false} WithoutUrlsSubsequence(entries: seq<ChunkRecord>, urls: set<string>)
    ensures IsSubsequence(WithoutUrls(entries, urls), entries)
  {
    if entries != [] {
      var rest := WithoutUrls(entries[1..], urls);
      WithoutUrlsSubsequence(entries[1..], urls);
      if entries[0].url !in urls {
        var r := WithoutUrls(entries, urls);
        assert r == [entries[0]] + rest;
        assert r[0] == entries[0] && r[1..] == rest;
        assert IsSubsequence(r, entries);
      } else {
        assert WithoutUrls(entries, urls) == rest;
      }
    }
  }

  lemma {:induction false} WithoutUrlsNone(entries: seq<ChunkRecord>, urls: set<string>)
    requires forall i :: 0 <= i < |entries| ==> entries[i].url !in urls
    ensures WithoutUrls(entries, urls) == entries
  {
    if entries != [] {
      WithoutUrlsNone(entries[1..], urls);
    }
  }

  lemma {:induction false} WithoutUrlsAppend(a: seq<ChunkRecord>, b: seq<ChunkRecord>, urls: set<string>)
    ensures WithoutUrls(a + b, urls) == WithoutUrls(a, urls) + WithoutUrls(b, urls)
  {
    if a == [] {
      assert a + b == b;
    } else {
      var x, rest := a[0], a[1..];
      var head := if x.url in urls then [] else [x];
      assert a == [x] + rest && a + b == [x] + (rest + b);
      WithoutUrlsCons(x, rest + b, urls);
      WithoutUrlsCons(x, rest, urls);
      WithoutUrlsAppend(rest, b, urls);
      AppendAssociative(head, WithoutUrls(rest, urls), WithoutUrls(b, urls));
    }
  }

  lemma WithoutUrlsCons(x: ChunkRecord, rest: seq<ChunkRecord>, urls: set<string>)
    ensures WithoutUrls([x] + rest, urls) == (if x.url in urls then [] else [x]) + WithoutUrls(rest, urls)
  {
    assert ([x] + rest)[0] == x && ([x] + rest)[1..] == rest;
  }

  /**
   * The merge keeps the existing entries of other urls in their order and
   * drops every existing entry of a url in the batch, then appends the
   * batch in order.
   */
  lemma MergeShape(existing: seq<ChunkRecord>, batch: seq<ChunkRecord>)
    ensures var r := Merge(existing, batch);
      && |batch| <= |r| <= |existing| + |batch|
      && r[|r| - |batch|..] == batch
      && IsSubsequence(r[..|r| - |batch|], existing)
      && (forall m :: m in r[..|r| - |batch|] <==> m in existing && (forall b :: b in batch ==> b.url != m.url))
  {
    var r := Merge(existing, batch);
    var kept := WithoutUrls(existing, Urls(batch));
    assert r[..|r| - |batch|] == kept;
    WithoutUrlsSubsequence(existing, Urls(batch));
    WithoutUrlsMembers(existing, Urls(batch));
    forall m ensures m in kept <==> m in existing && (forall b :: b in batch ==> b.url != m.url) {
      if m in existing && m.url in Urls(batch) {
        var b :| b in batch && b.url == m.url;
      }
    }
  }

  /** A batch with no entries leaves the file as it was: the page's old entries survive. */
  lemma MergeEmptyBatch(existing: seq<ChunkRecord>)
    ensures Merge(existing, []) == existing
  {
    assert Urls([]) == {};
    WithoutUrlsNone(existing, {});
  }

  /** Merging the same batch twice is merging it once. */
  lemma MergeIdempotent(existing: seq<ChunkRecord>, batch: seq<ChunkRecord>)
    ensures Merge(Merge(existing, batch), batch) == Merge(existing, batch)
  {
    var urls := Urls(batch);
    var kept := WithoutUrls(existing, urls);
    assert Merge(existing, batch) == kept + batch;
    assert WithoutUrls(kept, urls) == kept by {
      WithoutUrlsMembers(existing, urls);
      forall i | 0 <= i < |kept| ensures kept[i].url !in urls {
        assert kept[i] in kept;
      }
      WithoutUrlsNone(kept, urls);
    }
    assert WithoutUrls(batch, urls) == [] by {
      forall i | 0 <= i < |batch| ensures batch[i].url in urls {
        assert batch[i] in batch;
      }
      WithoutUrlsAll(batch, urls);
    }
    WithoutUrlsAppend(kept, batch, urls);
    assert WithoutUrls(kept + batch, urls) == kept + [];
  }

  lemma {:induction false} WithoutUrlsAll(entries: seq<ChunkRecord>, urls: set<string>)
    requires forall i :: 0 <= i < |entries| ==> entries[i].url in urls
    ensures WithoutUrls(entries, urls) == []
  {
    if entries != [] {
      WithoutUrlsAll(entries[1..], urls);
    }
  }

  /** The vector store record of a chunk: any hit on it reports the chunk's url, title, content and timestamp. */
  function PageOf(chunk: ProcessedContent, dimension: nat): (page: StoredPage)
    ensures forall v, query ::
      && Hit(page, v, query).url == chunk.url && Hit(page, v, query).title == chunk.title
      && Hit(page, v, query).content == chunk.content && Hit(page, v, query).timestamp == chunk.timestamp
  {
    StoredPage(chunk.url, chunk.title, chunk.content, chunk.timestamp, dimension, chunk.metadata)
  }

  /**
   * The metadata file entry of chunk `k`: it matches a result reported
   * under the chunk's store key with index `k`, and carries the chunk's text.
   */
  function RecordOf(chunk: ProcessedContent, k: nat): (r: ChunkRecord)
    ensures Matches(r, ChunkKey(chunk.url, IntValue(k)), Some(k))
    ensures r.content == chunk.content
  {
    ContainsOccurs(ChunkKey(chunk.url, IntValue(k)), chunk.url, 0);
    ChunkRecord(chunk.url, chunk.title, k, chunk.content, chunk.timestamp, chunk.metadata)
  }

  /** The entries of the chunks at `indexed`, in that order. */
  function RecordsAt(chunks: seq<ProcessedContent>, indexed: seq<nat>): (rs: seq<ChunkRecord>)
    requires forall j :: 0 <= j < |indexed| ==> indexed[j] < |chunks|
    ensures |rs| == |indexed|
    ensures forall j :: 0 <= j < |rs| ==> rs[j] == RecordOf(chunks[indexed[j]], indexed[j])
  {
    seq(|indexed|, j requires 0 <= j < |indexed| => RecordOf(chunks[indexed[j]], indexed[j]))
  }

  /** `indexed` lists positions below `bound` in ascending order. */
  predicate Ascending(indexed: seq<nat>, bound: nat) {
    && |indexed| <= bound
    && (forall j :: 0 <= j < |indexed| ==> indexed[j] < bound)
    && (forall j, j' :: 0 <= j < j' < |indexed| ==> indexed[j] < indexed[j'])
  }

  lemma AscendingExtend(indexed: seq<nat>, k: nat)
    requires Ascending(indexed, k)
    ensures Ascending(indexed, k + 1) && Ascending(indexed + [k], k + 1)
  {
  }

  /** Every listed chunk's embedding succeeded. */
  predicate Embedded(chunks: seq<ProcessedContent>, indexed: seq<nat>, embed: string -> Option<Vector>) {
    forall j :: 0 <= j < |indexed| ==> indexed[j] < |chunks| && embed(chunks[indexed[j]].content).Some?
  }

  /** Every chunk before `k` whose embedding succeeded with the store's dimension is listed. */
  predicate Covers(chunks: seq<ProcessedContent>, indexed: seq<nat>, k: nat,
                   embed: string -> Option<Vector>, dimension: nat) {
    forall i :: (0 <= i < k && i < |chunks| && embed(chunks[i].content).Some? &&
                 |embed(chunks[i].content).value| == dimension) ==> i in indexed
  }

  /**
   * Whether chunk `k` is indexed by a store whose key map is `idx`: its
   * embedding succeeds, and either has the store's dimension or goes to a
   * key already stored, whose update replaces the record and never reaches
   * the index.
   */
  predicate Accepted(chunks: seq<ProcessedContent>, k: nat, idx: map<string, nat>,
                     embed: string -> Option<Vector>, dimension: nat)
    requires k < |chunks|
  {
    embed(chunks[k].content).Some? &&
    (|embed(chunks[k].content).value| == dimension || KeyOf(chunks, k) in idx)
  }

  /** The chunks before `k` that are listed are exactly those accepted by a store whose key map was `idx`. */
  predicate Decided(chunks: seq<ProcessedContent>, indexed: seq<nat>, k: nat, idx: map<string, nat>,
                    embed: string -> Option<Vector>, dimension: nat) {
    forall i :: 0 <= i < k && i < |chunks| ==> (i in indexed <==> Accepted(chunks, i, idx, embed, dimension))
  }

  /**
   * One more round keeps the listing decided, provided the chunk's key is
   * in the current key map exactly when it was in the map at the start.
   */
  lemma DecidedStep(chunks: seq<ProcessedContent>, indexed: seq<nat>, k: nat, added: bool,
                    idx0: map<string, nat>, idx: map<string, nat>, embed: string -> Option<Vector>, dimension: nat)
    requires k < |chunks| && Ascending(indexed, k)
    requires Decided(chunks, indexed, k, idx0, embed, dimension)
    requires added <==> Accepted(chunks, k, idx, embed, dimension)
    requires KeyOf(chunks, k) in idx <==> KeyOf(chunks, k) in idx0
    ensures Decided(chunks, if added then indexed + [k] else indexed, k + 1, idx0, embed, dimension)
  {
    var next := if added then indexed + [k] else indexed;
    forall i | 0 <= i < k + 1 && i < |chunks|
      ensures i in next <==> Accepted(chunks, i, idx0, embed, dimension)
    {
      assert k !in indexed;
      if i < k {
        assert i in next <==> i in indexed;
      }
    }
  }

  /** One more round of the indexing loop keeps the listing's properties. */
  lemma IndexingStep(chunks: seq<ProcessedContent>, indexed: seq<nat>, k: nat, added: bool,
                     embed: string -> Option<Vector>, dimension: nat)
    requires k < |chunks| && Ascending(indexed, k)
    requires Embedded(chunks, indexed, embed) && Covers(chunks, indexed, k, embed, dimension)
    requires added ==> embed(chunks[k].content).Some?
    requires embed(chunks[k].content).Some? && |embed(chunks[k].content).value| == dimension ==> added
    ensures var next := if added then indexed + [k] else indexed;
      && Ascending(next, k + 1)
      && Embedded(chunks, next, embed)
      && Covers(chunks, next, k + 1, embed, dimension)
      && RecordsAt(chunks, next) == if added then RecordsAt(chunks, indexed) + [RecordOf(chunks[k], k)]
                                    else RecordsAt(chunks, indexed)
  {
    AscendingExtend(indexed, k);
    CoversStep(chunks, indexed, k, added, embed, dimension);
    if added {
      EmbeddedPush(chunks, indexed, k, embed);
      RecordsAtPush(chunks, indexed, k);
    }
  }

  lemma CoversStep(chunks: seq<ProcessedContent>, indexed: seq<nat>, k: nat, added: bool,
                   embed: string -> Option<Vector>, dimension: nat)
    requires k < |chunks| && Covers(chunks, indexed, k, embed, dimension)
    requires embed(chunks[k].content).Some? && |embed(chunks[k].content).value| == dimension ==> added
    ensures Covers(chunks, if added then indexed + [k] else indexed, k + 1, embed, dimension)
  {
    var next := if added then indexed + [k] else indexed;
    forall i | 0 <= i < k + 1 && i < |chunks| && embed(chunks[i].content).Some? &&
               |embed(chunks[i].content).value| == dimension
      ensures i in next
    {
      if i < k {
        assert i in indexed;
      }
    }
  }

  lemma EmbeddedPush(chunks: seq<ProcessedContent>, indexed: seq<nat>, k: nat, embed: string -> Option<Vector>)
    requires Embedded(chunks, indexed, embed) && k < |chunks| && embed(chunks[k].content).Some?
    ensures Embedded(chunks, indexed + [k], embed)
  {
    var next := indexed + [k];
    forall j | 0 <= j < |next|
      ensures next[j] < |chunks| && embed(chunks[next[j]].content).Some?
    {
      if j < |indexed| {
        assert next[j] == indexed[j];
      }
    }
  }

  lemma RecordsAtPush(chunks: seq<ProcessedContent>, indexed: seq<nat>, k: nat)
    requires forall j :: 0 <= j < |indexed| ==> indexed[j] < |chunks|
    requires k < |chunks|
    ensures RecordsAt(chunks, indexed + [k]) == RecordsAt(chunks, indexed) + [RecordOf(chunks[k], k)]
  {
    var next := indexed + [k];
    assert forall j :: 0 <= j < |indexed| ==> next[j] == indexed[j];
  }

  /** The counts `handle_index_request` reports. */
  datatype IndexStats = IndexStats(totalChunks: nat, totalEmbeddings: nat)

  /** A chunk-level search result. */
  datatype ChunkResult = ChunkResult(
    url: string,
    title: string,
    chunkIndex: Option<int>,
    score: real,
    snippet: string,
    content: string,
    timestamp: Micros)

  /**
   * A file entry describes the result with this url and chunk index: the
   * entry's url occurs in the result's, so it is no longer, and an entry
   * always describes a result under its own url and index.
   */
  predicate Matches(m: ChunkRecord, url: string, index: Option<int>): (matched: bool)
    ensures matched ==> index.Some? && |m.url| <= |url|
    ensures index == Some(m.chunkIndex) && m.url == url ==> matched
  {
    assert OccursAt(url, url, 0) by {
      assert url[0..|url|] == url;
    }
    ContainsOccurs(url, url, 0);
    Contains(url, m.url) && index == Some(m.chunkIndex)
  }

  /** The position of the first entry of `file` that matches. */
  function FirstMatch(file: seq<ChunkRecord>, url: string, index: Option<int>): (r: Option<nat>)
    ensures r.Some? ==> r.value < |file| && Matches(file[r.value], url, index)
    ensures forall j :: 0 <= j < |file| && (r.None? || j < r.value) ==> !Matches(file[j], url, index)
  {
    if file == [] then None
    else if Matches(file[0], url, index) then Some(0)
    else match FirstMatch(file[1..], url, index)
      case None => None
      case Some(p) => Some(p + 1)
  }

  /**
   * One chunk-level result: the base url, the parsed chunk index, and the
   * content of the first matching file entry (else the hit's own content)
   * with its first 200 characters as snippet.
   */
  function ShapeResult(res: SearchResult, file: seq<ChunkRecord>): (r: ChunkResult)
    ensures r.url == BaseUrl(res.url) && r.chunkIndex == ChunkIndexOf(res.url)
    ensures r.title == res.title && r.score == res.score && r.timestamp == res.timestamp
  {
    var index := ChunkIndexOf(res.url);
    var m := FirstMatch(file, res.url, index);
    var body := if m.Some? then file[m.value].content else res.content;
    ChunkResult(BaseUrl(res.url), res.title, index, res.score, SliceTo(body, SnippetLength), body, res.timestamp)
  }

  /**
   * The content is that of the first file entry matching the hit's url and
   * chunk index, or the hit's own when no entry matches; the snippet is its
   * first 200 characters.
   */
  lemma ShapeResultContent(res: SearchResult, file: seq<ChunkRecord>)
    ensures var r := ShapeResult(res, file);
      && (|| (exists j :: 0 <= j < |file| && Matches(file[j], res.url, r.chunkIndex) && r.content == file[j].content
               && forall i :: 0 <= i < j ==> !Matches(file[i], res.url, r.chunkIndex))
          || ((forall j :: 0 <= j < |file| ==> !Matches(file[j], res.url, r.chunkIndex)) && r.content == res.content))
      && |r.snippet| == Min(SnippetLength, |r.content|)
      && r.snippet == r.content[..|r.snippet|]
  {
  }

  /**
   * A hit whose url has no "#chunk" keeps its url and its own content and
   * gets no chunk index. Search reports records' urls, and indexing stores
   * the bare page url in each record, so this is every hit of a search.
   */
  lemma UnmarkedHit(res: SearchResult, file: seq<ChunkRecord>)
    requires !Contains(res.url, ChunkMarker)
    ensures var r := ShapeResult(res, file);
      && r.url == res.url && r.chunkIndex == None && r.content == res.content
  {
    var pieces := Split(res.url, ChunkMarker);
    match FirstFrom(res.url, ChunkMarker, 0)
    case None =>
    case Some(p) =>
      ContainsOccurs(res.url, ChunkMarker, p);
  }

  /** The results of a search, shaped one by one. */
  function ShapeAll(hits: seq<SearchResult>, file: seq<ChunkRecord>): (rs: seq<ChunkResult>)
    ensures |rs| == |hits|
    ensures forall i :: 0 <= i < |hits| ==> rs[i] == ShapeResult(hits[i], file)
  {
    seq(|hits|, i requires 0 <= i < |hits| => ShapeResult(hits[i], file))
  }

  /** The loop of `handle_search_request` that shapes every hit. */
  method ShapeResults(hits: seq<SearchResult>, file: seq<ChunkRecord>) returns (shaped: seq<ChunkResult>)
    ensures shaped == ShapeAll(hits, file)
  {
    ghost var expected := ShapeAll(hits, file);
    shaped := [];
    for i := 0 to |hits|
      invariant shaped == expected[..i]
    {
      var item := ShapeOne(hits[i], file);
      assert expected[..i + 1] == expected[..i] + [item];
      shaped := shaped + [item];
    }
    assert expected[..|hits|] == expected;
  }

  /** The body of that loop for one hit. */
  method ShapeOne(res: SearchResult, file: seq<ChunkRecord>) returns (item: ChunkResult)
    ensures item == ShapeResult(res, file)
  {
    var index := ChunkIndexOf(res.url);
    var m := FirstMatch(file, res.url, index);
    var content := if m.Some? then file[m.value].content else res.content;
    item := ChunkResult(BaseUrl(res.url), res.title, index, res.score, SliceTo(content, SnippetLength), content, res.timestamp);
  }

  /**
   * Records reloaded from the metadata of chunks carry bare page urls, so
   * the rebuilt key map holds no chunk key, and indexing the same page
   * again after a restart appends new positions instead of replacing.
   */
  lemma ReloadForgetsChunkKeys(pages: seq<StoredPage>, url: string, index: nat)
    requires forall i :: 0 <= i < |pages| ==> !Contains(pages[i].url, ChunkMarker)
    ensures ChunkKey(url, IntValue(index)) !in IndexByUrl(pages)
  {
    var key := ChunkKey(url, IntValue(index));
    IndexByUrlCorrect(pages);
    assert key[|url|..|url| + |ChunkMarker|] == ChunkMarker;
    ContainsOccurs(key, ChunkMarker, |url|);
  }

  class AgentExecutor {
    /** The vector store. */
    const store: VectorStore
    /** The embedding model: a text's vector, or None where the call fails. */
    const embed: string -> Option<Vector>
    /** The content of the chunk metadata file. */
    var chunkFile: seq<ChunkRecord>

    ghost predicate Valid()
      reads this, store
    {
      store.Valid()
    }

    /**
     * `AgentExecutor.__init__`: a store of the model's dimension, loaded
     * from its files.
     */
    constructor (dimension: nat, embed: string -> Option<Vector>, indexFile: Option<seq<Vector>>,
                 metadataFile: Option<seq<StoredPage>>, chunkFile: seq<ChunkRecord>)
      ensures Valid() && fresh(store)
      ensures store.dimension == dimension && this.embed == embed && this.chunkFile == chunkFile
      ensures store.vectors == if indexFile.Some? then indexFile.value else []
      ensures store.metadata == if metadataFile.Some? then metadataFile.value else []
      ensures store.urlToIdx == if metadataFile.Some? then IndexByUrl(metadataFile.value) else map[]
    {
      this.embed := embed;
      store := new VectorStore.Load(dimension, indexFile, metadataFile);
      this.chunkFile := chunkFile;
    }

    /** Chunk `k` is in the store under its key, with its record. */
    ghost predicate Stored(chunks: seq<ProcessedContent>, k: nat)
      requires k < |chunks|
      reads store
    {
      var key := ChunkKey(chunks[k].url, IntValue(k));
      key in store.urlToIdx && store.urlToIdx[key] < |store.metadata| &&
      store.metadata[store.urlToIdx[key]] == PageOf(chunks[k], store.dimension)
    }

    /** Every listed chunk is stored under its key. */
    ghost predicate AllStored(chunks: seq<ProcessedContent>, indexed: seq<nat>)
      reads store
    {
      forall j :: 0 <= j < |indexed| ==> indexed[j] < |chunks| && Stored(chunks, indexed[j])
    }

    lemma StoredPush(chunks: seq<ProcessedContent>, indexed: seq<nat>, k: nat)
      requires AllStored(chunks, indexed) && k < |chunks| && Stored(chunks, k)
      ensures AllStored(chunks, indexed + [k])
    {
      var next := indexed + [k];
      forall j | 0 <= j < |next|
        ensures next[j] < |chunks| && Stored(chunks, next[j])
      {
        if j < |indexed| {
          assert next[j] == indexed[j];
        }
      }
    }

    /**
     * The loop of `handle_index_request`: every chunk whose embedding
     * succeeds and is accepted by the store is added under its chunk key and
     * gets a file entry; the others are skipped. `indexed` lists the chunks
     * that made it, in order.
     */
    method IndexChunks(chunks: seq<ProcessedContent>)
      returns (batch: seq<ChunkRecord>, ghost indexed: seq<nat>)
      requires Valid()
      requires forall k :: 0 <= k < |chunks| ==>
        "chunk_index" in chunks[k].metadata && chunks[k].metadata["chunk_index"] == IntValue(k)
      modifies store
      ensures Valid()
      ensures |batch| <= |chunks|
      ensures forall j :: 0 <= j < |indexed| ==> indexed[j] < |chunks|
      ensures forall j, j' :: 0 <= j < j' < |indexed| ==> indexed[j] < indexed[j']
      ensures batch == RecordsAt(chunks, indexed)
      ensures forall j :: 0 <= j < |indexed| ==> embed(chunks[indexed[j]].content).Some?
      ensures forall k :: (0 <= k < |chunks| && embed(chunks[k].content).Some? &&
                           |embed(chunks[k].content).value| == store.dimension) ==> k in indexed
      ensures forall k :: 0 <= k < |chunks| ==>
        (k in indexed <==> Accepted(chunks, k, old(store.urlToIdx), embed, store.dimension))
      ensures forall j :: 0 <= j < |indexed| ==> Stored(chunks, indexed[j])
      ensures old(store.Aligned()) ==> store.Aligned()
      ensures IndexedInto(old(store.vectors), old(store.urlToIdx), old(store.metadata), old(store.Aligned()),
                          store.vectors, store.urlToIdx, store.metadata, chunks, indexed, embed)
    {
      batch := [];
      indexed := [];
      ghost var vectors0, idx0, records0, aligned0 := store.vectors, store.urlToIdx, store.metadata, store.Aligned();
      var k: nat := 0;
      while k < |chunks|
        invariant k <= |chunks|
        invariant Valid()
        invariant Ascending(indexed, k)
        invariant batch == RecordsAt(chunks, indexed)
        invariant Embedded(chunks, indexed, embed)
        invariant Covers(chunks, indexed, k, embed, store.dimension)
        invariant Decided(chunks, indexed, k, idx0, embed, store.dimension)
        invariant AllStored(chunks, indexed)
        invariant old(store.Aligned()) ==> store.Aligned()
        invariant IndexedInto(vectors0, idx0, records0, aligned0, store.vectors, store.urlToIdx, store.metadata,
                              chunks, indexed, embed)
      {
        ghost var vectors, idx, records := store.vectors, store.urlToIdx, store.metadata;
        KeyKnownAsBefore(vectors0, idx0, records0, aligned0, vectors, idx, records, chunks, indexed, k, embed);
        var added := IndexOne(chunks, k, indexed);
        IndexingStep(chunks, indexed, k, added, embed, store.dimension);
        DecidedStep(chunks, indexed, k, added, idx0, idx, embed, store.dimension);
        IndexedIntoStep(vectors0, idx0, records0, aligned0, vectors, idx, records,
                        store.vectors, store.urlToIdx, store.metadata, chunks, indexed, k, added, embed);
        if added {
          StoredPush(chunks, indexed, k);
        }
        if added {
          batch := batch + [RecordOf(chunks[k], k)];
          indexed := indexed + [k];
        }
        k := k + 1;
      }
    }

    /**
     * The body of that loop for chunk `k`: embed it and add it under its
     * key. The result says whether both steps succeeded; the chunks
     * already stored stay stored.
     */
    method IndexOne(chunks: seq<ProcessedContent>, k: nat, ghost indexed: seq<nat>) returns (added: bool)
      requires Valid()
      requires k < |chunks|
      requires "chunk_index" in chunks[k].metadata && chunks[k].metadata["chunk_index"] == IntValue(k)
      requires forall j :: 0 <= j < |indexed| ==> indexed[j] < k && Stored(chunks, indexed[j])
      modifies store
      ensures Valid()
      ensures added ==> embed(chunks[k].content).Some? && Stored(chunks, k)
      ensures embed(chunks[k].content).Some? && |embed(chunks[k].content).value| == store.dimension ==> added
      ensures added <==> Accepted(chunks, k, old(store.urlToIdx), embed, store.dimension)
      ensures forall j :: 0 <= j < |indexed| ==> Stored(chunks, indexed[j])
      ensures old(store.Aligned()) ==> store.Aligned()
      ensures StoreGrew(old(store.vectors), old(store.urlToIdx), old(store.metadata),
                        store.vectors, store.urlToIdx, store.metadata, if added then {KeyOf(chunks, k)} else {})
      ensures added && KeyOf(chunks, k) !in old(store.urlToIdx) && old(store.Aligned()) ==>
        EmbeddingAt(store.vectors, store.urlToIdx, chunks, k, embed)
    {
      var chunk := chunks[k];
      var embedding := embed(chunk.content);
      if embedding.None? {
        return false;
      }
      var page := StoredPage(chunk.url, chunk.title, chunk.content, chunk.timestamp, store.dimension, chunk.metadata);
      var key := ChunkKey(chunk.url, chunk.metadata["chunk_index"]);
      ghost var vectors, before, records := store.vectors, store.urlToIdx, store.metadata;
      var count := store.Add(key, embedding.value, page);
      UpsertKeepsOthers(before, records, store.urlToIdx, store.metadata, key, page);
      AddGrows(vectors, before, records, store.vectors, store.urlToIdx, store.metadata, key, embedding.value, page);
      forall j | 0 <= j < |indexed|
        ensures Stored(chunks, indexed[j])
      {
        var i := indexed[j];
        ChunkKeyNotSame(chunks[i].url, i, chunk.url, k);
      }
      added := count.Some?;
    }

    /**
     * `AgentExecutor.handle_index_request` for a page at time `now`: chunk
     * it with the default sizes, index the chunks, and merge their entries
     * into the chunk metadata file.
     */
    method HandleIndexRequest(url: string, title: string, content: string, now: Micros)
      returns (ok: bool, message: string, stats: IndexStats, ghost indexed: seq<nat>)
      requires Valid()
      modifies this, store
      ensures Valid()
      ensures ok && message == "Indexed: " + title
      ensures var chunks := Chunks(url, title, content, map[], now, NormalizedText(content),
                                   DefaultChunkSize, DefaultChunkSize - DefaultChunkOverlap);
        && stats.totalChunks == |chunks|
        && stats.totalEmbeddings == |indexed| <= |chunks|
        && (forall j :: 0 <= j < |indexed| ==> indexed[j] < |chunks|)
        && (forall j, j' :: 0 <= j < j' < |indexed| ==> indexed[j] < indexed[j'])
        && chunkFile == Merge(old(chunkFile), RecordsAt(chunks, indexed))
        && (forall k :: (0 <= k < |chunks| && embed(chunks[k].content).Some? &&
                         |embed(chunks[k].content).value| == store.dimension) ==> k in indexed)
        && (forall j :: 0 <= j < |indexed| ==> embed(chunks[indexed[j]].content).Some?)
        && (forall k :: 0 <= k < |chunks| ==>
              (k in indexed <==> Accepted(chunks, k, old(store.urlToIdx), embed, store.dimension)))
        && (forall j :: 0 <= j < |indexed| ==> Stored(chunks, indexed[j]))
        && IndexedInto(old(store.vectors), old(store.urlToIdx), old(store.metadata), old(store.Aligned()),
                       store.vectors, store.urlToIdx, store.metadata, chunks, indexed, embed)
      ensures old(store.Aligned()) ==> store.Aligned()
    {
      var chunks := Process(url, title, content, map[], now, DefaultChunkSize, DefaultChunkOverlap);
      ChunkIndices(url, title, content, now, chunks);
      var batch;
      batch, indexed := IndexChunks(chunks);
      chunkFile := Merge(chunkFile, batch);
      ok, message, stats := true, "Indexed: " + title, IndexStats(|chunks|, |batch|);
    }

    /**
     * `AgentExecutor.handle_search_request` for a query and `top_k` within
     * the request bounds. A rejected query, a failed embedding and a store
     * that rejects the query vector end the request without results; an
     * empty search reports "No results found"; otherwise every hit of the
     * store's search is shaped into a chunk-level result.
     */
    method HandleSearchRequest(query: string, topK: int := DefaultTopK)
      returns (ok: bool, message: string, total: Option<nat>, results: seq<ChunkResult>, ghost positions: seq<nat>)
      requires Valid()
      requires 1 <= |query| <= MaxQueryLength && 1 <= topK <= MaxTopK
      ensures !QueryAccepted(query) ==> !ok && message == "Invalid query" && total == None && results == []
      ensures QueryAccepted(query) && embed(query).None? ==> !ok && message == "Error: " && total == None && results == []
      ensures QueryAccepted(query) && embed(query).Some? && |store.metadata| > 0 && |embed(query).value| != store.dimension ==>
        !ok && message == "Error: " && total == None && results == []
      ensures ok <==> QueryAccepted(query) && embed(query).Some? && (|store.metadata| == 0 || |embed(query).value| == store.dimension)
      ensures ok ==>
        && |positions| <= Min(topK, |store.metadata|)
        && TopList(store.vectors, embed(query).value, positions, |store.metadata|)
        && results == ShapeAll(HitsAt(store.metadata, store.vectors, positions, embed(query).value), chunkFile)
        && total == Some(|results|)
        && message == if results == [] then "No results found" else "Found " + Decimal(|results|) + " results"
      ensures ok && store.Aligned() ==> |results| == Min(topK, |store.metadata|)
    {
      positions := [];
      var accepted := ValidateQuery(query);
      if !accepted {
        return false, "Invalid query", None, [], positions;
      }
      var embedding := embed(query);
      if embedding.None? {
        return false, "Error: ", None, [], positions;
      }
      var hits;
      hits, positions := store.Search(embedding.value, topK);
      if hits.None? {
        return false, "Error: ", None, [], positions;
      }
      if hits.value == [] {
        return true, "No results found", Some(0), [], positions;
      }
      results := ShapeResults(hits.value, chunkFile);
      total := Some(|results|);
      message := "Found " + Decimal(|results|) + " results";
      ok := true;
    }
  }

  /** Keys of different chunk indices differ. */
  lemma ChunkKeyNotSame(url: string, index: nat, url': string, index': nat)
    requires index != index'
    ensures ChunkKey(url, IntValue(index)) != ChunkKey(url', IntValue(index'))
  {
    if ChunkKey(url, IntValue(index)) == ChunkKey(url', IntValue(index')) {
      ChunkKeyInjective(url, index, url', index');
    }
  }

  /**
   * An upsert into a key map with distinct positions leaves every other
   * key at its position with its record.
   */
  lemma UpsertKeepsOthers(idx: map<string, nat>, records: seq<StoredPage>, idx': map<string, nat>,
                          records': seq<StoredPage>, key: string, page: StoredPage)
    requires forall k :: k in idx ==> idx[k] < |records|
    requires forall k, k' :: k in idx && k' in idx && k != k' ==> idx[k] != idx[k']
    requires || (key in idx && idx' == idx && records' == records[idx[key] := page])
             || (key !in idx && idx' == idx[key := |records|] && records' == records + [page])
             || (key !in idx && idx' == idx && records' == records)
    ensures forall other :: other in idx && other != key ==>
      other in idx' && idx'[other] == idx[other] && idx[other] < |records'| && records'[idx[other]] == records[idx[other]]
  {
  }

  /** The store key of chunk `k` of a page. */
  function KeyOf(chunks: seq<ProcessedContent>, k: nat): string
    requires k < |chunks|
  {
    ChunkKey(chunks[k].url, IntValue(k))
  }

  /** The store keys of the chunks at `indexed`. */
  function KeysOf(chunks: seq<ProcessedContent>, indexed: seq<nat>): set<string> {
    set i | i in indexed && i < |chunks| :: KeyOf(chunks, i)
  }

  lemma KeysOfPush(chunks: seq<ProcessedContent>, indexed: seq<nat>, k: nat)
    requires k < |chunks|
    ensures KeysOf(chunks, indexed + [k]) == KeysOf(chunks, indexed) + {KeyOf(chunks, k)}
  {
    var next := indexed + [k];
    assert forall i :: i in next <==> i in indexed || i == k;
  }

  /** Key `key` maps to a position of the index that holds `v`. */
  ghost predicate HasVector(vectors: seq<Vector>, idx: map<string, nat>, key: string, v: Vector) {
    key in idx && idx[key] < |vectors| && vectors[idx[key]] == v
  }

  /**
   * The store (`vectors1`, `idx1`, `records1`) has grown from (`vectors0`,
   * `idx0`, `records0`) by upserts of keys in `changed`: the index was only
   * appended to, the records only grew, every key kept its position, the
   * new keys are keys of `changed`, and a key outside `changed` kept its
   * record.
   */
  ghost predicate StoreGrew(vectors0: seq<Vector>, idx0: map<string, nat>, records0: seq<StoredPage>,
                            vectors1: seq<Vector>, idx1: map<string, nat>, records1: seq<StoredPage>,
                            changed: set<string>) {
    && vectors0 <= vectors1
    && |records0| <= |records1|
    && (forall key :: key in idx0 ==> key in idx1 && idx1[key] == idx0[key])
    && (forall key :: key in idx1 && key !in idx0 ==> key in changed)
    && (forall key :: key in idx0 && key !in changed && idx0[key] < |records0| ==>
          records1[idx0[key]] == records0[idx0[key]])
  }

  /**
   * Every path of `VectorStore.Add` grows the store by its key; a new key
   * added to a store with one record per vector maps to the new vector.
   */
  lemma AddGrows(vectors0: seq<Vector>, idx0: map<string, nat>, records0: seq<StoredPage>,
                 vectors1: seq<Vector>, idx1: map<string, nat>, records1: seq<StoredPage>,
                 key: string, embedding: Vector, page: StoredPage)
    requires forall k :: k in idx0 ==> idx0[k] < |records0|
    requires forall k, k' :: k in idx0 && k' in idx0 && k != k' ==> idx0[k] != idx0[k']
    requires || (key in idx0 && idx1 == idx0 && vectors1 == vectors0 && records1 == records0[idx0[key] := page])
             || (key !in idx0 && idx1 == idx0[key := |records0|] && vectors1 == vectors0 + [embedding]
                 && records1 == records0 + [page])
             || (key !in idx0 && idx1 == idx0 && vectors1 == vectors0 && records1 == records0)
    ensures StoreGrew(vectors0, idx0, records0, vectors1, idx1, records1, {key})
    ensures key !in idx0 && key in idx1 && |vectors0| == |records0| ==> HasVector(vectors1, idx1, key, embedding)
  {
  }

  /** Growth composes: the keys changed are those of either step. */
  lemma GrewTrans(vectors0: seq<Vector>, idx0: map<string, nat>, records0: seq<StoredPage>,
                  vectors1: seq<Vector>, idx1: map<string, nat>, records1: seq<StoredPage>,
                  vectors2: seq<Vector>, idx2: map<string, nat>, records2: seq<StoredPage>,
                  changed1: set<string>, changed2: set<string>)
    requires StoreGrew(vectors0, idx0, records0, vectors1, idx1, records1, changed1)
    requires StoreGrew(vectors1, idx1, records1, vectors2, idx2, records2, changed2)
    ensures StoreGrew(vectors0, idx0, records0, vectors2, idx2, records2, changed1 + changed2)
  {
  }

  /**
   * Growth never moves a vector: a key that had one keeps it. In particular
   * a chunk indexed again under a key the store already knows keeps its old
   * embedding, whatever its new content.
   */
  lemma GrowthKeepsVectors(vectors0: seq<Vector>, idx0: map<string, nat>, records0: seq<StoredPage>,
                           vectors1: seq<Vector>, idx1: map<string, nat>, records1: seq<StoredPage>,
                           changed: set<string>)
    requires StoreGrew(vectors0, idx0, records0, vectors1, idx1, records1, changed)
    ensures forall key :: key in idx0 && idx0[key] < |vectors0| ==> HasVector(vectors1, idx1, key, vectors0[idx0[key]])
  {
  }

  /** Chunk `k` was embedded, and its key maps to its embedding. */
  ghost predicate EmbeddingAt(vectors: seq<Vector>, idx: map<string, nat>, chunks: seq<ProcessedContent>, k: nat,
                              embed: string -> Option<Vector>)
    requires k < |chunks|
  {
    embed(chunks[k].content).Some? && HasVector(vectors, idx, KeyOf(chunks, k), embed(chunks[k].content).value)
  }

  /**
   * What indexing did to the store so far: it grew by the keys of the
   * indexed chunks, and each indexed chunk whose key was new to a store
   * with one record per vector maps to its embedding.
   */
  ghost predicate IndexedInto(vectors0: seq<Vector>, idx0: map<string, nat>, records0: seq<StoredPage>, aligned0: bool,
                              vectors: seq<Vector>, idx: map<string, nat>, records: seq<StoredPage>,
                              chunks: seq<ProcessedContent>, indexed: seq<nat>, embed: string -> Option<Vector>) {
    && StoreGrew(vectors0, idx0, records0, vectors, idx, records, KeysOf(chunks, indexed))
    && NewKeysEmbedded(idx0, aligned0, vectors, idx, chunks, indexed, embed)
  }

  /**
   * Each chunk at `indexed` whose key was not in `idx0`, when the store
   * then had one record per vector, maps to its embedding.
   */
  ghost predicate NewKeysEmbedded(idx0: map<string, nat>, aligned0: bool, vectors: seq<Vector>, idx: map<string, nat>,
                                  chunks: seq<ProcessedContent>, indexed: seq<nat>, embed: string -> Option<Vector>) {
    && (forall j :: 0 <= j < |indexed| ==> indexed[j] < |chunks|)
    && (forall j :: 0 <= j < |indexed| && KeyOf(chunks, indexed[j]) !in idx0 && aligned0 ==>
          EmbeddingAt(vectors, idx, chunks, indexed[j], embed))
  }

  /** One round of the indexing loop keeps `IndexedInto`. */
  lemma IndexedIntoStep(vectors0: seq<Vector>, idx0: map<string, nat>, records0: seq<StoredPage>, aligned0: bool,
                        vectors: seq<Vector>, idx: map<string, nat>, records: seq<StoredPage>,
                        vectors': seq<Vector>, idx': map<string, nat>, records': seq<StoredPage>,
                        chunks: seq<ProcessedContent>, indexed: seq<nat>, k: nat, added: bool,
                        embed: string -> Option<Vector>)
    requires k < |chunks| && Ascending(indexed, k)
    requires IndexedInto(vectors0, idx0, records0, aligned0, vectors, idx, records, chunks, indexed, embed)
    requires StoreGrew(vectors, idx, records, vectors', idx', records', if added then {KeyOf(chunks, k)} else {})
    requires added && KeyOf(chunks, k) !in idx && |vectors| == |records| ==> EmbeddingAt(vectors', idx', chunks, k, embed)
    requires aligned0 ==> |vectors| == |records|
    ensures IndexedInto(vectors0, idx0, records0, aligned0, vectors', idx', records', chunks,
                        if added then indexed + [k] else indexed, embed)
  {
    var changed := if added then {KeyOf(chunks, k)} else {};
    GrewStep(vectors0, idx0, records0, vectors, idx, records, vectors', idx', records', chunks, indexed, k, added);
    if added && KeyOf(chunks, k) !in idx0 && aligned0 {
      KeyStillNew(vectors0, idx0, records0, vectors, idx, records, chunks, indexed, k);
    }
    EmbeddedStep(idx0, aligned0, vectors, idx, records, vectors', idx', records', changed, chunks, indexed, k, added, embed);
  }

  /** One round of the indexing loop grows the store by the key of the chunk it added, if any. */
  lemma GrewStep(vectors0: seq<Vector>, idx0: map<string, nat>, records0: seq<StoredPage>,
                 vectors: seq<Vector>, idx: map<string, nat>, records: seq<StoredPage>,
                 vectors': seq<Vector>, idx': map<string, nat>, records': seq<StoredPage>,
                 chunks: seq<ProcessedContent>, indexed: seq<nat>, k: nat, added: bool)
    requires k < |chunks|
    requires StoreGrew(vectors0, idx0, records0, vectors, idx, records, KeysOf(chunks, indexed))
    requires StoreGrew(vectors, idx, records, vectors', idx', records', if added then {KeyOf(chunks, k)} else {})
    ensures StoreGrew(vectors0, idx0, records0, vectors', idx', records', KeysOf(chunks, if added then indexed + [k] else indexed))
  {
    var changed := if added then {KeyOf(chunks, k)} else {};
    GrewTrans(vectors0, idx0, records0, vectors, idx, records, vectors', idx', records', KeysOf(chunks, indexed), changed);
    if added {
      KeysOfPush(chunks, indexed, k);
    } else {
      assert KeysOf(chunks, indexed) + changed == KeysOf(chunks, indexed);
    }
  }

  /** One round of the indexing loop keeps the embeddings of new keys where they are, and adds the new chunk's. */
  lemma EmbeddedStep(idx0: map<string, nat>, aligned0: bool,
                     vectors: seq<Vector>, idx: map<string, nat>, records: seq<StoredPage>,
                     vectors': seq<Vector>, idx': map<string, nat>, records': seq<StoredPage>, changed: set<string>,
                     chunks: seq<ProcessedContent>, indexed: seq<nat>, k: nat, added: bool, embed: string -> Option<Vector>)
    requires k < |chunks|
    requires NewKeysEmbedded(idx0, aligned0, vectors, idx, chunks, indexed, embed)
    requires StoreGrew(vectors, idx, records, vectors', idx', records', changed)
    requires added && KeyOf(chunks, k) !in idx0 && aligned0 ==> EmbeddingAt(vectors', idx', chunks, k, embed)
    ensures NewKeysEmbedded(idx0, aligned0, vectors', idx', chunks, if added then indexed + [k] else indexed, embed)
  {
    var next := if added then indexed + [k] else indexed;
    forall j | 0 <= j < |next| && KeyOf(chunks, next[j]) !in idx0 && aligned0
      ensures EmbeddingAt(vectors', idx', chunks, next[j], embed)
    {
      if j < |indexed| {
        assert next[j] == indexed[j];
        EmbeddingKept(vectors, idx, records, vectors', idx', records', changed, chunks, indexed[j], embed);
      }
    }
  }

  /** A chunk whose key mapped to its embedding still does after the store grew. */
  lemma EmbeddingKept(vectors: seq<Vector>, idx: map<string, nat>, records: seq<StoredPage>,
                      vectors': seq<Vector>, idx': map<string, nat>, records': seq<StoredPage>,
                      changed: set<string>, chunks: seq<ProcessedContent>, k: nat, embed: string -> Option<Vector>)
    requires StoreGrew(vectors, idx, records, vectors', idx', records', changed)
    requires k < |chunks| && EmbeddingAt(vectors, idx, chunks, k, embed)
    ensures EmbeddingAt(vectors', idx', chunks, k, embed)
  {
  }

  /**
   * A chunk key the store did not know before indexing is still unknown
   * when its turn comes: the keys added so far belong to earlier chunks.
   */
  /**
   * During indexing, the key of the chunk whose turn it is is in the
   * current key map exactly when it was in the map before indexing began.
   */
  lemma KeyKnownAsBefore(vectors0: seq<Vector>, idx0: map<string, nat>, records0: seq<StoredPage>, aligned0: bool,
                         vectors: seq<Vector>, idx: map<string, nat>, records: seq<StoredPage>,
                         chunks: seq<ProcessedContent>, indexed: seq<nat>, k: nat, embed: string -> Option<Vector>)
    requires k < |chunks| && Ascending(indexed, k)
    requires IndexedInto(vectors0, idx0, records0, aligned0, vectors, idx, records, chunks, indexed, embed)
    ensures KeyOf(chunks, k) in idx <==> KeyOf(chunks, k) in idx0
  {
    if KeyOf(chunks, k) !in idx0 {
      KeyStillNew(vectors0, idx0, records0, vectors, idx, records, chunks, indexed, k);
    }
  }

  lemma KeyStillNew(vectors0: seq<Vector>, idx0: map<string, nat>, records0: seq<StoredPage>,
                    vectors: seq<Vector>, idx: map<string, nat>, records: seq<StoredPage>,
                    chunks: seq<ProcessedContent>, indexed: seq<nat>, k: nat)
    requires StoreGrew(vectors0, idx0, records0, vectors, idx, records, KeysOf(chunks, indexed))
    requires k < |chunks| && Ascending(indexed, k) && KeyOf(chunks, k) !in idx0
    ensures KeyOf(chunks, k) !in idx
  {
    var key := KeyOf(chunks, k);
    if key in idx {
      assert key in KeysOf(chunks, indexed);
      var i :| i in indexed && i < |chunks| && KeyOf(chunks, i) == key;
      ChunkKeyNotSame(chunks[i].url, i, chunks[k].url, k);
      assert false;
    }
  }

  /** The chunks of a page are numbered 0, 1, ... in their metadata, and all carry the page url. */
  lemma ChunkIndices(url: string, title: string, content: string, now: Micros, chunks: seq<ProcessedContent>)
    requires chunks == Chunks(url, title, content, map[], now, NormalizedText(content),
                              DefaultChunkSize, DefaultChunkSize - DefaultChunkOverlap)
    ensures forall k :: 0 <= k < |chunks| ==>
      && "chunk_index" in chunks[k].metadata && chunks[k].metadata["chunk_index"] == IntValue(k)
      && chunks[k].url == url
  {
    ChunksAreChunks(url, title, content, map[], now, NormalizedText(content),
                    DefaultChunkSize, DefaultChunkSize - DefaultChunkOverlap);
  }
}

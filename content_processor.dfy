/**
 * The content processor: cleans a page's raw text, normalises its
 * whitespace and cuts it into overlapping fixed-size chunks, each with a
 * quality score and its chunk index.
 */
module ContentProcessor {
  import opened PyText
  import opened Schemas
  import opened Seqs

  /** Chunking parameters of the service configuration (characters). */
  const DefaultChunkSize: int := 512
  const DefaultChunkOverlap: int := 40

  /** The class `[\x00-\x1f\x7f-\x9f]` removed by cleaning. */
  predicate IsControl(c: char) { c as int <= 0x1f || 0x7f <= c as int <= 0x9f }

  /** The class `[!?]`. */
  predicate IsBang(c: char) { c == '!' || c == '?' }

  // ---------------------------------------------------------------------------
  // Cleaning: four regular-expression substitutions, applied in order.
  // Each scanner below follows `re.sub`: try a match at the current position;
  // on a match emit the replacement and continue after it, otherwise copy one
  // character and move on.
  // ---------------------------------------------------------------------------

  /** Does `http\S+|www\S+` match at the start of `s`? A match runs to the end of the non-space run. */
  predicate UrlAt(s: string) {
    || (StartsWith(s, "http") && NonSpaceRun(s) >= 5)
    || (StartsWith(s, "www") && NonSpaceRun(s) >= 4)
  }

  /**
   * Does `\S+@\S+` match at the start of `s`? It does exactly when the run of
   * non-space characters starting here holds an `@` with at least one
   * character before and after it; the greedy match then covers the whole run.
   */
  predicate EmailAt(s: string) {
    exists q :: 1 <= q < NonSpaceRun(s) - 1 && s[q] == '@'
  }

  /** `re.sub(r'http\S+|www\S+', '', s)` */
  function StripUrls(s: string): (r: string)
    ensures |r| <= |s|
    ensures forall c :: c in r ==> c in s
    decreases |s|
  {
    if s == [] then []
    else if UrlAt(s) then StripUrls(s[NonSpaceRun(s)..])
    else [s[0]] + StripUrls(s[1..])
  }

  /** `re.sub(r'\S+@\S+', '', s)` */
  function StripEmails(s: string): (r: string)
    ensures |r| <= |s|
    ensures forall c :: c in r ==> c in s
    decreases |s|
  {
    if s == [] then []
    else if EmailAt(s) then StripEmails(s[NonSpaceRun(s)..])
    else [s[0]] + StripEmails(s[1..])
  }

  /** Length of the run of `!`/`?` characters that starts `s`. */
  function BangRun(s: string): (n: nat)
    ensures n <= |s|
    ensures forall i :: 0 <= i < n ==> IsBang(s[i])
    ensures n == |s| || !IsBang(s[n])
  {
    if s == [] || !IsBang(s[0]) then 0 else 1 + BangRun(s[1..])
  }

  /** `re.sub(r'[!?]{2,}', '!', s)`: every run of two or more `!`/`?` becomes one `!`. */
  function CollapseBangs(s: string): (r: string)
    ensures |r| <= |s|
    ensures r != [] ==> (IsBang(r[0]) <==> IsBang(s[0]))
    ensures forall i :: 0 <= i < |r| - 1 ==> !(IsBang(r[i]) && IsBang(r[i + 1]))
    ensures forall c :: c in r ==> c in s || c == '!'
    decreases |s|
  {
    if s == [] then []
    else if |s| >= 2 && IsBang(s[0]) && IsBang(s[1]) then "!" + CollapseBangs(s[BangRun(s)..])
    else [s[0]] + CollapseBangs(s[1..])
  }

  /** `re.sub(r'[\x00-\x1f\x7f-\x9f]', '', s)` */
  function RemoveControl(s: string): (r: string)
    ensures |r| <= |s|
    ensures forall i :: 0 <= i < |r| ==> !IsControl(r[i])
    ensures forall c :: c in r ==> c in s
    ensures (forall i :: 0 <= i < |s| ==> !IsControl(s[i])) ==> r == s
  {
    if s == [] then []
    else (if IsControl(s[0]) then [] else [s[0]]) + RemoveControl(s[1..])
  }

  /** `_clean_content`: strip URLs, then e-mail-like tokens, collapse `!`/`?` runs, drop control characters. */
  function Clean(s: string): (r: string)
    ensures |r| <= |s|
    ensures forall i :: 0 <= i < |r| ==> !IsControl(r[i])
    ensures forall c :: c in r ==> c in s || c == '!'
  {
    RemoveControl(CollapseBangs(StripEmails(StripUrls(s))))
  }

  // ---------------------------------------------------------------------------
  // Whitespace normalisation
  // ---------------------------------------------------------------------------

  /** Length of the run of `c` that starts `s`. */
  function RunOf(s: string, c: char): (n: nat)
    ensures n <= |s|
    ensures n == |s| || s[n] != c
  {
    if s == [] || s[0] != c then 0 else 1 + RunOf(s[1..], c)
  }

  /**
   * `re.sub(c + '{2,}', c, s)`: every run of `c` becomes a single `c` (a run
   * of one is left as it is, which is the same thing).
   */
  function CollapseRuns(s: string, c: char): (r: string)
    ensures |r| <= |s|
    ensures s != [] ==> r != [] && r[0] == s[0]
    ensures forall i :: 0 <= i < |r| - 1 ==> !(r[i] == c && r[i + 1] == c)
    ensures forall x :: x in r ==> x in s
    decreases |s|
  {
    if s == [] then []
    else if s[0] == c then [c] + CollapseRuns(s[1 + RunOf(s[1..], c)..], c)
    else [s[0]] + CollapseRuns(s[1..], c)
  }

  /** `s.replace('\t', ' ')` */
  function ReplaceTabs(s: string): (r: string)
    ensures |r| == |s|
    ensures forall i :: 0 <= i < |r| ==> r[i] != '\t'
    ensures (forall i :: 0 <= i < |s| ==> s[i] != '\t') ==> r == s
  {
    if s == [] then [] else [if s[0] == '\t' then ' ' else s[0]] + ReplaceTabs(s[1..])
  }

  /** `_normalize_whitespace`: collapse newline runs, then space runs, turn tabs into spaces, strip. */
  function Normalize(s: string): (r: string)
    ensures |r| <= |s|
    ensures forall i :: 0 <= i < |r| ==> r[i] != '\t'
    ensures r != [] ==> !IsSpace(r[0]) && !IsSpace(r[|r| - 1])
  {
    Strip(ReplaceTabs(CollapseRuns(CollapseRuns(s, '\n'), ' ')))
  }

  /** The text the chunker walks over. */
  function NormalizedText(content: string): (text: string)
    ensures |text| <= |content|
    ensures forall i :: 0 <= i < |text| ==> text[i] != '\t'
    ensures text != [] ==> !IsSpace(text[0]) && !IsSpace(text[|text| - 1])
  {
    Normalize(Clean(content))
  }

  lemma NoControlSurvivesCollapse(s: string, c: char)
    requires forall i :: 0 <= i < |s| ==> !IsControl(s[i])
    ensures forall i :: 0 <= i < |CollapseRuns(s, c)| ==> !IsControl(CollapseRuns(s, c)[i])
  {
    var r := CollapseRuns(s, c);
    forall i | 0 <= i < |r| ensures !IsControl(r[i]) {
      assert r[i] in r;
      var j :| 0 <= j < |s| && s[j] == r[i];
    }
  }

  /**
   * What cleaning and normalisation leave behind: no control character (so
   * no newline or tab), no two consecutive spaces, no whitespace at either
   * end, and never more characters than the raw text had.
   */
  lemma NormalizedTextShape(content: string)
    ensures var t := NormalizedText(content);
      && |t| <= |content|
      && (forall i :: 0 <= i < |t| ==> !IsControl(t[i]))
      && (forall i :: 0 <= i < |t| - 1 ==> !(t[i] == ' ' && t[i + 1] == ' '))
      && (t != [] ==> !IsSpace(t[0]) && !IsSpace(t[|t| - 1]))
  {
    var c := Clean(content);
    var a := CollapseRuns(c, '\n');
    NoControlSurvivesCollapse(c, '\n');
    var b := CollapseRuns(a, ' ');
    NoControlSurvivesCollapse(a, ' ');
    assert forall i :: 0 <= i < |b| ==> b[i] != '\t' by {
      forall i | 0 <= i < |b| ensures b[i] != '\t' { assert !IsControl(b[i]); }
    }
    var d := ReplaceTabs(b);
    assert d == b;
    StripKeepsShape(d);
  }

  /** Stripping a text without control characters or double spaces keeps it so. */
  lemma StripKeepsShape(d: string)
    requires forall i :: 0 <= i < |d| ==> !IsControl(d[i])
    requires forall i :: 0 <= i < |d| - 1 ==> !(d[i] == ' ' && d[i + 1] == ' ')
    ensures var t := Strip(d);
      && (forall i :: 0 <= i < |t| ==> !IsControl(t[i]))
      && (forall i :: 0 <= i < |t| - 1 ==> !(t[i] == ' ' && t[i + 1] == ' '))
  {
    var lead := LeadingSpaces(d);
    var e := d[lead..];
    var t := e[..|e| - TrailingSpaces(e)];
    assert forall i :: 0 <= i < |t| ==> t[i] == d[lead + i];
  }

  // ---------------------------------------------------------------------------
  // Quality score
  // ---------------------------------------------------------------------------

  function RealMin(a: real, b: real): real { if a <= b then a else b }

  /**
   * `_calculate_quality_score`: 0.7 times the retained fraction of the
   * original length (at most 1), plus 0.15 for more than ten tokens, plus
   * 0.15 for a full stop, capped at 1; an empty original scores 0.
   */
  function QualityScore(original: string, processed: string): (q: real)
    ensures 0.0 <= q <= 1.0
    ensures original == [] ==> q == 0.0
  {
    if original == [] then 0.0
    else
      var retention := |processed| as real / |original| as real;
      var score := RealMin(retention, 1.0) * 0.7
        + (if TokenCount(processed) > 10 then 0.15 else 0.0)
        + (if '.' in processed then 0.15 else 0.0);
      RealMin(score, 1.0)
  }

  /**
   * Inside the chunker a chunk is never longer than the raw page, so neither
   * cap is reached: the score is exactly 0.7 * |chunk| / |raw page| plus the
   * two bonuses. The ratio is taken against the whole page, not the chunk's
   * own share of it.
   */
  lemma QualityOfChunk(original: string, processed: string)
    requires original != [] && |processed| <= |original|
    ensures QualityScore(original, processed)
      == (|processed| as real / |original| as real) * 0.7
         + (if TokenCount(processed) > 10 then 0.15 else 0.0)
         + (if '.' in processed then 0.15 else 0.0)
  {
    RatioAtMostOne(|processed|, |original|);
  }

  lemma RatioAtMostOne(a: nat, b: nat)
    requires 0 < b && a <= b
    ensures 0.0 <= a as real / b as real <= 1.0
  {
    var x, y := a as real, b as real;
    assert x / y == x * (1.0 / y);
    assert x * (1.0 / y) <= y * (1.0 / y);
  }

  // ---------------------------------------------------------------------------
  // Chunking
  // ---------------------------------------------------------------------------

  /** `text[start:start + size]` */
  function Window(text: string, start: int, size: nat): string
    requires 0 <= start <= |text|
  {
    text[start..Min(start + size, |text|)]
  }

  /** Chunk number `k` of the walk, the window of `text` at `start`, cut from the raw page `content`. */
  function ChunkAt(url: string, title: string, content: string, metadata: Metadata, now: Micros,
                   text: string, start: int, k: nat, chunkSize: nat): (chunk: ProcessedContent)
    requires 0 <= start <= |text|
    ensures |chunk.content| <= chunkSize && start + |chunk.content| <= |text|
    ensures chunk.content == text[start..start + |chunk.content|]
    ensures start < |text| && 0 < chunkSize ==> chunk.content != []
    ensures chunk.originalLength == |content| && chunk.processedLength == |chunk.content|
    ensures 0.0 <= chunk.extractionQuality <= 1.0
    ensures "chunk_index" in chunk.metadata && chunk.metadata["chunk_index"] == IntValue(k)
  {
    var piece := Window(text, start, chunkSize);
    ProcessedContent(url, title, piece, |content|, |piece|, QualityScore(content, piece),
                     metadata["chunk_index" := IntValue(k)], now)
  }

  /** The window starts of the walk from `start`: every `step` characters until the end of a text of length `len`. */
  function WalkStarts(len: int, start: int, step: int): (ws: seq<int>)
    requires 0 <= start && 0 < step
    ensures forall j :: 0 <= j < |ws| ==> start <= ws[j] < len
    decreases len - start
  {
    if start >= len then [] else [start] + WalkStarts(len, start + step, step)
  }

  /** The chunks of the walk over `text`: one per window start, numbered from 0. */
  function Chunks(url: string, title: string, content: string, metadata: Metadata, now: Micros,
                  text: string, chunkSize: nat, step: int): (cs: seq<ProcessedContent>)
    requires 0 < step
    ensures |cs| == |WalkStarts(|text|, 0, step)|
    ensures forall k :: 0 <= k < |cs| ==>
      && cs[k].url == url && cs[k].title == title && cs[k].timestamp == now
      && cs[k].metadata == metadata["chunk_index" := IntValue(k)]
  {
    var starts := WalkStarts(|text|, 0, step);
    seq(|starts|, k requires 0 <= k < |starts| =>
      ChunkAt(url, title, content, metadata, now, text, starts[k], k, chunkSize))
  }

  /** Chunk `k` of the walk over `text` cut from the raw page `content`. */
  predicate IsChunk(c: ProcessedContent, k: nat, text: string, url: string, title: string, content: string,
                    metadata: Metadata, now: Micros, chunkSize: int, step: int)
    requires 0 < chunkSize
  {
    && 0 <= k * step < |text|
    && c.content == Window(text, k * step, chunkSize)
    && 0 < |c.content| <= chunkSize
    && c.processedLength == |c.content|
    && c.originalLength == |content|
    && c.extractionQuality == QualityScore(content, c.content)
    && c.metadata == metadata["chunk_index" := IntValue(k)]
    && c.url == url && c.title == title && c.timestamp == now
  }

  /**
   * The walk from `start` visits `start + j * step` for every `j` that keeps
   * it before `len`, and no more: its last start is before `len` and the
   * next one would not be.
   */
  lemma {:induction false} WalkStartsShape(len: int, start: int, step: int)
    requires 0 <= start && 0 < step
    ensures var ws := WalkStarts(len, start, step);
      && (|ws| == 0 <==> len <= start)
      && (start < len ==> (|ws| - 1) * step < len - start <= |ws| * step)
      && forall j :: 0 <= j < |ws| ==> ws[j] == start + j * step
    decreases len - start
  {
    if start < len {
      var ws := WalkStarts(len, start, step);
      var rest := WalkStarts(len, start + step, step);
      var n := |rest|;
      WalkStartsShape(len, start + step, step);
      MulSucc(n - 1, step);
      MulSucc(n, step);
      forall j | 1 <= j < |ws|
        ensures ws[j] == start + j * step
      {
        assert ws[j] == rest[j - 1];
        MulSucc(j - 1, step);
      }
    }
  }

  lemma MulSucc(a: int, b: int)
    ensures (a + 1) * b == a * b + b
  {
  }

  /** Every chunk of the walk is chunk `k` of it as `IsChunk` describes, and there are `ceil(len / step)` of them. */
  lemma ChunksAreChunks(url: string, title: string, content: string, metadata: Metadata, now: Micros,
                        text: string, chunkSize: int, step: int)
    requires 0 < chunkSize && 0 < step
    ensures var cs := Chunks(url, title, content, metadata, now, text, chunkSize, step);
      && (|cs| == 0 <==> |text| == 0)
      && (|text| > 0 ==> (|cs| - 1) * step < |text| <= |cs| * step)
      && forall k :: 0 <= k < |cs| ==> IsChunk(cs[k], k, text, url, title, content, metadata, now, chunkSize, step)
  {
    var starts := WalkStarts(|text|, 0, step);
    WalkStartsShape(|text|, 0, step);
    forall k | 0 <= k < |starts|
      ensures IsChunk(Chunks(url, title, content, metadata, now, text, chunkSize, step)[k],
                      k, text, url, title, content, metadata, now, chunkSize, step)
    {
      assert starts[k] == k * step;
    }
  }

  /**
   * `ContentProcessor.process`: walks the normalised text with windows of
   * `chunkSize` characters whose starts are `chunkSize - chunkOverlap` apart,
   * until the start passes the end of the text. The walk only advances when
   * `chunkOverlap < chunkSize`, which the source assumes without checking.
   */
  method Process(url: string, title: string, content: string, metadata: Metadata, now: Micros,
                 chunkSize: int, chunkOverlap: int)
    returns (chunks: seq<ProcessedContent>)
    requires 0 < chunkSize && chunkOverlap < chunkSize
    ensures chunks == Chunks(url, title, content, metadata, now, NormalizedText(content), chunkSize, chunkSize - chunkOverlap)
  {
    var text := NormalizedText(content);
    chunks := Walk(url, title, content, metadata, now, text, chunkSize, chunkSize - chunkOverlap);
  }

  /** The loop of `ContentProcessor.process` over the normalised `text`. */
  method Walk(url: string, title: string, content: string, metadata: Metadata, now: Micros,
              text: string, chunkSize: nat, step: int)
    returns (chunks: seq<ProcessedContent>)
    requires 0 < step
    ensures chunks == Chunks(url, title, content, metadata, now, text, chunkSize, step)
  {
    ghost var starts := WalkStarts(|text|, 0, step);
    ghost var expected := Chunks(url, title, content, metadata, now, text, chunkSize, step);
    ChunkOfWalk(url, title, content, metadata, now, text, chunkSize, step, 0);
    chunks := [];
    var i := 0;
    var start := 0;
    while start < |text|
      invariant 0 <= start && 0 <= i <= |starts| == |expected|
      invariant WalkStarts(|text|, start, step) == starts[i..]
      invariant chunks == expected[..i]
      decreases |text| - start
    {
      assert starts[i] == start;
      var chunk := CutChunk(url, title, content, metadata, now, text, start, i, chunkSize);
      ChunkOfWalk(url, title, content, metadata, now, text, chunkSize, step, i);
      assert expected[i] == chunk;
      PrefixPush(expected, i);
      chunks := chunks + [chunk];
      assert starts[i + 1..] == starts[i..][1..];
      i := i + 1;
      start := start + step;
    }
    assert expected[..i] == expected;
  }

  /** There is a chunk per window start, and chunk `k` is the window at the `k`-th start. */
  lemma ChunkOfWalk(url: string, title: string, content: string, metadata: Metadata, now: Micros,
                    text: string, chunkSize: nat, step: int, k: nat)
    requires 0 < step
    ensures var starts := WalkStarts(|text|, 0, step);
      var cs := Chunks(url, title, content, metadata, now, text, chunkSize, step);
      && |cs| == |starts|
      && (k < |starts| ==> cs[k] == ChunkAt(url, title, content, metadata, now, text, starts[k], k, chunkSize))
  {
  }

  /** One round of the loop: the window at `start`, scored and numbered `k`. */
  method CutChunk(url: string, title: string, content: string, metadata: Metadata, now: Micros,
                  text: string, start: int, k: nat, chunkSize: nat)
    returns (chunk: ProcessedContent)
    requires 0 <= start < |text|
    ensures chunk == ChunkAt(url, title, content, metadata, now, text, start, k, chunkSize)
  {
    var end := Min(start + chunkSize, |text|);
    var chunkText := text[start..end];
    var quality := QualityScore(content, chunkText);
    var chunkMetadata := metadata["chunk_index" := IntValue(k)];
    chunk := ProcessedContent(url, title, chunkText, |content|, |chunkText|, quality, chunkMetadata, now);
  }

  lemma MulAtLeast(x: int, b: int)
    requires 1 <= x && 0 < b
    ensures x * b >= b
  {
    assert x * b == (x - 1) * b + b;
  }

  /** Euclidean division is determined by the bracketing multiples. */
  lemma DivisionBracket(a: int, b: int, q: int)
    requires 0 < b && q * b <= a < q * b + b
    ensures a / b == q
  {
    var d, r := a / b, a % b;
    assert a == d * b + r && 0 <= r < b;
    assert (d - q) * b == a - r - q * b;
    if d - q >= 1 {
      MulAtLeast(d - q, b);
    } else if d - q <= -1 {
      MulAtLeast(q - d, b);
    }
  }

  /** The chunk count of the walk is `ceil(L / step)`. */
  lemma ChunkCountIsCeiling(len: int, step: int, n: int)
    requires 0 < len && 0 < step
    requires (n - 1) * step < len <= n * step
    ensures n == (len + step - 1) / step
  {
    assert (n - 1) * step <= len - 1;
    DivisionBracket(len + step - 1, step, n);
  }

  /** The arithmetic behind `ChunksCover`: windows of at least `step` characters, `step` apart, cover every position below `n * step`. */
  lemma WindowsCover(len: int, size: int, step: int, n: int, p: int)
    requires 0 < step <= size
    requires 0 <= p < len <= n * step
    ensures exists k :: 0 <= k < n && k * step <= p < k * step + size
  {
    var k := p / step;
    assert k * step <= p < k * step + step by {
      assert p == k * step + p % step;
    }
    assert 0 <= k;
  }

  /**
   * With a non-negative overlap the chunks cover the text: every character
   * of the walked text appears in some chunk, at its offset from that
   * chunk's start.
   */
  lemma ChunksCover(url: string, title: string, content: string, metadata: Metadata, now: Micros,
                    text: string, chunkSize: int, chunkOverlap: int, p: int)
    requires 0 <= chunkOverlap < chunkSize && 0 <= p < |text|
    ensures var step := chunkSize - chunkOverlap;
      var cs := Chunks(url, title, content, metadata, now, text, chunkSize, step);
      exists k :: 0 <= k < |cs| && k * step <= p < k * step + |cs[k].content| && cs[k].content[p - k * step] == text[p]
  {
    var step := chunkSize - chunkOverlap;
    var cs := Chunks(url, title, content, metadata, now, text, chunkSize, step);
    WalkStartsShape(|text|, 0, step);
    WindowsCover(|text|, chunkSize, step, |cs|, p);
    var k :| 0 <= k < |cs| && k * step <= p < k * step + chunkSize;
    assert WalkStarts(|text|, 0, step)[k] == k * step;
    ChunkHolds(url, title, content, metadata, now, text, chunkSize, step, k, p);
  }

  /** Chunk `k` of the walk holds every position of its window that lies inside the text. */
  lemma ChunkHolds(url: string, title: string, content: string, metadata: Metadata, now: Micros,
                   text: string, chunkSize: int, step: int, k: nat, p: int)
    requires 0 < step <= chunkSize
    requires k < |WalkStarts(|text|, 0, step)| && WalkStarts(|text|, 0, step)[k] == k * step
    requires k * step <= p < k * step + chunkSize && p < |text|
    ensures var c := Chunks(url, title, content, metadata, now, text, chunkSize, step)[k].content;
      p < k * step + |c| && c[p - k * step] == text[p]
  {
    var start := WalkStarts(|text|, 0, step)[k];
    var cs := Chunks(url, title, content, metadata, now, text, chunkSize, step);
    assert cs[k] == ChunkAt(url, title, content, metadata, now, text, start, k, chunkSize);
    var c := cs[k].content;
    assert c == text[start..Min(start + chunkSize, |text|)];
    assert p - start < |c| && c[p - start] == text[p];
  }

  /**
   * A full window and the next one share exactly `overlap` characters: the
   * last `overlap` characters of chunk k are the first `overlap` of chunk k + 1.
   */
  lemma FullWindowOverlapsNext(text: string, size: int, overlap: int, k: nat)
    requires 0 <= overlap < size
    requires k * (size - overlap) + size <= |text|
    ensures var step := size - overlap;
      && (k + 1) * step <= |text|
      && |Window(text, k * step, size)| == size
      && Window(text, k * step, size)[step..] == Window(text, (k + 1) * step, size)[..overlap]
  {
    var step := size - overlap;
    assert (k + 1) * step == k * step + step;
    var w := Window(text, k * step, size);
    var v := Window(text, (k + 1) * step, size);
    assert w[step..] == text[(k + 1) * step .. (k + 1) * step + overlap];
    assert v[..overlap] == text[(k + 1) * step .. (k + 1) * step + overlap];
  }

  /**
   * Without a positive step the walk never ends: on a non-empty text the
   * window start after any number k of rounds is still before the end.
   */
  lemma {:induction false} NoProgressWithoutStep(size: int, overlap: int, len: int, k: nat)
    requires size <= overlap && 0 < len
    ensures k * (size - overlap) < len
  {
    if k > 0 {
      NoProgressWithoutStep(size, overlap, len, k - 1);
      assert k * (size - overlap) == (k - 1) * (size - overlap) + (size - overlap);
    }
  }
}

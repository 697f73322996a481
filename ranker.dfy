/**
 * The ranker: filters search results by score, scores each by relevance,
 * recency or a mix of both, sorts them by that score (highest first, equal
 * scores in their original order) and numbers them from 1.
 */
module Ranking {
  import opened Schemas

  const MicrosPerDay: int := 86_400_000_000

  /** The strategy `rank_results` uses when none is given. */
  const DefaultStrategy: string := "relevance"

  /** The `min_score` `rank_results` uses when none is given. */
  const DefaultMinScore: real := 0.0

  /** `(now - timestamp).days`: whole days elapsed, rounded down (negative for a future timestamp). */
  function AgeDays(now: Micros, timestamp: Micros): (d: int)
    ensures d * MicrosPerDay <= now - timestamp < (d + 1) * MicrosPerDay
  {
    (now - timestamp) / MicrosPerDay
  }

  /**
   * The recency score of a timestamp: 1.0 within the first day, 0.8 within a
   * week, 0.6 within 30 days, 0.3 after that.
   */
  function Recency(now: Micros, timestamp: Micros): (r: real)
    ensures now - timestamp < MicrosPerDay ==> r == 1.0
    ensures MicrosPerDay <= now - timestamp < 7 * MicrosPerDay ==> r == 0.8
    ensures 7 * MicrosPerDay <= now - timestamp < 30 * MicrosPerDay ==> r == 0.6
    ensures 30 * MicrosPerDay <= now - timestamp ==> r == 0.3
  {
    var age := AgeDays(now, timestamp);
    if age < 1 then 1.0
    else if age < 7 then 0.8
    else if age < 30 then 0.6
    else 0.3
  }

  /** An older page never scores higher on recency than a newer one. */
  lemma RecencyMonotone(now: Micros, older: Micros, newer: Micros)
    requires older <= newer
    ensures 0.3 <= Recency(now, older) <= Recency(now, newer) <= 1.0
  {
  }

  /**
   * The final score of a result under a strategy: its relevance for
   * "relevance", its recency for "recency", and 0.7 relevance plus 0.3
   * recency for any other name. Whatever the strategy, it lies between the
   * two scores it mixes, so a relevance in [0, 1] gives a final score in
   * [0, 1].
   */
  function FinalScore(strategy: string, result: SearchResult, now: Micros): (f: real)
    ensures 0.0 <= result.score <= 1.0 ==> 0.0 <= f <= 1.0
    ensures var rel, rec := result.score, Recency(now, result.timestamp);
      (rel <= rec ==> rel <= f <= rec) && (rec <= rel ==> rec <= f <= rel)
  {
    if strategy == "relevance" then result.score
    else if strategy == "recency" then Recency(now, result.timestamp)
    else 0.7 * result.score + 0.3 * Recency(now, result.timestamp)
  }

  /** The ranked entry for `result` before renumbering. */
  function Entry(strategy: string, result: SearchResult, now: Micros, rank: int): (e: RankedResult) {
    RankedResult(result, result.score, Recency(now, result.timestamp), FinalScore(strategy, result, now), rank)
  }

  /**
   * `[r for r in results if r.score >= min_score]`: every result scoring at
   * least `minScore`, as often as it occurs, and no other.
   */
  function Filtered(results: seq<SearchResult>, minScore: real): (f: seq<SearchResult>)
    ensures |f| <= |results|
    ensures forall i :: 0 <= i < |f| ==> f[i].score >= minScore
    ensures forall r :: multiset(f)[r] == if r.score >= minScore then multiset(results)[r] else 0
  {
    if results == [] then []
    else
      assert results == [results[0]] + results[1..];
      if results[0].score >= minScore then [results[0]] + Filtered(results[1..], minScore)
      else Filtered(results[1..], minScore)
  }

  /** The filter keeps the input order: filtering a concatenation filters each part. */
  lemma {:induction false} FilteredAppend(a: seq<SearchResult>, b: seq<SearchResult>, minScore: real)
    ensures Filtered(a + b, minScore) == Filtered(a, minScore) + Filtered(b, minScore)
  {
    if a == [] {
      assert a + b == b;
    } else {
      assert (a + b)[0] == a[0] && (a + b)[1..] == a[1..] + b;
      FilteredAppend(a[1..], b, minScore);
    }
  }

  /** With the default `min_score` of 0.0 no result with a non-negative score is dropped. */
  lemma {:induction false} DefaultFilterKeepsAll(results: seq<SearchResult>)
    requires forall i :: 0 <= i < |results| ==> results[i].score >= 0.0
    ensures Filtered(results, DefaultMinScore) == results
  {
    if results != [] {
      DefaultFilterKeepsAll(results[1..]);
    }
  }

  predicate SortedByFinal(s: seq<RankedResult>) {
    forall i, j :: 0 <= i < j < |s| ==> s[i].finalScore >= s[j].finalScore
  }

  /** Puts `x` before the first entry whose final score is not above its own. */
  function InsertByFinal(x: RankedResult, s: seq<RankedResult>): (r: seq<RankedResult>)
    ensures |r| == |s| + 1
  {
    if s == [] || s[0].finalScore <= x.finalScore then [x] + s
    else [s[0]] + InsertByFinal(x, s[1..])
  }

  /**
   * `list.sort(key=final_score, reverse=True)`: highest final score first;
   * the sort is stable, so equal scores keep their order.
   */
  function SortByFinal(s: seq<RankedResult>): (r: seq<RankedResult>)
    ensures |r| == |s|
  {
    if s == [] then [] else InsertByFinal(s[0], SortByFinal(s[1..]))
  }

  /** The entries whose final score is `v`, in order. */
  function TieClass(s: seq<RankedResult>, v: real): seq<RankedResult> {
    if s == [] then []
    else if s[0].finalScore == v then [s[0]] + TieClass(s[1..], v)
    else TieClass(s[1..], v)
  }

  lemma {:induction false} InsertPermutes(x: RankedResult, s: seq<RankedResult>)
    ensures multiset(InsertByFinal(x, s)) == multiset(s) + multiset{x}
  {
    if s != [] && s[0].finalScore > x.finalScore {
      InsertPermutes(x, s[1..]);
      assert s == [s[0]] + s[1..];
    }
  }

  lemma {:induction false} InsertKeepsSorted(x: RankedResult, s: seq<RankedResult>)
    requires SortedByFinal(s)
    ensures SortedByFinal(InsertByFinal(x, s))
  {
    if s == [] || s[0].finalScore <= x.finalScore {
      ConsSorted(x, s);
    } else {
      var rest := InsertByFinal(x, s[1..]);
      InsertKeepsSorted(x, s[1..]);
      assert rest[0] == x || rest[0] == s[1];
      ConsSorted(s[0], rest);
    }
  }

  /** An entry scoring at least the head of a sorted list may go in front of it. */
  lemma ConsSorted(h: RankedResult, t: seq<RankedResult>)
    requires SortedByFinal(t) && (t == [] || h.finalScore >= t[0].finalScore)
    ensures SortedByFinal([h] + t)
  {
    var r := [h] + t;
    forall i, j | 0 <= i < j < |r|
      ensures r[i].finalScore >= r[j].finalScore
    {
      if i == 0 && j > 1 {
        assert t[0].finalScore >= t[j - 1].finalScore;
      }
    }
  }

  lemma {:induction false} InsertTies(x: RankedResult, s: seq<RankedResult>, v: real)
    ensures TieClass(InsertByFinal(x, s), v) == if x.finalScore == v then [x] + TieClass(s, v) else TieClass(s, v)
  {
    if s == [] || s[0].finalScore <= x.finalScore {
      assert ([x] + s)[1..] == s;
    } else {
      InsertTies(x, s[1..], v);
      assert ([s[0]] + InsertByFinal(x, s[1..]))[1..] == InsertByFinal(x, s[1..]);
    }
  }

  /**
   * The sort yields the entries it was given, highest final score first,
   * and entries with equal final scores in the order they were given.
   */
  lemma {:induction false} SortByFinalCorrect(s: seq<RankedResult>)
    ensures SortedByFinal(SortByFinal(s))
    ensures multiset(SortByFinal(s)) == multiset(s)
    ensures forall v :: TieClass(SortByFinal(s), v) == TieClass(s, v)
  {
    if s != [] {
      SortByFinalCorrect(s[1..]);
      InsertKeepsSorted(s[0], SortByFinal(s[1..]));
      InsertPermutes(s[0], SortByFinal(s[1..]));
      assert s == [s[0]] + s[1..];
      forall v
        ensures TieClass(SortByFinal(s), v) == TieClass(s, v)
      {
        InsertTies(s[0], SortByFinal(s[1..]), v);
      }
    }
  }

  /** The search results the entries carry, in order. */
  function ResultsOf(s: seq<RankedResult>): (rs: seq<SearchResult>)
    ensures |rs| == |s|
    ensures forall i :: 0 <= i < |s| ==> rs[i] == s[i].result
  {
    if s == [] then [] else [s[0].result] + ResultsOf(s[1..])
  }

  lemma {:induction false} InsertKeepsResults(x: RankedResult, s: seq<RankedResult>)
    ensures multiset(ResultsOf(InsertByFinal(x, s))) == multiset(ResultsOf(s)) + multiset{x.result}
  {
    if s == [] || s[0].finalScore <= x.finalScore {
      assert ResultsOf([x] + s) == [x.result] + ResultsOf(s);
    } else {
      InsertKeepsResults(x, s[1..]);
      assert ResultsOf(InsertByFinal(x, s)) == [s[0].result] + ResultsOf(InsertByFinal(x, s[1..]));
      assert ResultsOf(s) == [s[0].result] + ResultsOf(s[1..]);
    }
  }

  /** Sorting moves entries but drops and duplicates none of the results they carry. */
  lemma {:induction false} SortKeepsResults(s: seq<RankedResult>)
    ensures multiset(ResultsOf(SortByFinal(s))) == multiset(ResultsOf(s))
  {
    if s != [] {
      SortKeepsResults(s[1..]);
      InsertKeepsResults(s[0], SortByFinal(s[1..]));
      assert ResultsOf(s) == [s[0].result] + ResultsOf(s[1..]);
    }
  }

  /** The entries of `s`, numbered from 1 in order. */
  function Renumbered(s: seq<RankedResult>): (r: seq<RankedResult>)
    ensures |r| == |s|
    ensures forall i :: 0 <= i < |r| ==> r[i] == s[i].(rank := i + 1)
  {
    seq(|s|, i requires 0 <= i < |s| => s[i].(rank := i + 1))
  }

  /**
   * What `Ranker.rank_results` returns: the entries of the results scoring
   * at least `minScore`, sorted by final score and numbered in that order.
   */
  function Ranked(results: seq<SearchResult>, strategy: string, minScore: real, now: Micros): (ranked: seq<RankedResult>)
    ensures |ranked| == |Filtered(results, minScore)|
    ensures forall i :: 0 <= i < |ranked| ==> ranked[i].rank == i + 1
  {
    Renumbered(SortByFinal(Entries(strategy, Filtered(results, minScore), now)))
  }

  /** Every entry of the sorted list is a scored entry of one of the given results. */
  lemma SortedEntriesScored(strategy: string, results: seq<SearchResult>, now: Micros)
    ensures forall e :: e in SortByFinal(Entries(strategy, results, now)) ==>
      e == Entry(strategy, e.result, now, e.rank) && e.result in results
  {
    var entries := Entries(strategy, results, now);
    SortByFinalCorrect(entries);
    forall e | e in SortByFinal(entries)
      ensures e == Entry(strategy, e.result, now, e.rank) && e.result in results
    {
      assert e in multiset(SortByFinal(entries));
      var k :| 0 <= k < |entries| && entries[k] == e;
    }
  }

  /** The ranking is ordered by final score, highest first. */
  lemma RankedSorted(results: seq<SearchResult>, strategy: string, minScore: real, now: Micros)
    ensures SortedByFinal(Ranked(results, strategy, minScore, now))
  {
    SortByFinalCorrect(Entries(strategy, Filtered(results, minScore), now));
  }

  /**
   * Entry `i` of the ranking is ranked `i + 1`, carries a result scoring at
   * least `minScore`, and its three scores are that result's under the strategy.
   */
  lemma RankedScored(results: seq<SearchResult>, strategy: string, minScore: real, now: Micros)
    ensures forall i :: 0 <= i < |Ranked(results, strategy, minScore, now)| ==>
      var e := Ranked(results, strategy, minScore, now)[i];
      e == Entry(strategy, e.result, now, i + 1) && e.result.score >= minScore
  {
    var filtered := Filtered(results, minScore);
    var sorted := SortByFinal(Entries(strategy, filtered, now));
    SortedEntriesScored(strategy, filtered, now);
    assert forall i :: 0 <= i < |sorted| ==> sorted[i] in sorted;
  }

  /** The ranking carries exactly the results that pass the filter, each once. */
  lemma RankedKeepsResults(results: seq<SearchResult>, strategy: string, minScore: real, now: Micros)
    ensures multiset(ResultsOf(Ranked(results, strategy, minScore, now))) == multiset(Filtered(results, minScore))
  {
    var filtered := Filtered(results, minScore);
    var entries := Entries(strategy, filtered, now);
    SortKeepsResults(entries);
    EntriesCarryResults(strategy, filtered, now);
    RenumberedCarriesResults(SortByFinal(entries));
  }

  lemma EntriesCarryResults(strategy: string, results: seq<SearchResult>, now: Micros)
    ensures ResultsOf(Entries(strategy, results, now)) == results
  {
    assert forall i :: 0 <= i < |results| ==> ResultsOf(Entries(strategy, results, now))[i] == results[i];
  }

  lemma RenumberedCarriesResults(s: seq<RankedResult>)
    ensures ResultsOf(Renumbered(s)) == ResultsOf(s)
  {
    assert forall i :: 0 <= i < |s| ==> ResultsOf(Renumbered(s))[i] == ResultsOf(s)[i];
  }

  /**
   * Stability of the whole ranking: the results whose entries tie on a
   * final score appear in the order the filter passed them on, which is
   * their order in the input.
   */
  lemma RankedTiesKeepOrder(results: seq<SearchResult>, strategy: string, minScore: real, now: Micros)
    ensures forall v ::
      ResultsOf(TieClass(Ranked(results, strategy, minScore, now), v)) ==
      ResultsOf(TieClass(Entries(strategy, Filtered(results, minScore), now), v))
  {
    var entries := Entries(strategy, Filtered(results, minScore), now);
    var sorted := SortByFinal(entries);
    SortByFinalCorrect(entries);
    forall v
      ensures ResultsOf(TieClass(Renumbered(sorted), v)) == ResultsOf(TieClass(entries, v))
    {
      SameScoresSameTies(Renumbered(sorted), sorted, v);
    }
  }

  /** Entries with the same results and final scores, position by position, have the same tie classes' results. */
  lemma {:induction false} SameScoresSameTies(s: seq<RankedResult>, t: seq<RankedResult>, v: real)
    requires |s| == |t|
    requires forall i :: 0 <= i < |s| ==> s[i].finalScore == t[i].finalScore && s[i].result == t[i].result
    ensures ResultsOf(TieClass(s, v)) == ResultsOf(TieClass(t, v))
  {
    if s != [] {
      SameScoresSameTies(s[1..], t[1..], v);
      if s[0].finalScore == v {
        ResultsOfCons(s[0], TieClass(s[1..], v));
        ResultsOfCons(t[0], TieClass(t[1..], v));
      }
    }
  }

  lemma ResultsOfCons(x: RankedResult, s: seq<RankedResult>)
    ensures ResultsOf([x] + s) == [x.result] + ResultsOf(s)
  {
    assert ([x] + s)[1..] == s;
  }

  /**
   * `Ranker.rank_results`. `now` stands for the clock the recency scores
   * read; the source reads it once per score, the model once per call.
   */
  method RankResults(results: seq<SearchResult>, now: Micros, strategy: string := DefaultStrategy,
                     minScore: real := DefaultMinScore)
    returns (ranked: seq<RankedResult>)
    ensures ranked == Ranked(results, strategy, minScore, now)
  {
    var filtered := Filtered(results, minScore);
    var entries: seq<RankedResult> := [];
    var n := 0;
    while n < |filtered|
      invariant 0 <= n <= |filtered|
      invariant entries == Entries(strategy, filtered[..n], now)
    {
      entries := entries + [Entry(strategy, filtered[n], now, n + 1)];
      assert filtered[..n + 1] == filtered[..n] + [filtered[n]];
      n := n + 1;
    }
    assert filtered[..n] == filtered;
    ranked := Renumber(SortByFinal(entries));
  }

  /** The rank loop of `rank_results`: numbers the entries 1, 2, ... in place. */
  method Renumber(sorted: seq<RankedResult>) returns (ranked: seq<RankedResult>)
    ensures ranked == Renumbered(sorted)
  {
    ranked := sorted;
    var i := 0;
    while i < |ranked|
      invariant 0 <= i <= |ranked| == |sorted|
      invariant forall j :: 0 <= j < i ==> ranked[j] == sorted[j].(rank := j + 1)
      invariant forall j :: i <= j < |ranked| ==> ranked[j] == sorted[j]
    {
      ranked := ranked[i := ranked[i].(rank := i + 1)];
      i := i + 1;
    }
  }

  /** The entries of `results` numbered 1, 2, ... in order. */
  function Entries(strategy: string, results: seq<SearchResult>, now: Micros): (es: seq<RankedResult>)
    ensures |es| == |results|
    ensures forall i :: 0 <= i < |es| ==> es[i] == Entry(strategy, results[i], now, i + 1)
  {
    if results == [] then []
    else Entries(strategy, results[..|results| - 1], now) + [Entry(strategy, results[|results| - 1], now, |results|)]
  }
}

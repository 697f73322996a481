/**
 * The search decision: which queries are accepted, and the parameters a
 * search is run with.
 */
module Searcher {
  import opened PyText
  import opened Schemas

  /** The longest query accepted, in characters. */
  const MaxQueryLength: int := 500

  /** The score below which a hit is not worth showing. */
  const MinScoreThreshold: real := 0.3

  /** Characters a query may not contain. */
  predicate IsForbidden(c: char): (forbidden: bool)
    ensures forbidden <==> c in ['<', '>', '{', '}', '|', '&']
  {
    c == '<' || c == '>' || c == '{' || c == '}' || c == '|' || c == '&'
  }

  /** A query is accepted when it is non-empty, at most 500 characters long and free of the forbidden characters. */
  predicate QueryAccepted(query: string): (accepted: bool)
    ensures accepted ==> query != [] && forall c :: c in query ==> c !in "<>{}|&"
  {
    0 < |query| <= MaxQueryLength && forall i :: 0 <= i < |query| ==> !IsForbidden(query[i])
  }

  /** `Searcher.validate_query`: checks the length, then scans for a forbidden character. */
  method ValidateQuery(query: string) returns (ok: bool)
    ensures ok <==> QueryAccepted(query)
  {
    if |query| == 0 {
      return false;
    }
    if |query| > MaxQueryLength {
      return false;
    }
    var i := 0;
    while i < |query|
      invariant 0 <= i <= |query|
      invariant forall j :: 0 <= j < i ==> !IsForbidden(query[j])
    {
      if IsForbidden(query[i]) {
        return false;
      }
      i := i + 1;
    }
    return true;
  }

  /** The parameters of a search. */
  datatype SearchDecision = SearchDecision(query: string, topK: int, minScoreThreshold: real, applyDiversity: bool)

  /**
   * `Searcher.make_search_decision`: the query and `topK` as given, the
   * fixed score threshold, and diversity for queries of more than three words.
   */
  function MakeSearchDecision(query: string, topK: int := DefaultTopK): (d: SearchDecision)
    ensures d.query == query && d.topK == topK && d.minScoreThreshold == MinScoreThreshold
    ensures d.applyDiversity <==> TokenCount(query) > 3
  {
    SearchDecision(query, topK, MinScoreThreshold, TokenCount(query) > 3)
  }

  /** Diversity needs at least seven characters: four words and three separators. */
  lemma DiversityNeedsFourWords(query: string)
    requires MakeSearchDecision(query).applyDiversity
    ensures |query| >= 7
  {
    FourTokensNeedSevenChars(query, TokenCount(query));
  }

  lemma {:induction false} FourTokensNeedSevenChars(s: string, n: nat)
    requires n == TokenCount(s)
    ensures |s| >= 2 * n - 1
    decreases |s|
  {
    if s != [] {
      if IsSpace(s[0]) {
        FourTokensNeedSevenChars(s[1..], TokenCount(s[1..]));
      } else {
        var r := NonSpaceRun(s);
        FourTokensNeedSevenChars(s[r..], TokenCount(s[r..]));
        if TokenCount(s[r..]) > 0 {
          assert r < |s| && IsSpace(s[r]);
          assert TokenCount(s[r..]) == TokenCount(s[r + 1..]) by {
            assert s[r..][1..] == s[r + 1..];
          }
          FourTokensNeedSevenChars(s[r + 1..], TokenCount(s[r + 1..]));
        }
      }
    }
  }
}

/**
 * The extension's background worker: which tab urls are sent for indexing,
 * and which frame's extracted text stands for the page.
 */
module Background {
  import opened Optional
  import opened PyText

  /** Url fragments whose pages are never indexed, for privacy. */
  const SkipDomains: seq<string> := [
    "mail.google.com",
    "web.whatsapp.com",
    "accounts.google.com",
    "accounts.microsoft.com",
    "github.com/login",
    "login.facebook.com",
    "banking",
    "signin",
    "login"
  ]

  /**
   * A url is indexed when it is present and non-empty, is not a browser or
   * extension page, and contains none of the skipped fragments anywhere.
   */
  predicate ShouldIndex(url: Option<string>): (accepted: bool)
    ensures accepted ==> url.Some? && url.value != [] && !Contains(url.value, "login")
  {
    assert SkipDomains[8] == "login";
    && url.Some? && url.value != []
    && !StartsWith(url.value, "chrome://")
    && !StartsWith(url.value, "chrome-extension://")
    && forall i :: 0 <= i < |SkipDomains| ==> !Contains(url.value, SkipDomains[i])
  }

  /** `shouldIndexUrl`: the checks in order, returning at the first that rejects. */
  method ShouldIndexUrl(url: Option<string>) returns (ok: bool)
    ensures ok <==> ShouldIndex(url)
  {
    if url.None? || url.value == [] {
      return false;
    }
    var u := url.value;
    if StartsWith(u, "chrome://") || StartsWith(u, "chrome-extension://") {
      return false;
    }
    for i := 0 to |SkipDomains|
      invariant forall j :: 0 <= j < i ==> !Contains(u, SkipDomains[j])
    {
      if Contains(u, SkipDomains[i]) {
        return false;
      }
    }
    return true;
  }

  /** A substring of a substring is a substring. */
  lemma ContainsTransitive(s: string, mid: string, sub: string)
    requires Contains(s, mid) && Contains(mid, sub)
    ensures Contains(s, sub)
  {
    var i :| 0 <= i <= |s| && StartsWith(s[i..], mid);
    var j :| 0 <= j <= |mid| && StartsWith(mid[j..], sub);
    var m := s[i..i + |mid|];
    assert m == mid by {
      assert s[i..][..|mid|] == m;
    }
    assert mid[j..j + |sub|] == sub by {
      assert mid[j..][..|sub|] == mid[j..j + |sub|];
    }
    assert m[j..j + |sub|] == s[i + j..i + j + |sub|];
    assert OccursAt(s, sub, i + j);
    ContainsOccurs(s, sub, i + j);
  }

  /** Any url containing "login" is skipped, wherever the word appears. */
  lemma LoginNeverIndexed(url: string)
    requires Contains(url, "login")
    ensures !ShouldIndex(Some(url))
  {
    assert SkipDomains[8] == "login";
  }

  /**
   * The "github.com/login" and "login.facebook.com" entries never decide
   * anything: every url they catch is caught by "login" as well.
   */
  lemma LoginEntriesRedundant(url: string)
    requires Contains(url, "github.com/login") || Contains(url, "login.facebook.com")
    ensures Contains(url, "login")
  {
    if Contains(url, "github.com/login") {
      assert StartsWith("github.com/login"[11..], "login");
      ContainsTransitive(url, "github.com/login", "login");
    } else {
      assert StartsWith("login.facebook.com"[0..], "login");
      ContainsTransitive(url, "login.facebook.com", "login");
    }
  }

  /** What the extraction script returns for one frame. */
  datatype Extracted = Extracted(url: string, title: string, content: string, timestamp: string, frame: string)

  /** A frame result with real content: present, non-empty and not the placeholder text. */
  predicate Qualifies(r: Option<Extracted>) {
    r.Some? && r.value.content != [] && r.value.content != "No content found"
  }

  /**
   * The frame selection of `extractPageContent`. `results` is None where the
   * script returned no array, and each frame is None where it returned
   * nothing. The choice is the qualifying frame with the longest content,
   * the earliest one among equals; None where no frame qualifies.
   */
  method SelectBestFrame(results: Option<seq<Option<Extracted>>>) returns (best: Option<Extracted>, ghost at: nat)
    ensures results.None? ==> best.None?
    ensures results.Some? ==> (best.None? <==> forall j :: 0 <= j < |results.value| ==> !Qualifies(results.value[j]))
    ensures best.Some? ==>
      && results.Some? && at < |results.value|
      && Qualifies(results.value[at]) && results.value[at].value == best.value
      && (forall j :: 0 <= j < |results.value| && Qualifies(results.value[j]) ==>
            |results.value[j].value.content| <= |best.value.content|)
      && (forall j :: 0 <= j < at && Qualifies(results.value[j]) ==>
            |results.value[j].value.content| < |best.value.content|)
  {
    best, at := None, 0;
    if results.None? {
      return;
    }
    var rs := results.value;
    for i := 0 to |rs|
      invariant best.None? <==> forall j :: 0 <= j < i ==> !Qualifies(rs[j])
      invariant best.Some? ==>
        && at < i && Qualifies(rs[at]) && rs[at].value == best.value
        && (forall j :: 0 <= j < i && Qualifies(rs[j]) ==> |rs[j].value.content| <= |best.value.content|)
        && (forall j :: 0 <= j < at && Qualifies(rs[j]) ==> |rs[j].value.content| < |best.value.content|)
    {
      var r := rs[i];
      if r.Some? && r.value.content != [] && r.value.content != "No content found" {
        if best.None? || |r.value.content| > |best.value.content| {
          best, at := r, i;
        }
      }
    }
  }
}

/**
 * The extension's content script: escaping a search text for use in a
 * regular expression, and highlighting its case-insensitive occurrences in
 * the page's text nodes.
 */
module ContentScript {
  import opened Optional
  import opened PyText
  import opened Seqs

  /** The characters `escapeRegExp` escapes. */
  predicate IsRegExpSpecial(c: char) {
    c in ".*+?^${}()|[]\\"
  }

  /** `escapeRegExp`: every special character gets a backslash in front of it. */
  function EscapeRegExp(s: string): (r: string)
    ensures |r| == |s| + SpecialCount(s)
  {
    if s == [] then []
    else (if IsRegExpSpecial(s[0]) then ['\\', s[0]] else [s[0]]) + EscapeRegExp(s[1..])
  }

  /** The number of special characters in `s`. */
  function SpecialCount(s: string): nat {
    if s == [] then 0 else (if IsRegExpSpecial(s[0]) then 1 else 0) + SpecialCount(s[1..])
  }

  /** Drops the backslash in front of each special character. */
  function Unescape(r: string): string {
    if r == [] then []
    else if r[0] == '\\' && |r| >= 2 && IsRegExpSpecial(r[1]) then [r[1]] + Unescape(r[2..])
    else [r[0]] + Unescape(r[1..])
  }

  /** Removing the inserted backslashes recovers the input. */
  lemma {:induction false} UnescapeEscape(s: string)
    ensures Unescape(EscapeRegExp(s)) == s
  {
    if s != [] {
      var r := EscapeRegExp(s);
      UnescapeEscape(s[1..]);
      if IsRegExpSpecial(s[0]) {
        assert r == ['\\', s[0]] + EscapeRegExp(s[1..]);
        assert r[2..] == EscapeRegExp(s[1..]);
      } else {
        assert r == [s[0]] + EscapeRegExp(s[1..]);
        assert r[1..] == EscapeRegExp(s[1..]);
      }
    }
  }

  /** A text without special characters is left as it is. */
  lemma {:induction false} EscapeKeepsOrdinary(s: string)
    requires forall i :: 0 <= i < |s| ==> !IsRegExpSpecial(s[i])
    ensures EscapeRegExp(s) == s
  {
    if s != [] {
      EscapeKeepsOrdinary(s[1..]);
    }
  }

  /** `toLowerCase` on one character, for the ASCII letters. */
  function LowerChar(c: char): char {
    if 'A' <= c <= 'Z' then (c as int + 32) as char else c
  }

  /** `s.toLowerCase()`. */
  function Lower(s: string): (r: string)
    ensures |r| == |s|
    ensures forall i :: 0 <= i < |s| ==> r[i] == LowerChar(s[i])
  {
    seq(|s|, i requires 0 <= i < |s| => LowerChar(s[i]))
  }

  lemma LowerSlice(s: string, a: int, b: int)
    requires 0 <= a <= b <= |s|
    ensures Lower(s[a..b]) == Lower(s)[a..b]
  {
  }

  /** The characters `String.prototype.trim` removes. */
  predicate IsJsSpace(c: char) {
    || c == '\t' || c == '\n' || c == '\U{0b}' || c == '\U{0c}' || c == '\r' || c == ' '
    || c == '\U{a0}' || c == '\U{1680}' || ('\U{2000}' <= c <= '\U{200a}')
    || c == '\U{2028}' || c == '\U{2029}' || c == '\U{202f}' || c == '\U{205f}' || c == '\U{3000}' || c == '\U{feff}'
  }

  /** A search text worth highlighting: present, and not empty once trimmed. */
  predicate Searchable(searchText: Option<string>): (searchable: bool)
    ensures searchable ==> searchText.Some? && searchText.value != []
    ensures searchText.Some? && searchText.value != [] && !IsJsSpace(searchText.value[0]) ==> searchable
  {
    searchText.Some? && exists i :: 0 <= i < |searchText.value| && !IsJsSpace(searchText.value[i])
  }

  /**
   * `text.split(new RegExp("(" + escapeRegExp(needle) + ")", "gi"))`: the
   * text between case-insensitive occurrences of `needle`, found from the
   * left, with each occurrence itself kept as the piece after the text before it.
   */
  function SplitKeeping(text: string, needle: string): (parts: seq<string>)
    requires needle != []
    ensures |parts| >= 1
    decreases |text|
  {
    match FirstFrom(Lower(text), Lower(needle), 0)
    case None => [text]
    case Some(p) => [text[..p], text[p..p + |needle|]] + SplitKeeping(text[p + |needle|..], needle)
  }

  function Concat(parts: seq<string>): string {
    if parts == [] then [] else parts[0] + Concat(parts[1..])
  }

  lemma ConcatAppend(a: seq<string>, b: seq<string>)
    ensures Concat(a + b) == Concat(a) + Concat(b)
  {
    if a != [] {
      assert (a + b)[1..] == a[1..] + b;
    } else {
      assert a + b == b;
    }
  }

  lemma ConcatPair(a: string, b: string)
    ensures Concat([a, b]) == a + b
  {
    assert [a, b][1..] == [b] && [b][1..] == [];
    assert Concat([b]) == b + Concat([]);
  }

  /** The pieces of the split, concatenated in order, are the text. */
  lemma {:induction false} SplitKeepingConcat(text: string, needle: string)
    requires needle != []
    ensures Concat(SplitKeeping(text, needle)) == text
    decreases |text|
  {
    var parts := SplitKeeping(text, needle);
    var f := FirstFrom(Lower(text), Lower(needle), 0);
    if f.None? {
      assert parts == [text];
      assert Concat(parts[1..]) == [];
    } else {
      var p := f.value;
      var rest := text[p + |needle|..];
      var head := [text[..p], text[p..p + |needle|]];
      var tail := SplitKeeping(rest, needle);
      assert parts == head + tail;
      calc {
        Concat(head + tail);
        == { ConcatAppend(head, tail); }
        Concat(head) + Concat(tail);
        == { ConcatPair(text[..p], text[p..p + |needle|]); SplitKeepingConcat(rest, needle); }
        text[..p] + text[p..p + |needle|] + rest;
        == { ThreeSlices(text, p, p + |needle|); }
        text;
      }
    }
  }

  /**
   * The odd pieces are equal to `needle` up to case; the even pieces hold
   * no occurrence of it, so none of them equals `needle` up to case.
   */
  predicate Alternating(parts: seq<string>, needle: string) {
    forall i :: 0 <= i < |parts| ==>
      && (i % 2 == 1 ==> Lower(parts[i]) == Lower(needle))
      && (i % 2 == 0 ==> !Contains(Lower(parts[i]), Lower(needle)))
  }

  lemma AlternatingCons(before: string, found: string, tail: seq<string>, needle: string)
    requires !Contains(Lower(before), Lower(needle)) && Lower(found) == Lower(needle)
    requires Alternating(tail, needle)
    ensures Alternating([before, found] + tail, needle)
  {
    var parts := [before, found] + tail;
    forall i | 2 <= i < |parts|
      ensures i % 2 == 1 ==> Lower(parts[i]) == Lower(needle)
      ensures i % 2 == 0 ==> !Contains(Lower(parts[i]), Lower(needle))
    {
      assert parts[i] == tail[i - 2];
    }
  }

  /** The split alternates between text without occurrences and the occurrences themselves. */
  lemma {:induction false} SplitKeepingPieces(text: string, needle: string)
    requires needle != []
    ensures Alternating(SplitKeeping(text, needle), needle)
    decreases |text|
  {
    var parts := SplitKeeping(text, needle);
    var low, lowNeedle := Lower(text), Lower(needle);
    var f := FirstFrom(low, lowNeedle, 0);
    if f.None? {
      assert parts == [text];
      ContainsOccurs(low, lowNeedle, 0);
    } else {
      var p := f.value;
      var rest := text[p + |needle|..];
      SplitKeepingPieces(rest, needle);
      assert parts == [text[..p], text[p..p + |needle|]] + SplitKeeping(rest, needle);
      LowerSlice(text, p, p + |needle|);
      PrefixBeforeFirst(text, needle, p);
      AlternatingCons(text[..p], text[p..p + |needle|], SplitKeeping(rest, needle), needle);
    }
  }

  /** The split has an odd number of pieces: it starts and ends with text around the occurrences. */
  lemma {:induction false} SplitKeepingOdd(text: string, needle: string)
    requires needle != []
    ensures |SplitKeeping(text, needle)| % 2 == 1
    decreases |text|
  {
    var parts := SplitKeeping(text, needle);
    var f := FirstFrom(Lower(text), Lower(needle), 0);
    if f.Some? {
      var p := f.value;
      var rest := text[p + |needle|..];
      SplitKeepingOdd(rest, needle);
      assert |parts| == |SplitKeeping(rest, needle)| + 2;
      OddPlusTwo(|SplitKeeping(rest, needle)|);
    }
  }

  lemma OddPlusTwo(t: int)
    requires t % 2 == 1
    ensures (t + 2) % 2 == 1
  {
  }

  /** The text before the first occurrence holds no occurrence. */
  lemma PrefixBeforeFirst(text: string, needle: string, p: nat)
    requires needle != []
    requires FirstFrom(Lower(text), Lower(needle), 0) == Some(p)
    ensures !Contains(Lower(text[..p]), Lower(needle))
  {
    var low, lowNeedle := Lower(text), Lower(needle);
    LowerSlice(text, 0, p);
    var before := Lower(text[..p]);
    forall j | 0 <= j ensures !OccursAt(before, lowNeedle, j) {
      if j + |lowNeedle| <= p {
        assert before[j..j + |lowNeedle|] == low[j..j + |lowNeedle|];
        assert !OccursAt(low, lowNeedle, j);
      }
    }
    ContainsOccurs(before, lowNeedle, 0);
  }

  /** A piece of a highlighted text node. */
  datatype Piece = Plain(text: string) | Highlight(text: string)

  /** What becomes of one text node. */
  datatype NodeResult = Unchanged(text: string) | Replaced(pieces: seq<Piece>)

  /**
   * A piece becomes a highlight span exactly when it equals the search text
   * up to case; either way it keeps its text, and a highlight is as long as
   * the search text.
   */
  function PieceOf(part: string, searchText: string): (piece: Piece)
    ensures PieceText(piece) == part
    ensures piece.Highlight? ==> |part| == |searchText|
  {
    if Lower(part) == Lower(searchText) then Highlight(part) else Plain(part)
  }

  /**
   * One text node: left alone unless its lower-cased text contains the
   * lower-cased search text, otherwise replaced by the pieces of the split.
   */
  function NodeOutcome(text: string, searchText: string): (result: NodeResult)
    requires searchText != []
    ensures result.Unchanged? ==> result.text == text
    ensures result.Replaced? <==> Contains(Lower(text), Lower(searchText))
    ensures result.Replaced? ==> |result.pieces| == |SplitKeeping(text, searchText)|
    ensures result.Replaced? ==>
      forall i :: 0 <= i < |result.pieces| ==> PieceText(result.pieces[i]) == SplitKeeping(text, searchText)[i]
  {
    if Contains(Lower(text), Lower(searchText)) then
      var parts := SplitKeeping(text, searchText);
      Replaced(seq(|parts|, i requires 0 <= i < |parts| => PieceOf(parts[i], searchText)))
    else Unchanged(text)
  }

  function PieceText(p: Piece): string {
    match p
    case Plain(t) => t
    case Highlight(t) => t
  }

  function Texts(pieces: seq<Piece>): (ts: seq<string>)
    ensures |ts| == |pieces|
    ensures forall i :: 0 <= i < |pieces| ==> ts[i] == PieceText(pieces[i])
  {
    seq(|pieces|, i requires 0 <= i < |pieces| => PieceText(pieces[i]))
  }

  lemma SelfContains(s: string)
    ensures Contains(s, s)
  {
    assert OccursAt(s, s, 0) by {
      assert s[0..|s|] == s;
    }
    ContainsOccurs(s, s, 0);
  }

  /**
   * In a replaced node, the pieces concatenated in order are the node's
   * text; exactly the odd pieces are highlights, and there is at least one.
   */
  lemma ReplacedNode(text: string, searchText: string)
    requires searchText != []
    ensures NodeOutcome(text, searchText).Replaced? <==> Contains(Lower(text), Lower(searchText))
    ensures var n := NodeOutcome(text, searchText);
      n.Replaced? ==>
        && Concat(Texts(n.pieces)) == text
        && |n.pieces| >= 3
        && forall i :: 0 <= i < |n.pieces| ==> (n.pieces[i].Highlight? <==> i % 2 == 1)
  {
    if Contains(Lower(text), Lower(searchText)) {
      var parts := SplitKeeping(text, searchText);
      var n := NodeOutcome(text, searchText);
      SplitKeepingConcat(text, searchText);
      SplitKeepingPieces(text, searchText);
      assert Texts(n.pieces) == parts;
      ContainsOccurs(Lower(text), Lower(searchText), 0);
      assert |parts| >= 3;
      forall i | 0 <= i < |n.pieces|
        ensures n.pieces[i].Highlight? <==> i % 2 == 1
      {
        if i % 2 == 0 {
          SelfContains(Lower(searchText));
        }
      }
    }
  }

  /**
   * `highlightTextOnPage` over the text nodes of the page. A search text
   * that is missing or blank changes no node. Otherwise every node gets
   * its outcome, and `firstMatch` is the first node that was replaced (the
   * node holding the span scrolled into view).
   */
  method HighlightTextOnPage(searchText: Option<string>, nodes: seq<string>)
    returns (out: seq<NodeResult>, firstMatch: Option<nat>)
    ensures |out| == |nodes|
    ensures !Searchable(searchText) ==> firstMatch == None && forall i :: 0 <= i < |nodes| ==> out[i] == Unchanged(nodes[i])
    ensures Searchable(searchText) ==> forall i :: 0 <= i < |nodes| ==> out[i] == NodeOutcome(nodes[i], searchText.value)
    ensures FirstReplaced(out, firstMatch, |out|)
  {
    out := seq(|nodes|, i requires 0 <= i < |nodes| => Unchanged(nodes[i]));
    firstMatch := None;
    if searchText.None? || searchText.value == [] {
      return;
    }
    var search := searchText.value;
    var blank := IsBlank(search);
    if blank {
      return;
    }
    for i := 0 to |nodes|
      invariant WalkedTo(out, nodes, search, i)
      invariant FirstReplaced(out, firstMatch, i)
    {
      var outcome := HighlightNode(nodes[i], search);
      WalkStep(out, nodes, search, i);
      FirstReplacedStep(out, firstMatch, i, outcome);
      out := out[i := outcome];
      if outcome.Replaced? && firstMatch.None? {
        firstMatch := Some(i);
      }
    }
  }

  /** The walk has handled the first `i` nodes; the rest are as they were. */
  predicate WalkedTo(out: seq<NodeResult>, nodes: seq<string>, search: string, i: nat)
    requires search != []
  {
    && i <= |nodes| == |out|
    && (forall j :: 0 <= j < i ==> out[j] == NodeOutcome(nodes[j], search))
    && (forall j :: i <= j < |nodes| ==> out[j] == Unchanged(nodes[j]))
  }

  lemma WalkStep(out: seq<NodeResult>, nodes: seq<string>, search: string, i: nat)
    requires search != [] && WalkedTo(out, nodes, search, i) && i < |nodes|
    ensures WalkedTo(out[i := NodeOutcome(nodes[i], search)], nodes, search, i + 1)
  {
  }

  lemma FirstReplacedStep(out: seq<NodeResult>, firstMatch: Option<nat>, i: nat, outcome: NodeResult)
    requires FirstReplaced(out, firstMatch, i) && i < |out|
    ensures FirstReplaced(out[i := outcome],
                          if outcome.Replaced? && firstMatch.None? then Some(i) else firstMatch, i + 1)
  {
  }

  /**
   * `firstMatch` is the first of the first `bound` nodes that was replaced
   * (the node whose span is scrolled into view), or None when none was.
   */
  predicate FirstReplaced(out: seq<NodeResult>, firstMatch: Option<nat>, bound: nat) {
    && bound <= |out|
    && (firstMatch.Some? ==> firstMatch.value < bound && out[firstMatch.value].Replaced?)
    && forall i :: 0 <= i < bound && (firstMatch.None? || i < firstMatch.value) ==> out[i].Unchanged?
  }

  /** The `trim()` test: every character of `search` is whitespace. */
  method IsBlank(search: string) returns (blank: bool)
    ensures blank <==> forall j :: 0 <= j < |search| ==> IsJsSpace(search[j])
  {
    blank := true;
    for i := 0 to |search|
      invariant blank <==> forall j :: 0 <= j < i ==> IsJsSpace(search[j])
    {
      if !IsJsSpace(search[i]) {
        blank := false;
      }
    }
  }

  /** One text node of the walk: split and highlighted when it holds the search text. */
  method HighlightNode(text: string, search: string) returns (outcome: NodeResult)
    requires search != []
    ensures outcome == NodeOutcome(text, search)
  {
    if Contains(Lower(text), Lower(search)) {
      var parts := SplitKeeping(text, search);
      outcome := Replaced(seq(|parts|, i requires 0 <= i < |parts| => PieceOf(parts[i], search)));
    } else {
      outcome := Unchanged(text);
    }
  }
}

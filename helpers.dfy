/** The text helper the search results use. */
module Helpers {
  import opened PyText

  /** The length `truncate_text` cuts at when none is given. */
  const DefaultTruncateLength: int := 100

  /**
   * `truncate_text`: a text no longer than `length` is returned as it is;
   * a longer one is cut with `text[:length]` and marked with "...". A
   * negative `length` cuts that many characters off the end, as Python slices do.
   */
  function TruncateText(text: string, length: int := DefaultTruncateLength): (r: string)
    ensures |text| <= length ==> r == text
    ensures |text| > length ==> r == SliceTo(text, length) + "..."
  {
    if |text| <= length then text else SliceTo(text, length) + "..."
  }

  /**
   * For a non-negative length the result starts with the text's first
   * characters, is at most `length + 3` long, and is exactly `length + 3`
   * long, ending in "...", when the text was cut.
   */
  lemma TruncateShape(text: string, length: nat)
    ensures var r := TruncateText(text, length);
      && |r| <= Max(|text|, length + 3)
      && r[..Min(|text|, length)] == text[..Min(|text|, length)]
      && (|text| > length <==> |r| == length + 3)
      && (|text| > length ==> r[length..] == "...")
  {
  }

  /** With a non-negative length, truncating a truncated text changes nothing. */
  lemma TruncateIdempotent(text: string, length: nat)
    ensures TruncateText(TruncateText(text, length), length) == TruncateText(text, length)
  {
    if |text| > length {
      var r := TruncateText(text, length);
      assert r[..length] == text[..length];
    }
  }

  /**
   * Without a length, a text of at most 100 characters is kept and a longer
   * one becomes its first 100 characters and "...".
   */
  lemma DefaultTruncation(text: string)
    ensures |text| <= 100 ==> TruncateText(text) == text
    ensures |text| > 100 ==> TruncateText(text) == text[..100] + "..." && |TruncateText(text)| == 103
  {
  }
}

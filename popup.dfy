/**
 * The popup's date labels: how long ago a result's timestamp was, in
 * whole days rounded up, shown as today, yesterday, days, weeks or months.
 * Times are milliseconds on one clock; a timestamp the browser cannot
 * parse is None.
 */
module Popup {
  import opened Optional
  import opened PyText

  const MsPerDay: int := 86_400_000

  function Abs(x: int): nat {
    if x < 0 then -x else x
  }

  /** `Math.ceil(Math.abs(now - date) / (1000 * 60 * 60 * 24))` */
  function DiffDays(now: int, date: int): (n: nat)
    ensures n == 0 <==> now == date
    ensures n > 0 ==> (n - 1) * MsPerDay < Abs(now - date) <= n * MsPerDay
  {
    var d := Abs(now - date);
    var n := (d + MsPerDay - 1) / MsPerDay;
    CeilBracket(d, n);
    n
  }

  /** The rounded-up quotient brackets the distance. */
  lemma CeilBracket(d: nat, n: int)
    requires n == (d + MsPerDay - 1) / MsPerDay
    ensures n >= 0
    ensures n == 0 <==> d == 0
    ensures n > 0 ==> (n - 1) * MsPerDay < d <= n * MsPerDay
  {
    var r := (d + MsPerDay - 1) % MsPerDay;
    assert d + MsPerDay - 1 == n * MsPerDay + r;
    if n > 0 {
      assert (n - 1) * MsPerDay == n * MsPerDay - MsPerDay;
    }
  }

  /** The label of a distance of `n` days, as the branches of `formatDate` choose it. */
  function DayLabel(n: nat): (text: string)
    ensures text == "Today" <==> n == 0
    ensures text == "Yesterday" <==> n == 1
    ensures n >= 2 ==> text != [] && IsDigit(text[0])
  {
    var k := if n < 7 then n else if n < 30 then n / 7 else n / 30;
    assert n >= 2 ==> (if n < 7 then Decimal(n) + " days ago" else if n < 30 then Decimal(n / 7) + " weeks ago"
                       else Decimal(n / 30) + " months ago")[0] == Decimal(k)[0];
    if n == 0 then "Today"
    else if n == 1 then "Yesterday"
    else if n < 7 then Decimal(n) + " days ago"
    else if n < 30 then Decimal(n / 7) + " weeks ago"
    else Decimal(n / 30) + " months ago"
  }

  /**
   * `formatDate` at time `now`, as written. An unparsable timestamp makes
   * every comparison with the day count false, so it falls through to the
   * last branch and shows "NaN months ago"; the `catch` that returns
   * "Unknown" is never reached, since nothing in the body throws.
   */
  function FormatDate(now: int, date: Option<int>): (shown: string)
    ensures date == Some(now) ==> shown == "Today"
    ensures date.Some? && 0 < Abs(now - date.value) <= MsPerDay ==> shown == "Yesterday"
    ensures date.None? ==> shown == "NaN months ago"
  {
    if date.None? then "NaN months ago" else DayLabel(DiffDays(now, date.value))
  }

  /** A label reads the same for a date `d` before `now` as for `d` after it. */
  lemma PastAndFutureAlike(now: int, d: int)
    ensures FormatDate(now, Some(now - d)) == FormatDate(now, Some(now + d))
  {
  }

  /** "Today" is exactly the same instant, and "Yesterday" exactly a gap of at most one day. */
  lemma TodayAndYesterday(now: int, date: int)
    ensures FormatDate(now, Some(date)) == "Today" <==> now == date
    ensures FormatDate(now, Some(date)) == "Yesterday" <==> 0 < Abs(now - date) <= MsPerDay
  {
  }

  /**
   * 7 to 29 days read as one to four weeks (never a singular form), and 30
   * days or more as at least one month.
   */
  lemma DayBuckets(n: nat)
    ensures 7 <= n < 30 ==> exists w :: 1 <= w <= 4 && DayLabel(n) == Decimal(w) + " weeks ago"
    ensures 30 <= n ==> exists m :: 1 <= m && DayLabel(n) == Decimal(m) + " months ago"
  {
    if 7 <= n < 30 {
      assert 1 <= n / 7 <= 4 && DayLabel(n) == Decimal(n / 7) + " weeks ago";
    } else if 30 <= n {
      assert 1 <= n / 30 && DayLabel(n) == Decimal(n / 30) + " months ago";
    }
  }

  /** What `formatDate` evidently means to do: "Unknown" for a timestamp that cannot be read. */
  function FormatDateOrUnknown(now: int, date: Option<int>): (shown: string)
    ensures date.None? ==> shown == "Unknown"
    ensures date.Some? ==> shown == FormatDate(now, date)
  {
    if date.None? then "Unknown" else DayLabel(DiffDays(now, date.value))
  }

  /** The corrected labels never show "NaN": every label is one of the five forms or "Unknown". */
  lemma CorrectedLabelHasNoNaN(now: int, date: Option<int>)
    ensures FormatDateOrUnknown(now, date) != FormatDate(now, None)
  {
    var shown := FormatDateOrUnknown(now, date);
    if date.Some? && DiffDays(now, date.value) >= 2 {
      assert shown[0] != 'N';
    }
  }
}

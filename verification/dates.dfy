/**
 * `formatar_data`: reading a `dd/mm/yyyy` text as a calendar date, or nothing.
 *
 * The function hands the text to `datetime.strptime(text, '%d/%m/%Y')` and turns
 * every `ValueError` into `None`. That parser matches the whole text against the
 * directive patterns
 *   %d  =  3[01] | [12]digit | 0[1-9] | [1-9] | space[1-9]
 *   %m  =  1[0-2] | 0[1-9] | [1-9]
 *   %Y  =  four digits
 * separated by the literal slashes, and then builds a `date`, which refuses a
 * year outside 1..9999 and a day past the end of its month (Gregorian leap years).
 * No directive pattern contains a slash, so the day is exactly the text before
 * the first slash, the month the text between the first and the second, and the
 * year the rest: the parse below splits on slashes and checks the three pieces.
 */
module Dates {
  import opened Wrappers
  import opened Text

  datatype Date = Date(year: int, month: int, day: int)

  predicate IsLeapYear(y: int) {
    y % 4 == 0 && (y % 100 != 0 || y % 400 == 0)
  }

  function DaysInMonth(y: int, m: int): (n: int)
    requires 1 <= m <= 12
    ensures 28 <= n <= 31
  {
    if m == 2 then (if IsLeapYear(y) then 29 else 28)
    else if m == 4 || m == 6 || m == 9 || m == 11 then 30
    else 31
  }

  /** The dates `datetime.date` accepts: years 1 to 9999 and real days of real months. */
  predicate ValidDate(d: Date) {
    1 <= d.year <= 9999 && 1 <= d.month <= 12 && 1 <= d.day <= DaysInMonth(d.year, d.month)
  }

  /** The texts `%d` matches. */
  predicate DayToken(t: string) {
    || (|t| == 2 && t[0] == '3' && '0' <= t[1] <= '1')
    || (|t| == 2 && '1' <= t[0] <= '2' && IsDigit(t[1]))
    || (|t| == 2 && t[0] == '0' && '1' <= t[1] <= '9')
    || (|t| == 1 && '1' <= t[0] <= '9')
    || (|t| == 2 && t[0] == ' ' && '1' <= t[1] <= '9')
  }

  /** The texts `%m` matches. */
  predicate MonthToken(t: string) {
    || (|t| == 2 && t[0] == '1' && '0' <= t[1] <= '2')
    || (|t| == 2 && t[0] == '0' && '1' <= t[1] <= '9')
    || (|t| == 1 && '1' <= t[0] <= '9')
  }

  /** The number a day or month token stands for (a leading space or zero adds nothing). */
  function TokenValue(t: string): (v: nat)
    requires DayToken(t) || MonthToken(t)
    ensures DayToken(t) ==> 1 <= v <= 31
    ensures MonthToken(t) ==> 1 <= v <= 12
  {
    if |t| == 1 then DigitValue(t[0])
    else if t[0] == ' ' then DigitValue(t[1])
    else 10 * DigitValue(t[0]) + DigitValue(t[1])
  }

  /**
   * `formatar_data`: `None` for the empty text and for every text that is not a
   * day token, a slash, a month token, a slash and four digits naming a real date.
   */
  function FormatarData(s: string): (r: Option<Date>)
    ensures s == "" ==> r == None
    ensures r.Some? ==> ValidDate(r.value)
  {
    if s == "" then None
    else
      var parts := SplitOn(s, '/');
      if |parts| == 3 && DayToken(parts[0]) && MonthToken(parts[1])
         && |parts[2]| == 4 && AllDigits(parts[2])
      then
        var d := Date(FourDigitValue(parts[2]), TokenValue(parts[1]), TokenValue(parts[0]));
        if ValidDate(d) then Some(d) else None
      else None
  }

  // ---------------------------------------------------------------------------
  // What FormatarData accepts, and what it gives back
  // ---------------------------------------------------------------------------

  /** The canonical spelling of a date, `dd/mm/yyyy` with zero padding. */
  function FormatDate(d: Date): (s: string)
    requires ValidDate(d)
    ensures |s| == 10
  {
    [DigitChar(d.day / 10), DigitChar(d.day % 10), '/',
     DigitChar(d.month / 10), DigitChar(d.month % 10), '/'] + FourDigitText(d.year)
  }

  /**
   * Any day token, month token and four digits joined by slashes are read as the
   * date they spell exactly when that date exists, and as `None` otherwise
   * (so `31/02/2024` and `29/02/2023` fail while `29/02/2024` is read).
   */
  lemma FormatarDataOfTokens(ds: string, ms: string, ys: string)
    requires DayToken(ds) && MonthToken(ms) && |ys| == 4 && AllDigits(ys)
    ensures var d := Date(FourDigitValue(ys), TokenValue(ms), TokenValue(ds));
            FormatarData(ds + "/" + ms + "/" + ys) == if ValidDate(d) then Some(d) else None
  {
    var parts := [ds, ms, ys];
    assert '/' !in ds && '/' !in ms && '/' !in ys by {
      assert forall k :: 0 <= k < |ys| ==> IsDigit(ys[k]);
    }
    assert Join(parts, '/') == ds + "/" + ms + "/" + ys by {
      assert Join(parts[2..], '/') == ys;
      assert Join(parts[1..], '/') == ms + "/" + ys;
    }
    SplitJoin(parts, '/');
  }

  /** Every date the parser accepts was spelled as day token, slash, month token, slash, four digits. */
  lemma FormatarDataOnlyTokens(s: string, d: Date)
    requires FormatarData(s) == Some(d)
    ensures exists ds, ms :: DayToken(ds) && MonthToken(ms)
              && TokenValue(ds) == d.day && TokenValue(ms) == d.month
              && s == ds + "/" + ms + "/" + FourDigitText(d.year)
  {
    JoinSplitOn(s, '/');
    var parts := SplitOn(s, '/');
    var ds, ms, ys := parts[0], parts[1], parts[2];
    assert s == ds + "/" + ms + "/" + ys by {
      assert Join(parts[2..], '/') == ys;
      assert Join(parts[1..], '/') == ms + "/" + ys;
    }
    FourDigitTextOfValue(ys);
  }

  /** The canonical spelling of every real date is read back as that date. */
  lemma FormatarDataOfFormatDate(d: Date)
    requires ValidDate(d)
    ensures FormatarData(FormatDate(d)) == Some(d)
  {
    var ds := [DigitChar(d.day / 10), DigitChar(d.day % 10)];
    var ms := [DigitChar(d.month / 10), DigitChar(d.month % 10)];
    var ys := FourDigitText(d.year);
    assert DayToken(ds) && TokenValue(ds) == d.day;
    assert MonthToken(ms) && TokenValue(ms) == d.month;
    assert FormatDate(d) == ds + "/" + ms + "/" + ys;
    FormatarDataOfTokens(ds, ms, ys);
  }

  /** A text without any slash, such as the ISO spelling `2024-12-31`, is never a date here. */
  lemma FormatarDataNeedsSlash(s: string)
    requires '/' !in s
    ensures FormatarData(s) == None
  {
    if s != "" {
      SplitOnCons(s, '/', "");
    }
  }

  /** `29/02/yyyy` is read exactly in the Gregorian leap years, and then as that leap day. */
  lemma FormatarDataLeapDay(y: nat)
    requires 1 <= y <= 9999
    ensures FormatarData("29/02/" + FourDigitText(y)).Some? <==> IsLeapYear(y)
    ensures IsLeapYear(y) ==> FormatarData("29/02/" + FourDigitText(y)) == Some(Date(y, 2, 29))
  {
    var ds, ms, ys := "29", "02", FourDigitText(y);
    assert "29/02/" + ys == ds + "/" + ms + "/" + ys;
    assert TokenValue(ms) == 2 && TokenValue(ds) == 29;
    FormatarDataOfTokens(ds, ms, ys);
  }

  lemma FormatarDataReadsLastDayOfYear(s: string)
    requires s == "31/12/2024"
    ensures FormatarData(s) == Some(Date(2024, 12, 31))
  {
    var ds, ms, ys := "31", "12", "2024";
    assert s == ds + "/" + ms + "/" + ys;
    assert FourDigitValue(ys) == 2024 && TokenValue(ms) == 12 && TokenValue(ds) == 31;
    FormatarDataOfTokens(ds, ms, ys);
  }

  lemma FormatarDataReadsLeapDay(s: string)
    requires s == "29/02/2024"
    ensures FormatarData(s) == Some(Date(2024, 2, 29))
  {
    var ds, ms, ys := "29", "02", "2024";
    assert s == ds + "/" + ms + "/" + ys;
    assert FourDigitValue(ys) == 2024 && TokenValue(ms) == 2 && TokenValue(ds) == 29;
    FormatarDataOfTokens(ds, ms, ys);
  }

  lemma FormatarDataRejectsMissingLeapDay(s: string)
    requires s == "29/02/2023"
    ensures FormatarData(s) == None
  {
    var ds, ms, ys := "29", "02", "2023";
    assert s == ds + "/" + ms + "/" + ys;
    assert FourDigitValue(ys) == 2023 && TokenValue(ms) == 2 && TokenValue(ds) == 29;
    FormatarDataOfTokens(ds, ms, ys);
  }

  lemma FormatarDataRejectsFebruary31(s: string)
    requires s == "31/02/2024"
    ensures FormatarData(s) == None
  {
    var ds, ms, ys := "31", "02", "2024";
    assert s == ds + "/" + ms + "/" + ys;
    assert FourDigitValue(ys) == 2024 && TokenValue(ms) == 2 && TokenValue(ds) == 31;
    FormatarDataOfTokens(ds, ms, ys);
  }

  lemma FormatarDataRejectsIso()
    ensures FormatarData("2024-12-31") == None
  {
    FormatarDataNeedsSlash("2024-12-31");
  }
}

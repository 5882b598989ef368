/**
 * `formatDate(date, format)` of the countries page: the first "YYYY" of the format becomes the
 * year, then the first "MM" the two-digit month, then the first "DD" the two-digit day. The
 * date's calendar fields are parameters; which day the clock shows is not modelled.
 */
module FormatDate {
  import opened Wrappers
  import opened JsString

  /** `getMonth()` counts months from 0. */
  type MonthIndex = m: int | 0 <= m < 12

  /** `getDate()` */
  type DayOfMonth = d: int | 1 <= d <= 31 witness 1

  datatype CalendarDate = CalendarDate(year: int, monthIndex: MonthIndex, day: DayOfMonth)

  /** `String(date.getMonth() + 1).padStart(2, '0')` */
  function MonthText(date: CalendarDate): (r: string)
    ensures |r| == 2 && IsDigit(r[0]) && IsDigit(r[1])
    ensures ParseDigits(r) == date.monthIndex + 1
  {
    TwoDigits(date.monthIndex + 1)
  }

  /** `String(date.getDate()).padStart(2, '0')` */
  function DayText(date: CalendarDate): (r: string)
    ensures |r| == 2 && IsDigit(r[0]) && IsDigit(r[1])
    ensures ParseDigits(r) == date.day
  {
    TwoDigits(date.day)
  }

  /** A number 1..31 printed and padded to two digits, which read back as the number. */
  function TwoDigits(n: int): (r: string)
    requires 1 <= n <= 31
    ensures |r| == 2 && IsDigit(r[0]) && IsDigit(r[1])
    ensures ParseDigits(r) == n
  {
    PadStart2TwoDigits(n);
    NatToStringRoundTrip(n);
    PadZeroKeepsValue(NatToString(n));
    PadStart2(NatToString(n))
  }

  /** A leading zero does not change the value a digit string denotes. */
  lemma PadZeroKeepsValue(s: string)
    requires forall i :: 0 <= i < |s| ==> IsDigit(s[i])
    requires |s| >= 1
    ensures forall i :: 0 <= i < |PadStart2(s)| ==> IsDigit(PadStart2(s)[i])
    ensures ParseDigits(PadStart2(s)) == ParseDigits(s)
  {
    if |s| == 1 {
      var r := PadStart2(s);
      assert r == "0" + s;
      assert r[..1] == "0";
    }
  }

  /** Step one: the year. */
  function WithYear(format: string, date: CalendarDate): string {
    ReplaceFirst(format, "YYYY", IntToString(date.year))
  }

  /** `formatDate(date, format)` */
  function FormatDate(date: CalendarDate, format: string): string {
    ReplaceFirst(ReplaceFirst(WithYear(format, date), "MM", MonthText(date)), "DD", DayText(date))
  }

  /** A pattern whose first character does not occur before it is found where it starts. */
  lemma ReplaceFirstAfter(a: string, pat: string, b: string, rep: string)
    requires |pat| > 0 && pat[0] !in a
    ensures ReplaceFirst(a + pat + b, pat, rep) == a + rep + b
  {
    var s := a + pat + b;
    assert OccursAt(s, pat, |a|) by {
      assert s[|a|..|a| + |pat|] == pat;
    }
    forall j | 0 <= j < |a|
      ensures !OccursAt(s, pat, j)
    {
      if j + |pat| <= |s| {
        assert s[j..j + |pat|][0] == s[j] == a[j];
      }
    }
    var i := IndexOf(s, pat).value;
    assert i == |a|;
    assert s[..i] == a;
    assert s[i + |pat|..] == b;
  }

  /**
   * The three replacements in order, on any format holding the three tokens in the order year,
   * month, day with no earlier start of each: the first "YYYY" becomes the year, then the first
   * "MM" the month and then the first "DD" the day; everything around them is kept. The printed
   * year and month never start a later token, since they are made of digits and '-'.
   */
  lemma FormatDateFields(date: CalendarDate, a: string, b: string, c: string, e: string)
    requires 'Y' !in a && 'M' !in a + b && 'D' !in a + b + c
    ensures FormatDate(date, a + "YYYY" + b + "MM" + c + "DD" + e) ==
      a + IntToString(date.year) + b + MonthText(date) + c + DayText(date) + e
  {
    var y, mo, da := IntToString(date.year), MonthText(date), DayText(date);
    YearStep(a, b, c, e, y);
    YearTextHasNoLetters(date.year);
    NotInserted('M', a, y, b);
    MonthStep(a + y + b, c, e, mo);
    assert a + b + c == a + (b + c);
    NotInserted('D', a, y, b + c);
    assert a + y + (b + c) == (a + y + b) + c;
    NotInserted('D', a + y + b, mo, c);
    ReplaceFirstAfter(a + y + b + mo + c, "DD", e, da);
  }

  lemma YearStep(a: string, b: string, c: string, e: string, y: string)
    requires 'Y' !in a
    ensures ReplaceFirst(a + "YYYY" + b + "MM" + c + "DD" + e, "YYYY", y) == (a + y + b) + "MM" + (c + "DD" + e)
  {
    assert a + "YYYY" + b + "MM" + c + "DD" + e == a + "YYYY" + (b + "MM" + c + "DD" + e);
    ReplaceFirstAfter(a, "YYYY", b + "MM" + c + "DD" + e, y);
  }

  lemma MonthStep(p: string, c: string, e: string, mo: string)
    requires 'M' !in p
    ensures ReplaceFirst(p + "MM" + (c + "DD" + e), "MM", mo) == (p + mo + c) + "DD" + e
  {
    ReplaceFirstAfter(p, "MM", c + "DD" + e, mo);
  }

  /** Putting text without a character between two parts without it gives text without it. */
  lemma NotInserted(ch: char, x: string, y: string, z: string)
    requires ch !in x + z && ch !in y
    ensures ch !in x + y + z
  {
    assert forall i :: 0 <= i < |x| ==> x[i] == (x + z)[i];
    assert forall i :: 0 <= i < |z| ==> z[i] == (x + z)[|x| + i];
  }

  /** A printed year is digits with perhaps a leading '-'. */
  lemma YearTextHasNoLetters(year: int)
    ensures forall i :: 0 <= i < |IntToString(year)| ==> IntToString(year)[i] == '-' || IsDigit(IntToString(year)[i])
  {
    if year < 0 {
      var t := NatToString(-year);
      assert forall i :: 1 <= i < |"-" + t| ==> ("-" + t)[i] == t[i - 1];
    }
  }

  /** A format without the pattern is left alone. */
  lemma ReplaceFirstAbsent(s: string, pat: string, rep: string)
    requires |pat| > 0 && pat[0] !in s
    ensures ReplaceFirst(s, pat, rep) == s
  {
    forall j
      ensures !OccursAt(s, pat, j)
    {
      if 0 <= j && j + |pat| <= |s| {
        assert s[j..j + |pat|][0] == s[j];
      }
    }
  }

  /** The last day of 2024, in the three presets of the settings page. */
  const Dec31 := CalendarDate(2024, 11, 31)

  lemma Dec31Fields()
    ensures IntToString(Dec31.year) == "2024" && MonthText(Dec31) == "12" && DayText(Dec31) == "31"
  {
    YearText(Dec31.year);
    MonthText12(Dec31);
    DayText31(Dec31);
  }

  lemma YearText(y: int)
    requires y == 2024
    ensures IntToString(y) == "2024"
  {
    Digits202(y / 10);
    AppendDigit(y, "202", '4');
  }

  lemma Digits202(n: nat)
    requires n == 202
    ensures NatToString(n) == "202"
  {
    Digits20(n / 10);
    AppendDigit(n, "20", '2');
  }

  lemma Digits20(n: nat)
    requires n == 20
    ensures NatToString(n) == "20"
  {
    assert NatToString(n / 10) == "2";
    AppendDigit(n, "2", '0');
  }

  /** The decimal text of a number of two or more digits ends in its last digit. */
  lemma AppendDigit(n: nat, prefix: string, d: char)
    requires n >= 10 && NatToString(n / 10) == prefix && DigitChar(n % 10) == d
    ensures NatToString(n) == prefix + [d]
  {
  }

  lemma MonthText12(date: CalendarDate)
    requires date.monthIndex == 11
    ensures MonthText(date) == "12"
  {
    assert NatToString(12) == NatToString(1) + "2";
  }

  lemma DayText31(date: CalendarDate)
    requires date.day == 31
    ensures DayText(date) == "31"
  {
    assert NatToString(31) == NatToString(3) + "1";
  }

  /** `ReplaceFirstAfter` for a text given whole. */
  lemma ReplaceIn(s: string, a: string, pat: string, b: string, rep: string)
    requires s == a + pat + b && |pat| > 0 && pat[0] !in a
    ensures ReplaceFirst(s, pat, rep) == a + rep + b
  {
    ReplaceFirstAfter(a, pat, b, rep);
  }

  /** The three presets of the settings page, each with its example date. */
  lemma PresetMonthFirst()
    ensures FormatDate(Dec31, "MM/DD/YYYY") == "12/31/2024"
  {
    Dec31Fields();
    PresetMonthFirstYear();
    PresetMonthFirstMonth();
    PresetMonthFirstDay();
  }

  lemma PresetMonthFirstYear()
    ensures WithYear("MM/DD/YYYY", Dec31) == "MM/DD/2024"
  {
    Dec31Fields();
    ReplaceIn("MM/DD/YYYY", "MM/DD/", "YYYY", "", "2024");
  }

  lemma PresetMonthFirstMonth()
    ensures ReplaceFirst("MM/DD/2024", "MM", "12") == "12/DD/2024"
  {
    ReplaceIn("MM/DD/2024", "", "MM", "/DD/2024", "12");
  }

  lemma PresetMonthFirstDay()
    ensures ReplaceFirst("12/DD/2024", "DD", "31") == "12/31/2024"
  {
    ReplaceIn("12/DD/2024", "12/", "DD", "/2024", "31");
  }

  lemma PresetDayFirst()
    ensures FormatDate(Dec31, "DD/MM/YYYY") == "31/12/2024"
  {
    Dec31Fields();
    PresetDayFirstYear();
    PresetDayFirstMonth();
    PresetDayFirstDay();
  }

  lemma PresetDayFirstYear()
    ensures WithYear("DD/MM/YYYY", Dec31) == "DD/MM/2024"
  {
    Dec31Fields();
    ReplaceIn("DD/MM/YYYY", "DD/MM/", "YYYY", "", "2024");
  }

  lemma PresetDayFirstMonth()
    ensures ReplaceFirst("DD/MM/2024", "MM", "12") == "DD/12/2024"
  {
    ReplaceIn("DD/MM/2024", "DD/", "MM", "/2024", "12");
  }

  lemma PresetDayFirstDay()
    ensures ReplaceFirst("DD/12/2024", "DD", "31") == "31/12/2024"
  {
    ReplaceIn("DD/12/2024", "", "DD", "/12/2024", "31");
  }

  lemma PresetYearFirst()
    ensures FormatDate(Dec31, "YYYY-MM-DD") == "2024-12-31"
  {
    Dec31Fields();
    PresetYearFirstYear();
    PresetYearFirstMonth();
    PresetYearFirstDay();
  }

  lemma PresetYearFirstYear()
    ensures WithYear("YYYY-MM-DD", Dec31) == "2024-MM-DD"
  {
    Dec31Fields();
    ReplaceIn("YYYY-MM-DD", "", "YYYY", "-MM-DD", "2024");
  }

  lemma PresetYearFirstMonth()
    ensures ReplaceFirst("2024-MM-DD", "MM", "12") == "2024-12-DD"
  {
    ReplaceIn("2024-MM-DD", "2024-", "MM", "-DD", "12");
  }

  lemma PresetYearFirstDay()
    ensures ReplaceFirst("2024-12-DD", "DD", "31") == "2024-12-31"
  {
    ReplaceIn("2024-12-DD", "2024-12-", "DD", "", "31");
  }

  /** A format with none of the three tokens is returned unchanged. */
  lemma NoTokensUnchanged(date: CalendarDate, format: string)
    requires IndexOf(format, "YYYY").None? && IndexOf(format, "MM").None? && IndexOf(format, "DD").None?
    ensures FormatDate(date, format) == format
  {
  }

  /** Only the first "DD" is replaced: "DD.DD" on the last day of 2024 gives "31.DD". */
  lemma OnlyFirstTokenReplaced()
    ensures FormatDate(Dec31, "DD.DD") == "31.DD"
  {
    Dec31Fields();
    OnlyFirstTokenKeepsFormat();
    OnlyFirstTokenDay();
  }

  lemma OnlyFirstTokenKeepsFormat()
    ensures WithYear("DD.DD", Dec31) == "DD.DD"
    ensures ReplaceFirst("DD.DD", "MM", "12") == "DD.DD"
  {
    ReplaceFirstAbsent("DD.DD", "YYYY", IntToString(Dec31.year));
    ReplaceFirstAbsent("DD.DD", "MM", "12");
  }

  lemma OnlyFirstTokenDay()
    ensures ReplaceFirst("DD.DD", "DD", "31") == "31.DD"
  {
    ReplaceIn("DD.DD", "", "DD", ".DD", "31");
  }
}

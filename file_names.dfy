/**
 * The names of the two partition files of ftch_dta.py: the daily file
 * `live_data_<ISO date>.csv` and the monthly file `month_<MonthName>_<Year>.csv`,
 * with parsers that recover the partition key from a name. The round trips show
 * that different keys never share a file.
 */
module FileNames {
  import opened Wrappers
  import opened Calendar

  function Pow10(w: nat): (p: nat)
    ensures p >= 1
  {
    if w == 0 then 1 else 10 * Pow10(w - 1)
  }

  predicate IsDigit(c: char) {
    '0' <= c <= '9'
  }

  predicate AllDigits(s: string) {
    forall i :: 0 <= i < |s| ==> IsDigit(s[i])
  }

  function DigitChar(n: int): (c: char)
    requires 0 <= n < 10
    ensures IsDigit(c) && c as int - '0' as int == n
  {
    ('0' as int + n) as char
  }

  /** The w-digit zero-padded decimal form of n (`%0wd`). */
  function Padded(n: nat, w: nat): (s: string)
    requires n < Pow10(w)
    ensures |s| == w && AllDigits(s)
  {
    if w == 0 then [] else Padded(n / 10, w - 1) + [DigitChar(n % 10)]
  }

  /** The value of a string of decimal digits. */
  function DigitsValue(s: string): nat
    requires AllDigits(s)
  {
    if s == [] then 0 else 10 * DigitsValue(s[..|s| - 1]) + (s[|s| - 1] as int - '0' as int)
  }

  /** Reading back a padded number gives the number. */
  lemma {:induction false} PaddedRoundTrip(n: nat, w: nat)
    requires n < Pow10(w)
    ensures DigitsValue(Padded(n, w)) == n
  {
    if w > 0 {
      var s := Padded(n, w);
      assert s[..|s| - 1] == Padded(n / 10, w - 1);
      PaddedRoundTrip(n / 10, w - 1);
    }
  }

  /** `str(date)`: the ISO form YYYY-MM-DD. */
  function IsoDate(d: Date): (s: string)
    requires ValidDate(d)
    ensures |s| == 10
  {
    Padded(d.year, 4) + "-" + Padded(d.month, 2) + "-" + Padded(d.day, 2)
  }

  /**
   * `f'live_data_{current_date}.csv'`: a daily partition name, whose date is read
   * back by `DailyFileNameRoundTrip`.
   */
  function DailyFileName(d: Date): (name: string)
    requires ValidDate(d)
    ensures |name| == 24 && IsDailyName(name) && !IsMonthlyName(name)
  {
    var name := "live_data_" + IsoDate(d) + ".csv";
    assert name[..10] == "live_data_" && name[0] == 'l';
    assert name[..6][0] != "month_"[0];
    name
  }

  /** The English month names that `%B` gives in the C locale. */
  function MonthName(m: int): (s: string)
    requires 1 <= m <= 12
    ensures |s| >= 3
  {
    if m == 1 then "January" else if m == 2 then "February" else if m == 3 then "March"
    else if m == 4 then "April" else if m == 5 then "May" else if m == 6 then "June"
    else if m == 7 then "July" else if m == 8 then "August" else if m == 9 then "September"
    else if m == 10 then "October" else if m == 11 then "November" else "December"
  }

  /**
   * `datetime.now().strftime("%B_%Y")`, the key of the monthly partition: the
   * month name, an underscore and the four-digit year, which `MonthTagRoundTrip`
   * reads back.
   */
  function MonthTag(t: DateTime): (tag: string)
    requires ValidDateTime(t)
    ensures |tag| >= 8 && tag[|tag| - 5] == '_' && AllDigits(tag[|tag| - 4..])
  {
    MonthName(t.date.month) + "_" + Padded(t.date.year, 4)
  }

  /**
   * `f'month_{current_month}.csv'`: a monthly partition name for any tag; the tag
   * is read back by `MonthlyFileNameParses`.
   */
  function MonthlyFileName(tag: string): (name: string)
    ensures |name| == |tag| + 10 && IsMonthlyName(name) && !IsDailyName(name)
  {
    var name := "month_" + tag + ".csv";
    assert name[..6] == "month_" && name[0] == 'm';
    assert |name| >= 10 ==> name[..10][0] != "live_data_"[0];
    name
  }

  /** A daily partition file, by the prefix its name starts with. */
  predicate IsDailyName(name: string) {
    |name| >= 10 && name[..10] == "live_data_"
  }

  /** A monthly partition file, by the prefix its name starts with. */
  predicate IsMonthlyName(name: string) {
    |name| >= 6 && name[..6] == "month_"
  }

  /** The names of the two kinds of partition file. */
  predicate IsPartitionName(name: string) {
    IsDailyName(name) || IsMonthlyName(name)
  }

  // ---------------------------------------------------------------------------
  // Parsers

  /** The date a daily file name was made from, if it is one. */
  function ParseDailyFileName(name: string): Option<Date> {
    if |name| == 24 && name[..10] == "live_data_" && name[20..] == ".csv"
       && name[14] == '-' && name[17] == '-'
       && AllDigits(name[10..14]) && AllDigits(name[15..17]) && AllDigits(name[18..20])
    then
      var d := Date(DigitsValue(name[10..14]), DigitsValue(name[15..17]), DigitsValue(name[18..20]));
      if ValidDate(d) then Some(d) else None
    else None
  }

  /** The first month number from k on whose name is s. */
  function FindMonth(s: string, k: int): (r: Option<int>)
    requires 1 <= k <= 13
    ensures r.Some? ==> k <= r.value <= 12 && MonthName(r.value) == s
    decreases 13 - k
  {
    if k == 13 then None
    else if MonthName(k) == s then Some(k)
    else FindMonth(s, k + 1)
  }

  /** The (month, year) a month tag was made from, if it is one. */
  function ParseMonthTag(tag: string): Option<(int, int)> {
    if |tag| >= 5 && tag[|tag| - 5] == '_' && AllDigits(tag[|tag| - 4..]) then
      match FindMonth(tag[..|tag| - 5], 1)
      case Some(m) => Some((m, DigitsValue(tag[|tag| - 4..])))
      case None => None
    else None
  }

  /** The (month, year) a monthly file name was made from, if it is one. */
  function ParseMonthlyFileName(name: string): Option<(int, int)> {
    if |name| >= 10 && name[..6] == "month_" && name[|name| - 4..] == ".csv"
    then ParseMonthTag(name[6..|name| - 4])
    else None
  }

  // ---------------------------------------------------------------------------
  // Round trips and their consequences

  lemma MonthNamesDistinct(m: int, k: int)
    requires 1 <= m <= 12 && 1 <= k <= 12 && k != m
    ensures MonthName(k) != MonthName(m)
  {
    if m == 1 {} else if m == 2 {} else if m == 3 {} else if m == 4 {}
    else if m == 5 {} else if m == 6 {} else if m == 7 {} else if m == 8 {}
    else if m == 9 {} else if m == 10 {} else if m == 11 {} else {}
  }

  lemma {:induction false} FindMonthName(m: int, k: int)
    requires 1 <= k <= m <= 12
    ensures FindMonth(MonthName(m), k) == Some(m)
    decreases m - k
  {
    if k < m {
      MonthNamesDistinct(m, k);
      FindMonthName(m, k + 1);
    }
  }

  /** The ISO date is read back out of the daily file name. */
  lemma DailyFileNameRoundTrip(d: Date)
    requires ValidDate(d)
    ensures ParseDailyFileName(DailyFileName(d)) == Some(d)
  {
    var name := DailyFileName(d);
    var y, m, dd := Padded(d.year, 4), Padded(d.month, 2), Padded(d.day, 2);
    assert name == "live_data_" + y + "-" + m + "-" + dd + ".csv";
    assert name[..10] == "live_data_";
    assert name[10..14] == y;
    assert name[15..17] == m;
    assert name[18..20] == dd;
    assert name[20..] == ".csv";
    PaddedRoundTrip(d.year, 4);
    PaddedRoundTrip(d.month, 2);
    PaddedRoundTrip(d.day, 2);
  }

  /** The month name and the four-digit year are read back out of a month tag. */
  lemma MonthTagRoundTrip(t: DateTime)
    requires ValidDateTime(t)
    ensures ParseMonthTag(MonthTag(t)) == Some((t.date.month, t.date.year))
  {
    var name, y := MonthName(t.date.month), Padded(t.date.year, 4);
    var tag := MonthTag(t);
    assert tag == name + "_" + y;
    assert tag[..|tag| - 5] == name;
    assert tag[|tag| - 4..] == y;
    PaddedRoundTrip(t.date.year, 4);
    FindMonthName(t.date.month, 1);
  }

  /** The tag is read back out of the monthly file name made from it. */
  lemma MonthlyFileNameParses(tag: string)
    ensures ParseMonthlyFileName(MonthlyFileName(tag)) == ParseMonthTag(tag)
  {
    var name := MonthlyFileName(tag);
    assert name[..6] == "month_" && name[6..|name| - 4] == tag && name[|name| - 4..] == ".csv";
  }

  /** The month and year are read back out of the monthly file name of an instant. */
  lemma MonthlyFileNameRoundTrip(t: DateTime)
    requires ValidDateTime(t)
    ensures ParseMonthlyFileName(MonthlyFileName(MonthTag(t))) == Some((t.date.month, t.date.year))
  {
    MonthlyFileNameParses(MonthTag(t));
    MonthTagRoundTrip(t);
  }

  /** Different days never share a daily file. */
  lemma DailyFileNameInjective(a: Date, b: Date)
    requires ValidDate(a) && ValidDate(b) && DailyFileName(a) == DailyFileName(b)
    ensures a == b
  {
    DailyFileNameRoundTrip(a);
    DailyFileNameRoundTrip(b);
  }

  /** Different months, or the same month of different years, never share a monthly file. */
  lemma MonthlyFileNameInjective(a: DateTime, b: DateTime)
    requires ValidDateTime(a) && ValidDateTime(b)
    requires MonthlyFileName(MonthTag(a)) == MonthlyFileName(MonthTag(b))
    ensures a.date.month == b.date.month && a.date.year == b.date.year
  {
    MonthlyFileNameRoundTrip(a);
    MonthlyFileNameRoundTrip(b);
  }

  /** A daily file name is never a monthly one: they differ in their first letter. */
  lemma DailyIsNotMonthly(name: string, tag: string)
    requires IsDailyName(name)
    ensures name != MonthlyFileName(tag)
  {
    assert name[0] == 'l' && MonthlyFileName(tag)[0] == 'm';
  }

  /** The ISO form of the day of the reference scenario. */
  lemma ScenarioIsoDate()
    ensures IsoDate(Date(2024, 1, 5)) == "2024-01-05"
  {
    PaddedYear2024();
    PaddedSingleDigit(1);
    PaddedSingleDigit(5);
  }

  lemma PaddedYear2024()
    ensures Padded(2024, 4) == "2024"
  {
    assert Padded(2, 1) == "2";
    assert Padded(20, 2) == "20";
    assert Padded(202, 3) == "202";
  }

  /** A single digit padded to two places gets one leading zero. */
  lemma PaddedSingleDigit(n: nat)
    requires n < 10
    ensures Padded(n, 2) == ['0', DigitChar(n)]
  {
    assert n / 10 == 0 && n % 10 == n;
    assert Padded(0, 1) == Padded(0, 0) + [DigitChar(0)] == ['0'];
    assert Padded(n, 2) == Padded(0, 1) + [DigitChar(n)];
  }

  /** The month tag of the reference scenario. */
  lemma ScenarioMonthTag()
    ensures MonthTag(DateTime(Date(2024, 1, 5), 0, 0, 1, 0)) == "January_2024"
  {
    PaddedYear2024();
  }

  /** The daily file the driver writes to on the day of the reference scenario. */
  lemma ScenarioDailyFileName()
    ensures DailyFileName(Date(2024, 1, 5)) == "live_data_2024-01-05.csv"
  {
    ScenarioIsoDate();
  }
}

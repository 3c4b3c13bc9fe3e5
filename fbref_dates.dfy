/** `convert_date_format` of service/scrappers/fbref_scraper.py: a fixture
    link's date, "MonthName-D-YYYY", parsed as `strptime` does with the
    format "%B-%d-%Y" and written back as "YYYY-MM-DD". */
module FbrefDates {
  import opened Common
  import opened Strings

  datatype Date = Date(year: nat, month: nat, day: nat)

  /** The `%B` month names of the C locale. */
  const MonthNames: seq<string> := [
    "January", "February", "March", "April", "May", "June",
    "July", "August", "September", "October", "November", "December"]

  /** The same names lower-cased: `%B` matches case-insensitively. */
  const MonthKeys: seq<string> := [
    "january", "february", "march", "april", "may", "june",
    "july", "august", "september", "october", "november", "december"]

  predicate IsLeap(year: nat)
  {
    year % 4 == 0 && (year % 100 != 0 || year % 400 == 0)
  }

  function DaysInMonth(month: nat, year: nat): nat
    requires 1 <= month <= 12
  {
    if month == 2 then (if IsLeap(year) then 29 else 28)
    else if month == 4 || month == 6 || month == 9 || month == 11 then 30
    else 31
  }

  /** A date `datetime` accepts: years 1 to 9999, a real day of the month. */
  predicate ValidDate(d: Date)
  {
    1 <= d.year <= 9999 && 1 <= d.month <= 12 && 1 <= d.day <= DaysInMonth(d.month, d.year)
  }

  predicate IsDigit(c: char)
  {
    '0' <= c <= '9'
  }

  function DigitValue(c: char): nat
    requires IsDigit(c)
  {
    c as int - '0' as int
  }

  function DigitChar(v: nat): (c: char)
    requires v < 10
    ensures IsDigit(c) && DigitValue(c) == v
  {
    ('0' as int + v) as char
  }

  // ---------------------------------------------------------------------------
  // Parsing: "%B-%d-%Y"

  /** `%B`: the month whose name equals the text up to case, searched from
      `k` on. */
  function ParseMonthFrom(s: string, k: nat): (r: Option<nat>)
    requires k <= 12
    ensures r.Some? ==> k < r.value <= 12 && Lower(s) == MonthKeys[r.value - 1]
    ensures r.None? ==> forall m :: k <= m < 12 ==> Lower(s) != MonthKeys[m]
    decreases 12 - k
  {
    if k == 12 then None
    else if Lower(s) == MonthKeys[k] then Some(k + 1)
    else ParseMonthFrom(s, k + 1)
  }

  /** `%d`: one digit 1-9, a space and one digit 1-9, or two digits 01-31. */
  function ParseDay(s: string): (r: Option<nat>)
    ensures r.Some? ==> 1 <= r.value <= 31
  {
    if |s| == 1 && IsDigit(s[0]) && s[0] != '0' then Some(DigitValue(s[0]))
    else if |s| == 2 && s[0] == ' ' && IsDigit(s[1]) && s[1] != '0' then Some(DigitValue(s[1]))
    else if |s| == 2 && IsDigit(s[0]) && IsDigit(s[1]) && 1 <= 10 * DigitValue(s[0]) + DigitValue(s[1]) <= 31 then
      Some(10 * DigitValue(s[0]) + DigitValue(s[1]))
    else None
  }

  /** `%Y`: exactly four digits. */
  function ParseYear(s: string): (r: Option<nat>)
    ensures r.Some? ==> r.value <= 9999
  {
    if |s| == 4 && IsDigit(s[0]) && IsDigit(s[1]) && IsDigit(s[2]) && IsDigit(s[3]) then
      Some(1000 * DigitValue(s[0]) + 100 * DigitValue(s[1]) + 10 * DigitValue(s[2]) + DigitValue(s[3]))
    else None
  }

  /** `datetime.strptime(s, "%B-%d-%Y")`. None of the three fields can hold
      '-', so matching the format is splitting on '-' into exactly three
      fields. Text that does not match, year 0, or a day past the end of the
      month raise ValueError. */
  function ParseDate(s: string): (r: Result<Date>)
    ensures r.Err? ==> r.error == ValueError
    ensures r.Ok? ==> ValidDate(r.value)
  {
    var parts := SplitOn(s, '-');
    if |parts| != 3 then Err(ValueError)
    else
      var month := ParseMonthFrom(parts[0], 0);
      var day := ParseDay(parts[1]);
      var year := ParseYear(parts[2]);
      if month.None? || day.None? || year.None? then Err(ValueError)
      else if year.value == 0 || day.value > DaysInMonth(month.value, year.value) then Err(ValueError)
      else Ok(Date(year.value, month.value, day.value))
  }

  // ---------------------------------------------------------------------------
  // Formatting: "%Y-%m-%d"

  function Pad2(v: nat): (r: string)
    requires v < 100
    ensures |r| == 2 && IsDigit(r[0]) && IsDigit(r[1])
  {
    [DigitChar(v / 10), DigitChar(v % 10)]
  }

  function Pad4(v: nat): (r: string)
    requires v < 10000
    ensures |r| == 4 && IsDigit(r[0]) && IsDigit(r[1]) && IsDigit(r[2]) && IsDigit(r[3])
  {
    Pad2(v / 100) + Pad2(v % 100)
  }

  function IsoDate(d: Date): (r: string)
    requires ValidDate(d)
    ensures |r| == 10 && r[4] == '-' && r[7] == '-'
  {
    Pad4(d.year) + "-" + Pad2(d.month) + "-" + Pad2(d.day)
  }

  /** `convert_date_format`. */
  function ConvertDateFormat(s: string): (r: Result<string>)
    ensures r.Err? <==> ParseDate(s).Err?
    ensures r.Ok? ==> ValidDate(ParseDate(s).value) && r.value == IsoDate(ParseDate(s).value)
  {
    var d := ParseDate(s);
    if d.Err? then Err(d.error) else Ok(IsoDate(d.value))
  }

  // ---------------------------------------------------------------------------
  // Round trips

  /** How a fixture link writes a date: the month name, the day (with or
      without a leading zero) and the four-digit year. */
  function SlugDate(d: Date, padDay: bool): string
    requires ValidDate(d)
  {
    MonthNames[d.month - 1] + "-" + DayText(d.day, padDay) + "-" + Pad4(d.year)
  }

  function DayText(day: nat, padDay: bool): (r: string)
    requires 1 <= day <= 31
    ensures forall i :: 0 <= i < |r| ==> IsDigit(r[i])
  {
    if padDay || day >= 10 then Pad2(day) else [DigitChar(day)]
  }

  /** The three dashed fields of a link's date, none holding '/'. */
  lemma SlugDateParts(d: Date, padDay: bool)
    requires ValidDate(d)
    ensures SplitOn(SlugDate(d, padDay), '-') == [MonthNames[d.month - 1], DayText(d.day, padDay), Pad4(d.year)]
    ensures Free(SlugDate(d, padDay), '/')
  {
    var parts := [MonthNames[d.month - 1], DayText(d.day, padDay), Pad4(d.year)];
    var name := MonthNames[d.month - 1];
    assert forall i :: 0 <= i < |name| ==> name[i] != '-' && name[i] != '/';
    forall k | 0 <= k < 3
      ensures Free(parts[k], '-') && Free(parts[k], '/')
    {
    }
    SplitOnJoin(parts, '-');
    assert parts[1..][1..] == [Pad4(d.year)];
    assert Join(parts[1..], '-') == DayText(d.day, padDay) + "-" + Pad4(d.year);
    assert Join(parts, '-') == SlugDate(d, padDay);
    FreeConcat(name, "-", '/');
    FreeConcat(name + "-", DayText(d.day, padDay), '/');
    FreeConcat(name + "-" + DayText(d.day, padDay), "-", '/');
    FreeConcat(name + "-" + DayText(d.day, padDay) + "-", Pad4(d.year), '/');
  }

  lemma MonthKeysLower(m: nat)
    requires 1 <= m <= 12
    ensures Lower(MonthNames[m - 1]) == MonthKeys[m - 1]
  {
    var name := MonthNames[m - 1];
    assert |Lower(name)| == |MonthKeys[m - 1]|;
    forall i | 0 <= i < |name|
      ensures Lower(name)[i] == MonthKeys[m - 1][i]
    {
    }
  }

  lemma {:induction false} ParseMonthFinds(m: nat, k: nat)
    requires 1 <= m <= 12 && k < m
    ensures ParseMonthFrom(MonthNames[m - 1], k) == Some(m)
    decreases m - k
  {
    MonthKeysLower(m);
    if k < m - 1 {
      assert MonthKeys[k] != MonthKeys[m - 1] by {
        MonthKeysDistinct(k, m - 1);
      }
      ParseMonthFinds(m, k + 1);
    }
  }

  lemma MonthKeysDistinct(a: nat, b: nat)
    requires a < b < 12
    ensures MonthKeys[a] != MonthKeys[b]
  {
    var x, y := MonthKeys[a], MonthKeys[b];
    if |x| == |y| {
      assert x[0] != y[0] || x[2] != y[2];
    }
  }

  lemma Pad2Digits(v: nat)
    requires v < 100
    ensures 10 * DigitValue(Pad2(v)[0]) + DigitValue(Pad2(v)[1]) == v
  {
  }

  lemma Pad4Digits(v: nat)
    requires v < 10000
    ensures ParseYear(Pad4(v)) == Some(v)
  {
    var p := Pad4(v);
    var hi, lo := v / 100, v % 100;
    Pad2Digits(hi);
    Pad2Digits(lo);
    var d0, d1, d2, d3 := DigitValue(p[0]), DigitValue(p[1]), DigitValue(p[2]), DigitValue(p[3]);
    assert 10 * d0 + d1 == hi && 10 * d2 + d3 == lo;
    assert 1000 * d0 + 100 * d1 + 10 * d2 + d3 == 100 * (10 * d0 + d1) + (10 * d2 + d3);
    assert 100 * hi + lo == v;
  }

  /** A valid date written the way fixture links write it parses back to
      itself, and so converts to its "YYYY-MM-DD" form. */
  lemma ConvertSlugDate(d: Date, padDay: bool)
    requires ValidDate(d)
    ensures ParseDate(SlugDate(d, padDay)) == Ok(d)
    ensures ConvertDateFormat(SlugDate(d, padDay)) == Ok(IsoDate(d))
  {
    SlugDateParts(d, padDay);
    ParseMonthFinds(d.month, 0);
    Pad2Digits(d.day);
    Pad4Digits(d.year);
  }

  /** Distinct valid dates have distinct "YYYY-MM-DD" forms, so comparing the
      converted text compares the dates. */
  lemma IsoDateInjective(a: Date, b: Date)
    requires ValidDate(a) && ValidDate(b) && IsoDate(a) == IsoDate(b)
    ensures a == b
  {
    var s, t := IsoDate(a), IsoDate(b);
    assert Pad4(a.year) == s[..4] && Pad4(b.year) == t[..4];
    assert Pad2(a.month) == s[5..7] && Pad2(b.month) == t[5..7];
    assert Pad2(a.day) == s[8..] && Pad2(b.day) == t[8..];
    Pad4Digits(a.year);
    Pad4Digits(b.year);
    Pad2Digits(a.month);
    Pad2Digits(b.month);
    Pad2Digits(a.day);
    Pad2Digits(b.day);
  }
}

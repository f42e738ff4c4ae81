/**
 * Calendar dates and the `datetime.strptime(text, "%m/%d/%Y").date()` call
 * the scraper applies to filing and docket dates. The accepted texts are
 * those of CPython's directive patterns: a month of one or two digits
 * (`1[0-2]|0[1-9]|[1-9]`), a day of one or two digits or a space and a digit
 * (`3[01]|[12][0-9]|0[1-9]|[1-9]| [1-9]`), a four-digit year, separated by
 * `/` and with nothing else around them; the triple must then be a real
 * date (`datetime.date` rejects year 0, month 13 and 30 February).
 */
module Dates {
  import opened Wrappers
  import Text

  datatype Date = Date(year: int, month: int, day: int)

  predicate IsLeapYear(y: int) {
    y % 4 == 0 && (y % 100 != 0 || y % 400 == 0)
  }

  function DaysInMonth(y: int, m: int): int
    requires 1 <= m <= 12
  {
    if m == 2 then (if IsLeapYear(y) then 29 else 28)
    else if m == 4 || m == 6 || m == 9 || m == 11 then 30
    else 31
  }

  /** The dates `datetime.date` can represent. */
  predicate Valid(d: Date) {
    1 <= d.year <= 9999 && 1 <= d.month <= 12 && 1 <= d.day <= DaysInMonth(d.year, d.month)
  }

  predicate IsDigit(c: char) {
    '0' <= c <= '9'
  }

  predicate AllDigits(s: string) {
    forall k :: 0 <= k < |s| ==> IsDigit(s[k])
  }

  /** The number a string of decimal digits spells. */
  function DigitsValue(s: string): (n: nat)
    requires AllDigits(s)
  {
    if s == [] then 0 else 10 * DigitsValue(s[..|s| - 1]) + (s[|s| - 1] as int - '0' as int)
  }

  /** `%m`: one or two digits naming a month, "0" and "00" excluded. */
  function MonthField(t: string): Option<int> {
    if 1 <= |t| <= 2 && AllDigits(t) && 1 <= DigitsValue(t) <= 12 then Some(DigitsValue(t)) else None
  }

  /** `%d`: one or two digits naming a day 1..31, or a space before a single digit 1..9. */
  function DayField(t: string): Option<int> {
    if 1 <= |t| <= 2 && AllDigits(t) && 1 <= DigitsValue(t) <= 31 then Some(DigitsValue(t))
    else if |t| == 2 && t[0] == ' ' && '1' <= t[1] <= '9' then Some(t[1] as int - '0' as int)
    else None
  }

  /** `%Y`: exactly four digits. */
  function YearField(t: string): Option<int> {
    if |t| == 4 && AllDigits(t) then Some(DigitsValue(t)) else None
  }

  /**
   * `strptime(s, "%m/%d/%Y").date()`, with `None` where Python raises
   * ValueError. Only real calendar dates come out.
   */
  function ParseDate(s: string): (r: Option<Date>)
    ensures r.Some? ==> Valid(r.value)
  {
    var parts := Text.Split(s, '/');
    if |parts| != 3 then None
    else
      match (MonthField(parts[0]), DayField(parts[1]), YearField(parts[2]))
      case (Some(m), Some(d), Some(y)) =>
        if Valid(Date(y, m, d)) then Some(Date(y, m, d)) else None
      case _ => None
  }

  /** Two decimal digits of `n`, zero-padded. */
  function Pad2(n: int): (s: string)
    requires 0 <= n < 100
    ensures |s| == 2 && AllDigits(s) && DigitsValue(s) == n
  {
    var s := [Digit(n / 10), Digit(n % 10)];
    assert s[..1] == [Digit(n / 10)];
    assert s[..1][..0] == [];
    assert DigitsValue(s[..1]) == n / 10;
    s
  }

  /** Four decimal digits of `n`, zero-padded. */
  function Pad4(n: int): (s: string)
    requires 0 <= n < 10000
    ensures |s| == 4 && AllDigits(s) && DigitsValue(s) == n
  {
    var hi, lo := Pad2(n / 100), Pad2(n % 100);
    DigitsAppendPair(hi, lo);
    hi + lo
  }

  lemma DigitsAppendPair(a: string, b: string)
    requires AllDigits(a) && AllDigits(b) && |b| == 2
    ensures AllDigits(a + b) && DigitsValue(a + b) == 100 * DigitsValue(a) + DigitsValue(b)
  {
    var s, a1 := a + b, a + b[..1];
    var d0, d1 := b[0] as int - '0' as int, b[1] as int - '0' as int;
    assert s[..|s| - 1] == a1 && a1[..|a1| - 1] == a && b[..1][..0] == [];
    assert DigitsValue(a1) == 10 * DigitsValue(a) + d0;
    assert DigitsValue(s) == 10 * DigitsValue(a1) + d1;
    assert DigitsValue(b[..1]) == d0;
    assert DigitsValue(b) == 10 * d0 + d1;
  }

  function Digit(n: int): (c: char)
    requires 0 <= n < 10
    ensures IsDigit(c) && c as int - '0' as int == n
  {
    ('0' as int + n) as char
  }

  /** `date.strftime("%m/%d/%Y")`: the text form `ParseDate` reads. */
  function FormatDate(d: Date): (s: string)
    requires Valid(d)
    ensures |s| == 10 && IsDigit(s[0]) && IsDigit(s[9])
  {
    Pad2(d.month) + "/" + Pad2(d.day) + "/" + Pad4(d.year)
  }

  /** Every real date survives formatting and parsing back unchanged. */
  lemma ParseFormatDate(d: Date)
    requires Valid(d)
    ensures ParseDate(FormatDate(d)) == Some(d)
  {
    var m, dd, y := Pad2(d.month), Pad2(d.day), Pad4(d.year);
    var parts := [m, dd, y];
    assert '/' !in m && '/' !in dd && '/' !in y by {
      NoSlashInDigits(m);
      NoSlashInDigits(dd);
      NoSlashInDigits(y);
    }
    Text.SplitJoin(parts, '/');
    assert Text.Join(parts, "/") == FormatDate(d) by {
      assert Text.Join(parts[1..], "/") == dd + "/" + y;
    }
    assert MonthField(m) == Some(d.month);
    assert DayField(dd) == Some(d.day);
    assert YearField(y) == Some(d.year);
  }

  lemma NoSlashInDigits(s: string)
    requires AllDigits(s)
    ensures '/' !in s
  {
  }

  /** The docket's literal "pre 2010" is not a date. */
  lemma Pre2010IsNotADate()
    ensures ParseDate("pre 2010") == None
  {
    var s := "pre 2010";
    assert s[3] == ' ' && |s| == 8;
    assert '/' !in s;
    NoSlashIsNotADate(s);
  }

  /** A text without a slash is not a date. */
  lemma NoSlashIsNotADate(s: string)
    requires '/' !in s
    ensures ParseDate(s) == None
  {
    assert Text.Split(s, '/') == [s];
  }
}

/** Gapless document numbers: one locked counter per series and financial year. */
module Numbering {
  import opened Outcomes

  datatype SeriesKey = INVOICE_SERIES | CREDIT_NOTE_SERIES

  type Month = m: int | 1 <= m <= 12 witness 4

  /** A calendar day: what the financial year needs of it, and its day number. */
  datatype Day = Day(year: nat, month: Month, number: int)

  /** The year the Indian financial year containing the day began in: April to March. */
  function FinancialYearFor(on: Day): int { if on.month >= 4 then on.year else on.year - 1 }

  datatype Series = Series(prefix: string, current: nat, padding: nat, active: bool)

  type SeriesTable = map<(SeriesKey, int), Series>

  function Digit(d: nat): char
    requires d < 10
  {
    '0' + d as char
  }

  function Digits(n: nat): string {
    if n < 10 then [Digit(n)] else Digits(n / 10) + [Digit(n % 10)]
  }

  function Zeros(n: nat): string { if n == 0 then "" else "0" + Zeros(n - 1) }

  /** `f"{value:0{padding}d}"` */
  function Padded(n: nat, width: nat): string {
    var digits := Digits(n);
    if |digits| < width then Zeros(width - |digits|) + digits else digits
  }

  function FormatNumber(s: Series, value: nat): string { s.prefix + Padded(value, s.padding) }

  function TwoDigits(year: int): string { [Digit(year / 10 % 10), Digit(year % 10)] }

  /** The row a new financial year starts with. */
  function NewSeries(key: SeriesKey, year: int): Series {
    var prefix := if key == INVOICE_SERIES then "INV/" else "CN/";
    Series(prefix + TwoDigits(year) + "-" + TwoDigits(year + 1) + "/", 0, 5, true)
  }

  function SeriesFor(table: SeriesTable, key: SeriesKey, year: int): Series {
    if (key, year) in table then table[(key, year)] else NewSeries(key, year)
  }

  /** The highest number a series has given out. */
  function Current(table: SeriesTable, key: SeriesKey, year: int): nat { SeriesFor(table, key, year).current }

  datatype Allocation = Allocation(table: SeriesTable, year: int, value: nat, number: string)

  function AllocateNumber(table: SeriesTable, key: SeriesKey, on: Day): Outcome<Allocation> {
    var year := FinancialYearFor(on);
    var series := SeriesFor(table, key, year);
    if !series.active then Refused(VALIDATION_FAILED)
    else
      var value := series.current + 1;
      Done(Allocation(table[(key, year) := series.(current := value)], year, value, FormatNumber(series, value)))
  }

  /** Allocating takes the next number of its own series and disturbs no other. */
  lemma AllocationAdvancesOneSeries(table: SeriesTable, key: SeriesKey, on: Day, other: SeriesKey, year: int)
    ensures
      var r := AllocateNumber(table, key, on);
      r.Done? ==>
        && r.value.value == Current(table, key, r.value.year) + 1
        && Current(r.value.table, other, year) - Current(table, other, year) == (if (other, year) == (key, r.value.year) then 1 else 0)
        && SeriesFor(r.value.table, other, year).prefix == SeriesFor(table, other, year).prefix
        && SeriesFor(r.value.table, other, year).padding == SeriesFor(table, other, year).padding
  {
  }

  // ------------------------------------------------------------------ the financial year

  /** Between 1 April of `y` and 31 March of the year after. */
  predicate InYear(on: Day, y: int) { 12 * y + 4 <= 12 * on.year + on.month < 12 * (y + 1) + 4 }

  /** The first day comes before 1 April of `y`, and the second does not. */
  predicate AprilBetween(a: Day, b: Day, y: int) { 12 * a.year + a.month < 12 * y + 4 <= 12 * b.year + b.month }

  lemma OneYearHoldsADay(on: Day, y: int)
    ensures InYear(on, y) <==> y == FinancialYearFor(on)
  {
  }

  /** A number is taken in the one financial year its day falls in. */
  lemma AllocatesInItsYear(table: SeriesTable, key: SeriesKey, on: Day, y: int)
    ensures var r := AllocateNumber(table, key, on); r.Done? ==> (InYear(on, y) <==> y == r.value.year)
  {
    OneYearHoldsADay(on, y);
  }

  /** Two days fall in one financial year exactly when no 1 April lies between them. */
  lemma YearsTurnInApril(a: Day, y: int, b: Day, z: int)
    requires 12 * a.year + a.month <= 12 * b.year + b.month && InYear(a, y) && InYear(b, z)
    ensures y == z <==> !exists april :: AprilBetween(a, b, april)
  {
    if y != z { assert AprilBetween(a, b, z); }
  }

  // ------------------------------------------------------------------ formatted numbers

  function ValueOf(text: string): int {
    if |text| == 0 then 0 else ValueOf(text[..|text| - 1]) * 10 + (text[|text| - 1] as int - '0' as int)
  }

  lemma {:induction false} DigitsRoundTrip(n: nat)
    ensures ValueOf(Digits(n)) == n
  {
    if n >= 10 {
      DigitsRoundTrip(n / 10);
      assert Digits(n)[..|Digits(n)| - 1] == Digits(n / 10);
    } else {
      assert Digits(n)[..0] == "";
    }
  }

  lemma {:induction false} LeadingZerosAddNothing(zeros: nat, text: string)
    ensures ValueOf(Zeros(zeros) + text) == ValueOf(text)
    decreases zeros + |text|
  {
    var all := Zeros(zeros) + text;
    if |text| > 0 {
      assert all[..|all| - 1] == Zeros(zeros) + text[..|text| - 1];
      LeadingZerosAddNothing(zeros, text[..|text| - 1]);
    } else if zeros > 0 {
      ZerosFromTheRight(zeros);
      assert all[..|all| - 1] == Zeros(zeros - 1) + "";
      LeadingZerosAddNothing(zeros - 1, "");
    }
  }

  lemma {:induction false} ZerosFromTheRight(n: nat)
    requires n > 0
    ensures Zeros(n) == Zeros(n - 1) + "0"
  {
    if n > 1 { ZerosFromTheRight(n - 1); }
  }

  /** Within one prefix and padding, a printed number names exactly one value. */
  lemma FormattedNumbersAreDistinct(s: Series, a: nat, b: nat)
    ensures FormatNumber(s, a) == FormatNumber(s, b) <==> a == b
  {
    if FormatNumber(s, a) == FormatNumber(s, b) {
      assert FormatNumber(s, a)[|s.prefix|..] == Padded(a, s.padding);
      assert FormatNumber(s, b)[|s.prefix|..] == Padded(b, s.padding);
      PaddedRoundTrip(a, s.padding);
      PaddedRoundTrip(b, s.padding);
    }
  }

  lemma PaddedRoundTrip(n: nat, width: nat)
    ensures ValueOf(Padded(n, width)) == n
  {
    DigitsRoundTrip(n);
    if |Digits(n)| < width { LeadingZerosAddNothing(width - |Digits(n)|, Digits(n)); }
  }

  predicate Decimal(text: string) { forall i :: 0 <= i < |text| ==> '0' <= text[i] <= '9' }

  lemma {:induction false} DigitsAreDecimal(n: nat)
    ensures Decimal(Digits(n)) && |Digits(n)| > 0 && (n > 0 ==> Digits(n)[0] != '0')
  {
    if n >= 10 { DigitsAreDecimal(n / 10); }
  }

  lemma {:induction false} ZerosAreDecimal(n: nat)
    ensures Decimal(Zeros(n)) && |Zeros(n)| == n && (n > 0 ==> Zeros(n)[0] == '0')
  {
    if n > 0 { ZerosAreDecimal(n - 1); }
  }

  /** A value's text: its decimal digits, led by zeros only as far as the width asks. */
  predicate WrittenIn(text: string, value: nat, width: nat) {
    && Decimal(text) && ValueOf(text) == value && |text| >= width && |text| > 0
    && (|text| > width && value > 0 ==> text[0] != '0')
  }

  lemma PaddedIsWritten(n: nat, width: nat)
    ensures WrittenIn(Padded(n, width), n, width)
  {
    PaddedRoundTrip(n, width);
    DigitsAreDecimal(n);
    if |Digits(n)| < width { ZerosAreDecimal(width - |Digits(n)|); }
  }

  /** The last two digits of a year. */
  lemma TwoDigitsAreWritten(year: int)
    ensures |TwoDigits(year)| == 2 && WrittenIn(TwoDigits(year), year % 100, 2)
  {
    var s := TwoDigits(year);
    assert s[..1][..0] == "" && ValueOf(s[..1]) == year / 10 % 10;
    assert year % 100 == year / 10 % 10 * 10 + year % 10;
  }

  /** `INV/26-27/00042`: the kind, the two years the financial year spans, and at least five digits of value. */
  ghost predicate Printed(number: string, key: SeriesKey, year: int, value: nat) {
    exists a, b, v :: PrintedParts(number, key, year, value, a, b, v)
  }

  predicate PrintedParts(number: string, key: SeriesKey, year: int, value: nat, a: string, b: string, v: string) {
    && number == (if key == INVOICE_SERIES then "INV/" else "CN/") + a + "-" + b + "/" + v
    && |a| == |b| == 2 && WrittenIn(a, year % 100, 2) && WrittenIn(b, (year + 1) % 100, 2) && WrittenIn(v, value, 5)
  }

  lemma DefaultNumberIsPrinted(key: SeriesKey, year: int, value: nat)
    ensures Printed(FormatNumber(NewSeries(key, year), value), key, year, value)
  {
    TwoDigitsAreWritten(year);
    TwoDigitsAreWritten(year + 1);
    PaddedIsWritten(value, NewSeries(key, year).padding);
    var a, b, v := TwoDigits(year), TwoDigits(year + 1), Padded(value, 5);
    var head := if key == INVOICE_SERIES then "INV/" else "CN/";
    assert head + (a + "-" + b + "/") + v == head + a + "-" + b + "/" + v;
    assert PrintedParts(FormatNumber(NewSeries(key, year), value), key, year, value, a, b, v);
  }

  lemma TwoDigitsAreTheRemainder(a: int, b: int)
    ensures TwoDigits(a) == TwoDigits(b) <==> a % 100 == b % 100
  {
    assert a % 100 == a / 10 % 10 * 10 + a % 10 && b % 100 == b / 10 % 10 * 10 + b % 10;
    var s, t := TwoDigits(a), TwoDigits(b);
    assert s == t <==> s[0] == t[0] && s[1] == t[1];
  }

  /** Text around two pairs of characters shows both pairs. */
  lemma PairsShow(head: string, a: string, b: string, c: string, d: string)
    requires |a| == |b| == |c| == |d| == 2
    ensures head + a + "-" + b + "/" == head + c + "-" + d + "/" <==> a == c && b == d
  {
    var p, q, n := head + a + "-" + b + "/", head + c + "-" + d + "/", |head|;
    assert p[n..n + 2] == a && q[n..n + 2] == c && p[n + 3..n + 5] == b && q[n + 3..n + 5] == d;
  }

  lemma PrefixesNameTheYear(key: SeriesKey, y: int, z: int)
    ensures NewSeries(key, y).prefix == NewSeries(key, z).prefix <==> y % 100 == z % 100
    ensures |NewSeries(key, y).prefix| == |NewSeries(key, z).prefix|
  {
    var head := if key == INVOICE_SERIES then "INV/" else "CN/";
    var a, b, c, d := TwoDigits(y), TwoDigits(y + 1), TwoDigits(z), TwoDigits(z + 1);
    assert NewSeries(key, y).prefix == head + a + "-" + b + "/" && NewSeries(key, z).prefix == head + c + "-" + d + "/";
    PairsShow(head, a, b, c, d);
    YearsFollowAlike(y, z);
  }

  lemma YearsFollowAlike(y: int, z: int)
    ensures TwoDigits(y) == TwoDigits(z) && TwoDigits(y + 1) == TwoDigits(z + 1) <==> y % 100 == z % 100
  {
    TwoDigitsAreTheRemainder(y, z);
    TwoDigitsAreTheRemainder(y + 1, z + 1);
    NextRemainder(y);
    NextRemainder(z);
  }

  lemma NextRemainder(y: int)
    ensures (y + 1) % 100 == if y % 100 == 99 then 0 else y % 100 + 1
  {
  }

  /** On the series as they are created, two documents of one kind print the same number exactly when they share a value and their years a century apart or none. */
  lemma DefaultNumbersAreDistinct(key: SeriesKey, y: int, a: nat, z: int, b: nat)
    ensures FormatNumber(NewSeries(key, y), a) == FormatNumber(NewSeries(key, z), b) <==> y % 100 == z % 100 && a == b
  {
    var s, t := NewSeries(key, y), NewSeries(key, z);
    PrefixesNameTheYear(key, y, z);
    if FormatNumber(s, a) == FormatNumber(t, b) {
      assert FormatNumber(s, a)[..|s.prefix|] == s.prefix && FormatNumber(t, b)[..|t.prefix|] == t.prefix;
    }
    if s.prefix == t.prefix { FormattedNumbersAreDistinct(s, a, b); }
  }
}

/** Calendar dates as the member records and the forms hold them
    ("YYYY-MM-DD"), day numbers counted from 1970-01-01 (the day a date-only
    ISO string denotes, in UTC), and the month arithmetic of
    `date.setMonth(date.getMonth() + n)`, where an overflowing day of the
    month rolls into the following month. */
module Calendar {
  import opened Seqs
  import opened Text

  datatype CalDate = CalDate(year: int, month: int, day: int)

  predicate IsLeapYear(y: int)
  {
    y % 4 == 0 && (y % 100 != 0 || y % 400 == 0)
  }

  function DaysInMonth(y: int, m: int): int
  {
    if m == 2 then (if IsLeapYear(y) then 29 else 28)
    else if m == 4 || m == 6 || m == 9 || m == 11 then 30
    else 31
  }

  function DaysInYear(y: int): int
  {
    if IsLeapYear(y) then 366 else 365
  }

  /** A date the calendar has: month 1 to 12 and a day that month has. */
  predicate IsValid(d: CalDate)
  {
    1 <= d.month <= 12 && 1 <= d.day <= DaysInMonth(d.year, d.month)
  }

  /** Days from 1970-01-01 to the first of January of year `y`. */
  function DaysBeforeYear(y: int): int
    decreases if y >= 1970 then y - 1970 else 1970 - y
  {
    if y == 1970 then 0
    else if y > 1970 then DaysBeforeYear(y - 1) + DaysInYear(y - 1)
    else DaysBeforeYear(y + 1) - DaysInYear(y)
  }

  /** Days from the first of January to the first of month `m`. */
  function DaysBeforeMonth(y: int, m: int): int
    requires 1 <= m <= 12
  {
    [0, 31, 59, 90, 120, 151, 181, 212, 243, 273, 304, 334][m - 1]
      + (if m > 2 && IsLeapYear(y) then 1 else 0)
  }

  /** Day number of the first day of the month `k` months after January of
      year `y`; `k` may be any integer, as JavaScript's month argument. */
  function MonthStart(y: int, k: int): int
  {
    DaysBeforeYear(y + k / 12) + DaysBeforeMonth(y + k / 12, k % 12 + 1)
  }

  /** The day number of year/month/day, months and days allowed to overflow:
      ECMAScript's MakeDay, which `new Date(...)` and `setMonth` use. */
  function DayNumber(d: CalDate): int
  {
    MonthStart(d.year, d.month - 1) + d.day - 1
  }

  lemma YearStep(y: int)
    ensures DaysBeforeYear(y + 1) == DaysBeforeYear(y) + DaysInYear(y)
  {
  }

  lemma MonthStep(y: int, m: int)
    requires 1 <= m < 12
    ensures DaysBeforeMonth(y, m + 1) == DaysBeforeMonth(y, m) + DaysInMonth(y, m)
  {
  }

  /** Consecutive month starts are one month length apart, 28 to 31 days. */
  lemma MonthGap(y: int, k: int)
    ensures MonthStart(y, k + 1) - MonthStart(y, k) == DaysInMonth(y + k / 12, k % 12 + 1)
    ensures 28 <= MonthStart(y, k + 1) - MonthStart(y, k) <= 31
  {
    var q, r := k / 12, k % 12;
    assert k == 12 * q + r;
    if r < 11 {
      assert (k + 1) / 12 == q && (k + 1) % 12 == r + 1;
      MonthStep(y + q, r + 1);
    } else {
      assert (k + 1) / 12 == q + 1 && (k + 1) % 12 == 0;
      YearStep(y + q);
    }
  }

  /** The expiry date of a plan of `n` months that starts on `d`:
      JavaScript's `setMonth(getMonth() + n)`, with a day the target month
      lacks rolled into the month after it (31 January + 1 month is 2 or 3
      March). */
  function AddMonths(d: CalDate, n: int): (r: CalDate)
    requires IsValid(d)
    ensures IsValid(r)
    ensures var k := d.month - 1 + n;
      d.day <= DaysInMonth(d.year + k / 12, k % 12 + 1) ==> r == CalDate(d.year + k / 12, k % 12 + 1, d.day)
  {
    var k := d.month - 1 + n;
    var y, m := d.year + k / 12, k % 12 + 1;
    var dim := DaysInMonth(y, m);
    if d.day <= dim then
      CalDate(y, m, d.day)
    else
      var next := CalDate(y + m / 12, m % 12 + 1, d.day - dim);
      assert 28 <= DaysInMonth(next.year, next.month);
      next
  }

  /** The expiry is the day `setMonth` lands on: year/month + n/day with the
      month and day allowed to overflow. */
  lemma AddMonthsDayNumber(d: CalDate, n: int)
    requires IsValid(d)
    ensures DayNumber(AddMonths(d, n)) == DayNumber(CalDate(d.year, d.month + n, d.day))
  {
    var k := d.month - 1 + n;
    var y, m := d.year + k / 12, k % 12 + 1;
    var dim := DaysInMonth(y, m);
    var r := AddMonths(d, n);
    assert DayNumber(CalDate(d.year, d.month + n, d.day)) == MonthStart(d.year, k) + d.day - 1;
    MonthStartOf(y, m);
    assert MonthStart(d.year, k) == MonthStart(y, m - 1);
    if d.day <= dim {
      assert r == CalDate(y, m, d.day);
    } else {
      var next := CalDate(y + m / 12, m % 12 + 1, d.day - dim);
      assert r == next;
      assert DayNumber(next) == MonthStart(y + m / 12, m % 12) + d.day - dim - 1;
      MonthStartAfter(y, m);
    }
  }

  /** The start of a month given by its ordinary number. */
  lemma MonthStartOf(y: int, m: int)
    requires 1 <= m <= 12
    ensures MonthStart(y, m - 1) == DaysBeforeYear(y) + DaysBeforeMonth(y, m)
  {
    assert (m - 1) / 12 == 0 && (m - 1) % 12 == m - 1;
  }

  /** The month after month `m` of year `y` starts one month length later. */
  lemma MonthStartAfter(y: int, m: int)
    requires 1 <= m <= 12
    ensures MonthStart(y + m / 12, m % 12) == MonthStart(y, m - 1) + DaysInMonth(y, m)
  {
    MonthGap(y, m - 1);
    assert (m - 1) / 12 == 0 && (m - 1) % 12 == m - 1;
    if m == 12 {
      assert MonthStart(y + 1, 0) == DaysBeforeYear(y + 1) + DaysBeforeMonth(y + 1, 1);
      assert MonthStart(y, 12) == DaysBeforeYear(y + 1) + DaysBeforeMonth(y + 1, 1);
    } else {
      assert m / 12 == 0 && m % 12 == m;
    }
  }

  /** A plan of n months lasts between 28n and 31n days. */
  lemma {:induction false} AddMonthsLength(d: CalDate, n: nat)
    requires IsValid(d)
    ensures 28 * n <= DayNumber(AddMonths(d, n)) - DayNumber(d) <= 31 * n
  {
    AddMonthsDayNumber(d, n);
    MonthShiftLength(d, n, AddMonths(d, n));
  }

  /** A date whose day number is that of `d` moved `n` months lies 28n to
      31n days after `d`. */
  lemma MonthShiftLength(d: CalDate, n: nat, e: CalDate)
    requires DayNumber(e) == DayNumber(CalDate(d.year, d.month + n, d.day))
    ensures 28 * n <= DayNumber(e) - DayNumber(d) <= 31 * n
  {
    MonthStartSpan(d.year, d.month - 1, n);
    MonthShift(d, n);
  }

  /** Moving a date `n` months moves its day number as far as its month
      start moves. */
  lemma MonthShift(d: CalDate, n: int)
    ensures DayNumber(CalDate(d.year, d.month + n, d.day)) - DayNumber(d)
         == MonthStart(d.year, d.month - 1 + n) - MonthStart(d.year, d.month - 1)
  {
  }

  lemma {:induction false} MonthStartSpan(y: int, k: int, n: nat)
    ensures 28 * n <= MonthStart(y, k + n) - MonthStart(y, k) <= 31 * n
  {
    if n > 0 {
      MonthStartSpan(y, k, n - 1);
      MonthGap(y, k + n - 1);
    }
  }

  // ---------------------------------------------------------------------
  // The "YYYY-MM-DD" text of a date.

  function Pad(s: string, width: nat): (r: string)
    ensures |r| == if |s| >= width then |s| else width
    decreases width - |s|
  {
    if |s| >= width then s else Pad("0" + s, width)
  }

  /** `toISOString().split("T")[0]` for a date of the years 0 to 9999. */
  function DateText(d: CalDate): string
  {
    (if d.year >= 0 then Pad(NatToString(d.year), 4) else IntToString(d.year))
      + "-" + (if d.month >= 0 then Pad(NatToString(d.month), 2) else IntToString(d.month))
      + "-" + (if d.day >= 0 then Pad(NatToString(d.day), 2) else IntToString(d.day))
  }

  predicate AllDigits(s: string)
  {
    forall i :: 0 <= i < |s| ==> IsDigit(s[i])
  }

  /** Reads a "YYYY-MM-DD" date. */
  function ParseDate(s: string): Option<CalDate>
  {
    if |s| == 10 && s[4] == '-' && s[7] == '-'
       && AllDigits(s[..4]) && AllDigits(s[5..7]) && AllDigits(s[8..])
    then Some(CalDate(DecimalValue(s[..4]), DecimalValue(s[5..7]), DecimalValue(s[8..])))
    else None
  }

  lemma {:induction false} LeadingZero(s: string)
    requires AllDigits(s)
    ensures AllDigits("0" + s) && DecimalValue("0" + s) == DecimalValue(s)
    decreases |s|
  {
    if s != [] {
      var t := "0" + s;
      LeadingZero(s[..|s| - 1]);
      assert t[..|t| - 1] == "0" + s[..|s| - 1];
    }
  }

  lemma {:induction false} PadValue(s: string, width: nat)
    requires AllDigits(s)
    ensures AllDigits(Pad(s, width)) && DecimalValue(Pad(s, width)) == DecimalValue(s)
    decreases width - |s|
  {
    if |s| < width {
      LeadingZero(s);
      PadValue("0" + s, width);
    }
  }

  function Pow10(k: nat): nat
  {
    if k == 0 then 1 else 10 * Pow10(k - 1)
  }

  lemma {:induction false} NatToStringShort(n: nat, width: nat)
    requires width >= 1 && n < Pow10(width)
    ensures |NatToString(n)| <= width
    decreases width
  {
    if n >= 10 {
      assert n / 10 < Pow10(width - 1);
      NatToStringShort(n / 10, width - 1);
    }
  }

  /** The text of a date of the years 0 to 9999 reads back as that date. */
  lemma DateTextRoundTrip(d: CalDate)
    requires IsValid(d) && 0 <= d.year <= 9999
    ensures |DateText(d)| == 10
    ensures ParseDate(DateText(d)) == Some(d)
  {
    assert Pow10(4) == 10000 && Pow10(2) == 100;
    NatToStringShort(d.year, 4);
    NatToStringShort(d.month, 2);
    NatToStringShort(d.day, 2);
    var y, m, dd := Pad(NatToString(d.year), 4), Pad(NatToString(d.month), 2), Pad(NatToString(d.day), 2);
    PadValue(NatToString(d.year), 4);
    PadValue(NatToString(d.month), 2);
    PadValue(NatToString(d.day), 2);
    NatToStringValue(d.year);
    NatToStringValue(d.month);
    NatToStringValue(d.day);
    var s := y + "-" + m + "-" + dd;
    assert DateText(d) == s;
    assert s[..4] == y && s[5..7] == m && s[8..] == dd;
  }
}

/** Calendar dates as the tracker holds them once pandas has parsed the
    `date` column: a day, or NaT ("not a time") for text that did not parse. */
module Dates {
  import opened Order

  /** A `datetime.date`: year, month and day. */
  datatype Day = Day(year: int, month: int, day: int)

  /** A cell of the parsed `date` column. */
  datatype Date = On(day: Day) | NaT

  predicate IsLeapYear(y: int) {
    (y % 4 == 0 && y % 100 != 0) || y % 400 == 0
  }

  function DaysInMonth(y: int, m: int): int {
    if m == 2 then (if IsLeapYear(y) then 29 else 28)
    else if m == 4 || m == 6 || m == 9 || m == 11 then 30
    else 31
  }

  /** The days `datetime.date` can represent (years 1 to 9999). */
  predicate ValidDay(d: Day) {
    && 1 <= d.year <= 9999
    && 1 <= d.month <= 12
    && 1 <= d.day <= DaysInMonth(d.year, d.month)
  }

  /** Chronological order of days, as Python compares `date` values. */
  predicate OnOrBefore(a: Day, b: Day) {
    || a.year < b.year
    || (a.year == b.year && a.month < b.month)
    || (a.year == b.year && a.month == b.month && a.day <= b.day)
  }

  function Pow10(w: nat): (p: nat)
    ensures p > 0
  {
    if w == 0 then 1 else 10 * Pow10(w - 1)
  }

  function DigitChar(n: nat): char
    requires n < 10
  {
    ('0' as int + n) as char
  }

  /** The last `width` decimal digits of `n`, zero-padded. */
  function Digits(n: nat, width: nat): (r: string)
    ensures |r| == width
    ensures forall k :: 0 <= k < width ==> '0' <= r[k] <= '9'
  {
    if width == 0 then [] else Digits(n / 10, width - 1) + [DigitChar(n % 10)]
  }

  /** Distinct numbers below 10^width have distinct digit strings, and the
      strings compare as the numbers do. */
  lemma {:induction false} DigitsOrder(n: nat, m: nat, width: nat)
    requires n < Pow10(width) && m < Pow10(width)
    ensures Digits(n, width) == Digits(m, width) <==> n == m
    ensures Less(Digits(n, width), Digits(m, width)) <==> n < m
  {
    if width == 0 {
      LessIrreflexive([]);
    } else {
      var p, p' := Digits(n / 10, width - 1), Digits(m / 10, width - 1);
      var q, q' := [DigitChar(n % 10)], [DigitChar(m % 10)];
      assert n / 10 < Pow10(width - 1) && m / 10 < Pow10(width - 1);
      DigitsOrder(n / 10, m / 10, width - 1);
      LessConcat(p, q, p', q');
      assert Less(q, q') <==> n % 10 < m % 10 by {
        assert q[1..] == [] && q'[1..] == [];
        LessIrreflexive([]);
      }
      if p + q == p' + q' {
        assert p == (p + q)[..width - 1] && p' == (p' + q')[..width - 1];
        assert q[0] == (p + q)[width - 1] && q'[0] == (p' + q')[width - 1];
      }
    }
  }

  /** The grouping key of a date's calendar month, as
      `dt.to_period('M').astype(str)` renders it: "YYYY-MM", or "NaT". */
  function MonthKey(d: Date): (k: string)
    ensures d.On? ==> |k| == 7 && k[4] == '-'
  {
    match d
    case NaT => "NaT"
    case On(day) => Digits(day.year % 10000, 4) + "-" + Digits(day.month % 100, 2)
  }

  /** Two days of the same calendar month share a key, whatever their day. */
  lemma MonthKeyIgnoresDay(a: Day, b: Day)
    requires a.year == b.year && a.month == b.month
    ensures MonthKey(On(a)) == MonthKey(On(b))
  {
  }

  /** A parsed date never shares its key with NaT. */
  lemma MonthKeyNotNaT(a: Day)
    ensures MonthKey(On(a)) != MonthKey(NaT)
  {
  }

  /** The month key of a valid day is its four-digit year, a dash and its
      two-digit month. */
  lemma MonthKeyParts(a: Day)
    requires ValidDay(a)
    ensures MonthKey(On(a)) == Digits(a.year, 4) + ("-" + Digits(a.month, 2))
    ensures a.year < Pow10(4) && a.month < Pow10(2)
  {
    assert Pow10(2) == 100;
    assert Pow10(4) == 10000;
    assert a.year % 10000 == a.year && a.month % 100 == a.month;
    var y, m := Digits(a.year, 4), Digits(a.month, 2);
    assert MonthKey(On(a)) == y + "-" + m;
    assert y + "-" + m == y + ("-" + m);
  }

  /** The month key tells calendar months apart and sorts them
      chronologically, so the monthly charts run from the earliest month. */
  lemma MonthKeyOrder(a: Day, b: Day)
    requires ValidDay(a) && ValidDay(b)
    ensures MonthKey(On(a)) == MonthKey(On(b)) <==> a.year == b.year && a.month == b.month
    ensures Less(MonthKey(On(a)), MonthKey(On(b)))
            <==> a.year < b.year || (a.year == b.year && a.month < b.month)
  {
    var ya, yb := Digits(a.year, 4), Digits(b.year, 4);
    var ma, mb := Digits(a.month, 2), Digits(b.month, 2);
    MonthKeyParts(a);
    MonthKeyParts(b);
    DigitsOrder(a.year, b.year, 4);
    DigitsOrder(a.month, b.month, 2);
    LessConcat(ya, "-" + ma, yb, "-" + mb);
    LessConcat("-", ma, "-", mb);
    LessIrreflexive("-");
    if ya + ("-" + ma) == yb + ("-" + mb) {
      assert ya == (ya + ("-" + ma))[..4] && yb == (yb + ("-" + mb))[..4];
      assert ma == (ya + ("-" + ma))[5..] && mb == (yb + ("-" + mb))[5..];
    }
  }
}

/**
 Stored timestamps are UTC `isoformat` texts, and the table compares them as text.
 The comparison is chronological, also where the microseconds are omitted.
 */
module Timestamps {

  datatype Stamp = Stamp(year: int, month: int, day: int, hour: int, minute: int, second: int, micro: int) {
    predicate Valid() {
      && 1 <= year <= 9999 && 1 <= month <= 12 && 1 <= day <= DaysInMonth(year, month)
      && 0 <= hour < 24 && 0 <= minute < 60 && 0 <= second < 60 && 0 <= micro < 1_000_000
    }

    /** Microseconds since the start of year 1 in the proleptic Gregorian calendar. */
    function Instant(): int
      requires Valid()
    {
      (((Ordinal(year, month, day) * 24 + hour) * 60 + minute) * 60 + second) * 1_000_000 + micro
    }

    function Iso(): string {
      Pad(year, 4) + "-" + (Pad(month, 2) + "-" + (Pad(day, 2) + "T" + Clock()))
    }

    function Clock(): string {
      Pad(hour, 2) + ":" + (Pad(minute, 2) + ":" + (Pad(second, 2) + Fraction(micro)))
    }
  }

  // ---- The calendar ------------------------------------------------------

  predicate IsLeap(year: int) {
    year % 4 == 0 && (year % 100 != 0 || year % 400 == 0)
  }

  function DaysInMonth(year: int, month: int): int {
    if month == 2 then (if IsLeap(year) then 29 else 28)
    else if month == 4 || month == 6 || month == 9 || month == 11 then 30
    else 31
  }

  const BEFORE_MONTH := [0, 31, 59, 90, 120, 151, 181, 212, 243, 273, 304, 334, 365]

  function DaysBeforeMonth(year: int, month: int): int
    requires 1 <= month <= 13
  {
    BEFORE_MONTH[month - 1] + (if month > 2 && IsLeap(year) then 1 else 0)
  }

  function DaysBeforeYear(year: int): int
    requires 1 <= year
  {
    365 * (year - 1) + (year - 1) / 4 - (year - 1) / 100 + (year - 1) / 400
  }

  function Ordinal(year: int, month: int, day: int): int
    requires 1 <= year && 1 <= month <= 12
  {
    DaysBeforeYear(year) + DaysBeforeMonth(year, month) + day
  }

  lemma YearLength(year: int)
    requires 1 <= year
    ensures DaysBeforeYear(year + 1) == DaysBeforeYear(year) + DaysBeforeMonth(year, 13)
  {
    NextMultiple4(year);
    NextMultiple100(year);
    NextMultiple400(year);
    HundredsAreFours(year);
    FourHundredsAreHundreds(year);
  }

  lemma NextMultiple4(n: int)
    requires 1 <= n
    ensures n / 4 == (n - 1) / 4 + (if n % 4 == 0 then 1 else 0)
  {
  }

  lemma NextMultiple100(n: int)
    requires 1 <= n
    ensures n / 100 == (n - 1) / 100 + (if n % 100 == 0 then 1 else 0)
  {
  }

  lemma HundredsAreFours(n: int)
    requires 1 <= n
    ensures n % 100 == 0 ==> n % 4 == 0
  {
    var q := n / 100;
    assert n == 100 * q + n % 100;
    assert n % 100 == 0 ==> n == 4 * (25 * q);
  }

  lemma FourHundredsAreHundreds(n: int)
    requires 1 <= n
    ensures n % 400 == 0 ==> n % 100 == 0
  {
    var q := n / 400;
    assert n == 400 * q + n % 400;
    assert n % 400 == 0 ==> n == 100 * (4 * q);
  }

  lemma NextMultiple400(n: int)
    requires 1 <= n
    ensures n / 400 == (n - 1) / 400 + (if n % 400 == 0 then 1 else 0)
  {
  }

  lemma {:induction false} YearsGrow(a: int, b: int)
    requires 1 <= a < b
    ensures DaysBeforeYear(a) + DaysBeforeMonth(a, 13) <= DaysBeforeYear(b)
    decreases b - a
  {
    YearLength(a);
    if a + 1 < b {
      YearsGrow(a + 1, b);
      MonthsGrow(a + 1, 1, 13);
    }
  }

  lemma {:induction false} MonthsGrow(year: int, a: int, b: int)
    requires 1 <= a < b <= 13
    ensures DaysBeforeMonth(year, a) + DaysInMonth(year, a) <= DaysBeforeMonth(year, b)
    decreases b - a
  {
    if a + 1 < b {
      MonthsGrow(year, a + 1, b);
    }
  }

  predicate DateLess(a: Stamp, b: Stamp) {
    a.year < b.year || (a.year == b.year && (a.month < b.month || (a.month == b.month && a.day < b.day)))
  }

  lemma EarlierDate(a: Stamp, b: Stamp)
    requires a.Valid() && b.Valid() && DateLess(a, b)
    ensures Ordinal(a.year, a.month, a.day) < Ordinal(b.year, b.month, b.day)
  {
    MonthsGrow(a.year, a.month, 13);
    MonthsGrow(b.year, 1, b.month + 1);
    if a.year < b.year {
      YearsGrow(a.year, b.year);
      if b.month > 1 { MonthsGrow(b.year, 1, b.month); }
    } else if a.month < b.month {
      MonthsGrow(a.year, a.month, b.month);
    }
  }

  predicate ClockLess(a: Stamp, b: Stamp) {
    || a.hour < b.hour
    || (a.hour == b.hour && (a.minute < b.minute
        || (a.minute == b.minute && (a.second < b.second || (a.second == b.second && a.micro < b.micro)))))
  }

  predicate FieldsLess(a: Stamp, b: Stamp) {
    DateLess(a, b) || (a.year == b.year && a.month == b.month && a.day == b.day && ClockLess(a, b))
  }

  lemma EarlierFields(a: Stamp, b: Stamp)
    requires a.Valid() && b.Valid() && FieldsLess(a, b)
    ensures a.Instant() < b.Instant()
  {
    if DateLess(a, b) {
      EarlierDate(a, b);
    }
  }

  // ---- Text --------------------------------------------------------------

  /** Order of texts as the database compares them, character by character. */
  predicate TextLess(s: string, t: string) {
    t != "" && (s == "" || s[0] < t[0] || (s[0] == t[0] && TextLess(s[1..], t[1..])))
  }

  function Digit(d: int): char
    requires 0 <= d < 10
  {
    "0123456789"[d]
  }

  function Pad(n: int, width: nat): string
    decreases width
  {
    if width == 0 then "" else Pad(n / 10, width - 1) + [Digit(n % 10)]
  }

  /** `isoformat` drops a zero fraction. */
  function Fraction(micro: int): string {
    if micro == 0 then "+00:00" else "." + (Pad(micro, 6) + "+00:00")
  }

  lemma {:induction false} PrefixesDecide(x: string, y: string, s: string, t: string)
    requires |x| == |y|
    ensures TextLess(x + s, y + t) <==> TextLess(x, y) || (x == y && TextLess(s, t))
  {
    if x == "" {
      assert x + s == s && y + t == t;
    } else {
      assert (x + s)[1..] == x[1..] + s && (y + t)[1..] == y[1..] + t;
      PrefixesDecide(x[1..], y[1..], s, t);
      assert x == y <==> x[0] == y[0] && x[1..] == y[1..];
    }
  }

  function Pow10(width: nat): nat {
    if width == 0 then 1 else 10 * Pow10(width - 1)
  }

  /** Equal-length texts that are equal, or differ before or in their last character. */
  lemma LastDecides(x: string, y: string, c: char, d: char)
    requires |x| == |y|
    ensures TextLess(x + [c], y + [d]) <==> TextLess(x, y) || (x == y && c < d)
    ensures x + [c] == y + [d] <==> x == y && c == d
  {
    PrefixesDecide(x, y, [c], [d]);
    assert (x + [c])[..|x|] == x && (y + [d])[..|y|] == y && (x + [c])[|x|] == c && (y + [d])[|y|] == d;
  }

  lemma TenthsDecide(a: int, b: int)
    requires a >= 0 && b >= 0
    ensures a < b <==> a / 10 < b / 10 || (a / 10 == b / 10 && Digit(a % 10) < Digit(b % 10))
    ensures a == b <==> a / 10 == b / 10 && Digit(a % 10) == Digit(b % 10)
  {
  }

  lemma {:induction false} PadOrder(a: int, b: int, width: nat)
    requires 0 <= a < Pow10(width) && 0 <= b < Pow10(width)
    ensures |Pad(a, width)| == |Pad(b, width)| == width
    ensures TextLess(Pad(a, width), Pad(b, width)) <==> a < b
    ensures Pad(a, width) == Pad(b, width) <==> a == b
  {
    if width > 0 {
      PadOrder(a / 10, b / 10, width - 1);
      LastDecides(Pad(a / 10, width - 1), Pad(b / 10, width - 1), Digit(a % 10), Digit(b % 10));
      TenthsDecide(a, b);
    }
  }

  lemma FieldDecides(a: int, b: int, width: nat, s: string, t: string)
    requires 0 <= a < Pow10(width) && 0 <= b < Pow10(width)
    ensures TextLess(Pad(a, width) + s, Pad(b, width) + t) <==> a < b || (a == b && TextLess(s, t))
  {
    PadOrder(a, b, width);
    PrefixesDecide(Pad(a, width), Pad(b, width), s, t);
  }

  /** A field and the separator after it. */
  lemma SeparatedDecides(a: int, b: int, width: nat, c: char, s: string, t: string)
    requires 0 <= a < Pow10(width) && 0 <= b < Pow10(width)
    ensures TextLess(Pad(a, width) + [c] + s, Pad(b, width) + [c] + t) <==> a < b || (a == b && TextLess(s, t))
  {
    FieldDecides(a, b, width, [c] + s, [c] + t);
    assert ([c] + s)[1..] == s && ([c] + t)[1..] == t;
    assert Pad(a, width) + [c] + s == Pad(a, width) + ([c] + s);
    assert Pad(b, width) + [c] + t == Pad(b, width) + ([c] + t);
  }

  lemma Powers()
    ensures Pow10(2) == 100 && Pow10(4) == 10_000 && Pow10(6) == 1_000_000
  {
    assert Pow10(3) == 1000 && Pow10(5) == 100_000;
  }

  lemma {:induction false} NotLessItself(s: string)
    ensures !TextLess(s, s)
  {
    if s != "" {
      NotLessItself(s[1..]);
    }
  }

  /** The case of the omitted fraction: '+' comes before '.'. */
  lemma FractionOrder(a: int, b: int)
    requires 0 <= a < 1_000_000 && 0 <= b < 1_000_000
    ensures TextLess(Fraction(a), Fraction(b)) <==> a < b
  {
    Powers();
    NotLessItself("+00:00");
    var s, t := Pad(a, 6) + "+00:00", Pad(b, 6) + "+00:00";
    FieldDecides(a, b, 6, "+00:00", "+00:00");
    assert ("." + s)[1..] == s && ("." + t)[1..] == t;
  }

  lemma ClockOrder(a: Stamp, b: Stamp)
    requires a.Valid() && b.Valid()
    ensures TextLess(a.Clock(), b.Clock()) <==> ClockLess(a, b)
  {
    Powers();
    var sa, sb := Pad(a.second, 2) + Fraction(a.micro), Pad(b.second, 2) + Fraction(b.micro);
    var ma, mb := Pad(a.minute, 2) + ":" + sa, Pad(b.minute, 2) + ":" + sb;
    FractionOrder(a.micro, b.micro);
    FieldDecides(a.second, b.second, 2, Fraction(a.micro), Fraction(b.micro));
    SeparatedDecides(a.minute, b.minute, 2, ':', sa, sb);
    SeparatedDecides(a.hour, b.hour, 2, ':', ma, mb);
  }

  /** Three separated fields before any rest. */
  lemma DateDecides(a: Stamp, b: Stamp, s: string, t: string)
    requires a.Valid() && b.Valid()
    ensures TextLess(Pad(a.year, 4) + "-" + (Pad(a.month, 2) + "-" + (Pad(a.day, 2) + "T" + s)),
                     Pad(b.year, 4) + "-" + (Pad(b.month, 2) + "-" + (Pad(b.day, 2) + "T" + t)))
        <==> DateLess(a, b) || (a.year == b.year && a.month == b.month && a.day == b.day && TextLess(s, t))
  {
    Powers();
    var da, db := Pad(a.day, 2) + "T" + s, Pad(b.day, 2) + "T" + t;
    var ma, mb := Pad(a.month, 2) + "-" + da, Pad(b.month, 2) + "-" + db;
    SeparatedDecides(a.day, b.day, 2, 'T', s, t);
    SeparatedDecides(a.month, b.month, 2, '-', da, db);
    SeparatedDecides(a.year, b.year, 4, '-', ma, mb);
  }

  lemma IsoOrder(a: Stamp, b: Stamp)
    requires a.Valid() && b.Valid()
    ensures TextLess(a.Iso(), b.Iso()) <==> FieldsLess(a, b)
  {
    ClockOrder(a, b);
    DateDecides(a, b, a.Clock(), b.Clock());
  }

  /** For all valid UTC timestamps of four-digit years, text order is chronological order. */
  lemma TextOrderIsChronological(a: Stamp, b: Stamp)
    requires a.Valid() && b.Valid()
    ensures TextLess(a.Iso(), b.Iso()) <==> a.Instant() < b.Instant()
    ensures a.Iso() == b.Iso() <==> a.Instant() == b.Instant()
  {
    IsoOrder(a, b);
    IsoOrder(b, a);
    if FieldsLess(a, b) {
      EarlierFields(a, b);
    } else if FieldsLess(b, a) {
      EarlierFields(b, a);
    } else {
      assert a == b;
    }
    NotLessItself(a.Iso());
  }

  lemma PadDigit(m: int, d: int, width: nat)
    requires 0 <= d < 10
    ensures Pad(10 * m + d, width + 1) == Pad(m, width) + [Digit(d)]
  {
    assert (10 * m + d) / 10 == m && (10 * m + d) % 10 == d;
  }

  /** A padded number shows its decimal digits, the highest first. */
  lemma {:induction false} PadShows(digits: seq<int>)
    requires forall i | 0 <= i < |digits| :: 0 <= digits[i] < 10
    ensures Pad(ValueOf(digits), |digits|) == Shown(digits)
  {
    if digits != [] {
      var init, last := digits[..|digits| - 1], digits[|digits| - 1];
      PadShows(init);
      PadDigit(ValueOf(init), last, |init|);
      ShownSnoc(init, last);
      assert digits == init + [last];
    }
  }

  lemma ShownSnoc(init: seq<int>, last: int)
    requires 0 <= last < 10 && forall i | 0 <= i < |init| :: 0 <= init[i] < 10
    ensures Shown(init + [last]) == Shown(init) + [Digit(last)]
  {
  }

  function ValueOf(digits: seq<int>): int {
    if digits == [] then 0 else 10 * ValueOf(digits[..|digits| - 1]) + digits[|digits| - 1]
  }

  function Shown(digits: seq<int>): string
    requires forall i | 0 <= i < |digits| :: 0 <= digits[i] < 10
  {
    seq(|digits|, i requires 0 <= i < |digits| => Digit(digits[i]))
  }
}

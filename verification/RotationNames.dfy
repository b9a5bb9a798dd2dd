/** Names of rotated log files: their order is the order of their instants
    (apps/minds/electron/log-rotation.js:21-41). */
module RotationNames {
  import opened Decimal

  // The order file names are sorted in

  predicate Less(s: string, t: string)
  {
    if t == "" then false
    else if s == "" then true
    else if s[0] != t[0] then s[0] < t[0]
    else Less(s[1..], t[1..])
  }

  lemma {:induction false} LessIrreflexive(s: string)
    ensures !Less(s, s)
  {
    if s != "" { LessIrreflexive(s[1..]); }
  }

  lemma {:induction false} LessTransitive(s: string, t: string, u: string)
    requires Less(s, t) && Less(t, u)
    ensures Less(s, u)
  {
    if s != "" && s[0] == t[0] == u[0] { LessTransitive(s[1..], t[1..], u[1..]); }
  }

  lemma {:induction false} LessTotal(s: string, t: string)
    ensures Less(s, t) || s == t || Less(t, s)
  {
    if s != "" && t != "" && s[0] == t[0] {
      LessTotal(s[1..], t[1..]);
      assert s == [s[0]] + s[1..] && t == [t[0]] + t[1..];
    }
  }

  lemma {:induction false} LessAfterPrefix(p: string, s: string, t: string)
    ensures Less(p + s, p + t) <==> Less(s, t)
  {
    if p == "" {
      assert p + s == s && p + t == t;
    } else {
      LessAfterPrefix(p[1..], s, t);
      assert (p + s)[1..] == p[1..] + s && (p + t)[1..] == p[1..] + t;
    }
  }

  lemma {:induction false} LessBeforeSuffix(s: string, t: string, q: string)
    requires |s| == |t|
    ensures Less(s + q, t + q) <==> Less(s, t)
  {
    if s == "" {
      assert s + q == q && t + q == q;
      LessIrreflexive(q);
    } else {
      LessBeforeSuffix(s[1..], t[1..], q);
      assert (s + q)[1..] == s[1..] + q && (t + q)[1..] == t[1..] + q;
    }
  }

  /** Digit strings of one length are ordered as the numbers they denote. */
  lemma {:induction false} DigitsOrdered(s: string, t: string)
    requires AllDigits(s) && AllDigits(t) && |s| == |t|
    ensures Less(s, t) <==> Value(s) < Value(t)
    decreases |s|
  {
    if s != "" {
      FirstDigit(s);
      FirstDigit(t);
      DigitsOrdered(s[1..], t[1..]);
      Radix(DigitValue(s[0]), DigitValue(t[0]), Value(s[1..]), Value(t[1..]), Pow10(|s| - 1));
    }
  }

  lemma FirstDigit(s: string)
    requires AllDigits(s) && s != ""
    ensures Value(s) == DigitValue(s[0]) * Pow10(|s| - 1) + Value(s[1..]) && Value(s[1..]) < Pow10(|s| - 1)
  {
    var first, rest := s[..1], s[1..];
    assert s == first + rest;
    assert Value(first) == DigitValue(s[0]) by { assert first[..0] == ""; }
    ValueOfConcat(first, rest);
    ValueBound(rest);
  }

  /** Comparing two-part numbers compares the high parts first. */
  lemma Radix(x: int, y: int, r: int, q: int, base: int)
    requires 0 <= r < base && 0 <= q < base
    ensures x * base + r < y * base + q <==> x < y || (x == y && r < q)
  {
    if x < y { Scaled(x, y, base); }
    if y < x { Scaled(y, x, base); }
  }

  lemma Scaled(x: int, y: int, base: int)
    requires x < y && 0 < base
    ensures x * base + base <= y * base
  {
    assert (y - x - 1) * base >= 0;
    assert (y - x - 1) * base == y * base - x * base - base;
  }

  // Instants, in UTC

  datatype Instant = Instant(year: nat, month: nat, day: nat, hour: nat, minute: nat, second: nat, ms: nat)

  predicate IsLeap(year: nat) { year % 4 == 0 && (year % 100 != 0 || year % 400 == 0) }

  function DaysInYear(year: nat): nat { if IsLeap(year) then 366 else 365 }

  function DaysInMonth(year: nat, month: nat): (d: nat)
    requires 1 <= month <= 12
    ensures 28 <= d <= 31
  {
    if month == 2 then (if IsLeap(year) then 29 else 28)
    else if month == 4 || month == 6 || month == 9 || month == 11 then 30
    else 31
  }

  predicate IsValid(t: Instant)
  {
    && 1 <= t.month <= 12 && 1 <= t.day <= DaysInMonth(t.year, t.month)
    && t.hour < 24 && t.minute < 60 && t.second < 60 && t.ms < 1000
  }

  predicate IsWithin(t: Instant, lastYear: nat)
  {
    IsValid(t) && t.year <= lastYear
  }

  /** Days from 1 January of year 0 to 1 January of `year`. */
  function DaysBeforeYear(year: nat): nat
  {
    if year == 0 then 0 else DaysBeforeYear(year - 1) + DaysInYear(year - 1)
  }

  function DaysBeforeMonth(year: nat, month: nat): nat
    requires 1 <= month <= 13
  {
    if month == 1 then 0 else DaysBeforeMonth(year, month - 1) + DaysInMonth(year, month - 1)
  }

  function DayNumber(t: Instant): nat
    requires IsValid(t)
  {
    DaysBeforeYear(t.year) + DaysBeforeMonth(t.year, t.month) + t.day - 1
  }

  /** Milliseconds since the start of year 0. */
  function Millis(t: Instant): nat
    requires IsValid(t)
  {
    Clock(DayNumber(t), t, 24, 60, 60)
  }

  /** A time of day counted on top of `x`, with each field in the given range. */
  function Clock(x: nat, t: Instant, hours: nat, minutes: nat, seconds: nat): nat
  {
    (((x * hours + t.hour) * minutes + t.minute) * seconds + t.second) * 1000 + t.ms
  }

  /** Year, month, day, hour, minute, second and millisecond, each zero-padded to its width. */
  function RotationTimestamp(t: Instant): string
  {
    Padded(t.year, 4) + Padded(t.month, 2) + Padded(t.day, 2) +
    Padded(t.hour, 2) + Padded(t.minute, 2) + Padded(t.second, 2) + Padded(t.ms, 3)
  }

  // Chronological order, field by field

  predicate DayBefore(a: Instant, b: Instant)
  {
    a.year < b.year || (a.year == b.year && (a.month < b.month || (a.month == b.month && a.day < b.day)))
  }

  predicate SameDay(a: Instant, b: Instant)
  {
    a.year == b.year && a.month == b.month && a.day == b.day
  }

  predicate TimeBefore(a: Instant, b: Instant)
  {
    a.hour < b.hour || (a.hour == b.hour &&
      (a.minute < b.minute || (a.minute == b.minute &&
        (a.second < b.second || (a.second == b.second && a.ms < b.ms)))))
  }

  predicate Before(a: Instant, b: Instant)
  {
    DayBefore(a, b) || (SameDay(a, b) && TimeBefore(a, b))
  }

  lemma {:induction false} YearsGrow(y: nat, z: nat)
    requires y < z
    ensures DaysBeforeYear(y) + DaysInYear(y) <= DaysBeforeYear(z)
    decreases z
  {
    if y + 1 < z { YearsGrow(y, z - 1); }
  }

  lemma {:induction false} MonthsGrow(year: nat, m: nat, n: nat)
    requires 1 <= m < n <= 13
    ensures DaysBeforeMonth(year, m) + DaysInMonth(year, m) <= DaysBeforeMonth(year, n)
    decreases n
  {
    if m + 1 < n { MonthsGrow(year, m, n - 1); }
  }

  lemma MonthsFillYear(year: nat)
    ensures DaysBeforeMonth(year, 13) == DaysInYear(year)
  {
    var f := DaysInMonth(year, 2);
    assert DaysBeforeMonth(year, 4) == 62 + f by {
      assert DaysBeforeMonth(year, 2) == 31 && DaysBeforeMonth(year, 3) == 31 + f;
    }
    assert DaysBeforeMonth(year, 7) == 153 + f by {
      assert DaysBeforeMonth(year, 5) == 92 + f && DaysBeforeMonth(year, 6) == 123 + f;
    }
    assert DaysBeforeMonth(year, 10) == 245 + f by {
      assert DaysBeforeMonth(year, 8) == 184 + f && DaysBeforeMonth(year, 9) == 215 + f;
    }
    assert DaysBeforeMonth(year, 11) == 276 + f && DaysBeforeMonth(year, 12) == 306 + f;
  }

  lemma EarlierDay(a: Instant, b: Instant)
    requires IsValid(a) && IsValid(b) && DayBefore(a, b)
    ensures DayNumber(a) < DayNumber(b)
  {
    if a.year < b.year {
      MonthsFillYear(a.year);
      MonthsGrow(a.year, a.month, 13);
      YearsGrow(a.year, b.year);
    } else if a.month < b.month {
      MonthsGrow(a.year, a.month, b.month);
    }
  }

  lemma DaysOrdered(a: Instant, b: Instant)
    requires IsValid(a) && IsValid(b)
    ensures DayNumber(a) < DayNumber(b) <==> DayBefore(a, b)
    ensures DayNumber(a) == DayNumber(b) <==> SameDay(a, b)
  {
    if DayBefore(a, b) { EarlierDay(a, b); }
    if DayBefore(b, a) { EarlierDay(b, a); }
  }

  /** Milliseconds count chronologically. */
  lemma MillisOrdered(a: Instant, b: Instant)
    requires IsValid(a) && IsValid(b)
    ensures Millis(a) < Millis(b) <==> Before(a, b)
  {
    DaysOrdered(a, b);
    TimesOrdered(DayNumber(a), a, DayNumber(b), b, 24, 60, 60);
  }

  /** The same ladder of comparisons for both readings of the time of day. */
  lemma TimesOrdered(x: nat, a: Instant, y: nat, b: Instant, hours: nat, minutes: nat, seconds: nat)
    requires a.hour < hours && b.hour < hours && a.minute < minutes && b.minute < minutes
    requires a.second < seconds && b.second < seconds && a.ms < 1000 && b.ms < 1000
    ensures Clock(x, a, hours, minutes, seconds) < Clock(y, b, hours, minutes, seconds) <==>
      (x < y || (x == y && TimeBefore(a, b)))
  {
    var xh, yh := x * hours + a.hour, y * hours + b.hour;
    var xm, ym := xh * minutes + a.minute, yh * minutes + b.minute;
    var xs, ys := xm * seconds + a.second, ym * seconds + b.second;
    RadixBoth(x, y, a.hour, b.hour, hours);
    RadixBoth(xh, yh, a.minute, b.minute, minutes);
    RadixBoth(xm, ym, a.second, b.second, seconds);
    RadixBoth(xs, ys, a.ms, b.ms, 1000);
  }

  lemma RadixBoth(x: int, y: int, r: int, q: int, base: int)
    requires 0 <= r < base && 0 <= q < base
    ensures x * base + r < y * base + q <==> x < y || (x == y && r < q)
    ensures x * base + r == y * base + q <==> x == y && r == q
  {
    Radix(x, y, r, q, base);
    Radix(y, x, q, r, base);
  }

  /** The number the date part of a timestamp spells. */
  function DateDigits(t: Instant): nat
  {
    (t.year * 100 + t.month) * 100 + t.day
  }

  lemma DateDigitsOrdered(a: Instant, b: Instant)
    requires IsValid(a) && IsValid(b)
    ensures DateDigits(a) < DateDigits(b) <==> DayBefore(a, b)
    ensures DateDigits(a) == DateDigits(b) <==> SameDay(a, b)
  {
    RadixBoth(a.year, b.year, a.month, b.month, 100);
    RadixBoth(a.year * 100 + a.month, b.year * 100 + b.month, a.day, b.day, 100);
  }

  lemma TimestampValue(t: Instant)
    requires IsWithin(t, 9999)
    ensures AllDigits(RotationTimestamp(t)) && |RotationTimestamp(t)| == 17
    ensures Value(RotationTimestamp(t)) == Clock(DateDigits(t), t, 100, 100, 100)
  {
    assert Pow10(1) == 10 && Pow10(2) == 100 && Pow10(3) == 1000 && Pow10(4) == 10000;
    var s := Padded(t.year, 4);
    PaddedField(t.year, 4);
    AppendField(s, t.month, 2);
    AppendField(s + Padded(t.month, 2), t.day, 2);
    var d := s + Padded(t.month, 2) + Padded(t.day, 2);
    AppendField(d, t.hour, 2);
    AppendField(d + Padded(t.hour, 2), t.minute, 2);
    var m := d + Padded(t.hour, 2) + Padded(t.minute, 2);
    AppendField(m, t.second, 2);
    AppendField(m + Padded(t.second, 2), t.ms, 3);
  }

  lemma PaddedField(n: nat, width: nat)
    requires width > 0 && n < Pow10(width)
    ensures |Padded(n, width)| == width && Value(Padded(n, width)) == n
  {
    PaddedLength(n, width);
    ValueOfPadded(n, width);
  }

  lemma AppendField(s: string, n: nat, width: nat)
    requires AllDigits(s) && width > 0 && n < Pow10(width)
    ensures AllDigits(s + Padded(n, width)) && |s + Padded(n, width)| == |s| + width
    ensures Value(s + Padded(n, width)) == Value(s) * Pow10(width) + n
  {
    PaddedField(n, width);
    ValueOfConcat(s, Padded(n, width));
  }

  /** A timestamp is 17 digits: four of the year, two each of month, day, hour,
      minute and second, three of the millisecond. */
  lemma TimestampSpells(t: Instant)
    requires IsWithin(t, 9999)
    ensures AllDigits(RotationTimestamp(t)) && |RotationTimestamp(t)| == 17
    ensures Value(RotationTimestamp(t)) ==
      t.year * 10000000000000 + t.month * 100000000000 + t.day * 1000000000
      + t.hour * 10000000 + t.minute * 100000 + t.second * 1000 + t.ms
  {
    TimestampValue(t);
  }

  /** Timestamps sort as strings exactly as their instants follow each other in time. */
  lemma TimestampsOrdered(a: Instant, b: Instant)
    requires IsWithin(a, 9999) && IsWithin(b, 9999)
    ensures Less(RotationTimestamp(a), RotationTimestamp(b)) <==> Millis(a) < Millis(b)
  {
    TimestampValue(a);
    TimestampValue(b);
    DigitsOrdered(RotationTimestamp(a), RotationTimestamp(b));
    DateDigitsOrdered(a, b);
    TimesOrdered(DateDigits(a), a, DateDigits(b), b, 100, 100, 100);
    MillisOrdered(a, b);
  }

  /** A compressed rotation's name. */
  function RotatedName(baseName: string, t: Instant): string
  {
    baseName + "." + RotationTimestamp(t) + ".gz"
  }

  /** So do the names of compressed rotations of one file. */
  lemma RotatedNamesOrdered(baseName: string, a: Instant, b: Instant)
    requires IsWithin(a, 9999) && IsWithin(b, 9999)
    ensures Less(RotatedName(baseName, a), RotatedName(baseName, b)) <==> Millis(a) < Millis(b)
  {
    var s, t := RotationTimestamp(a), RotationTimestamp(b);
    var p := baseName + ".";
    assert RotatedName(baseName, a) == p + (s + ".gz") && RotatedName(baseName, b) == p + (t + ".gz");
    LessAfterPrefix(p, s + ".gz", t + ".gz");
    TimestampValue(a);
    TimestampValue(b);
    LessBeforeSuffix(s, t, ".gz");
    TimestampsOrdered(a, b);
  }

  const LAST_OF_9999 := Instant(9999, 12, 31, 23, 59, 59, 999)

  const FIRST_OF_10000 := Instant(10000, 1, 1, 0, 0, 0, 0)

  /** Beyond year 9999 the stamp outgrows its width: the next one has a smaller first digit. */
  lemma YearTenThousandSortsFirst(baseName: string)
    ensures Millis(LAST_OF_9999) < Millis(FIRST_OF_10000)
    ensures Less(RotatedName(baseName, FIRST_OF_10000), RotatedName(baseName, LAST_OF_9999))
  {
    MillisOrdered(LAST_OF_9999, FIRST_OF_10000);
    var s, t := RotationTimestamp(FIRST_OF_10000), RotationTimestamp(LAST_OF_9999);
    YearDigits();
    StartsWithYear(FIRST_OF_10000);
    StartsWithYear(LAST_OF_9999);
    var p := baseName + ".";
    assert RotatedName(baseName, FIRST_OF_10000) == p + (s + ".gz");
    assert RotatedName(baseName, LAST_OF_9999) == p + (t + ".gz");
    LessAfterPrefix(p, s + ".gz", t + ".gz");
    assert (s + ".gz")[0] == '1' && (t + ".gz")[0] == '9';
  }

  lemma StartsWithYear(t: Instant)
    requires Padded(t.year, 4) != ""
    ensures RotationTimestamp(t) != "" && RotationTimestamp(t)[0] == Padded(t.year, 4)[0]
  {
  }

  lemma YearDigits()
    ensures Padded(9999, 4) != "" && Padded(9999, 4)[0] == '9'
    ensures Padded(10000, 4) != "" && Padded(10000, 4)[0] == '1'
  {
    LeadingDigit(9999);
    LeadingDigit(10000);
    assert Pow10(4) == 10000 by { assert Pow10(1) == 10 && Pow10(2) == 100 && Pow10(3) == 1000; }
    PaddedField(9999, 4);
    ValueBound(Numeral(10000));
    ValueOfNumeral(10000);
    ValueOfNumeral(9999);
  }

  /** The names of rotations made in years up to `lastYear` sort as they were
      made exactly when `lastYear` has at most four digits. */
  lemma NamesSortUpToYear(baseName: string, lastYear: nat)
    ensures (forall a, b | IsWithin(a, lastYear) && IsWithin(b, lastYear) ::
               Less(RotatedName(baseName, a), RotatedName(baseName, b)) <==> Millis(a) < Millis(b))
      <==> lastYear <= 9999
  {
    if lastYear <= 9999 {
      forall a, b | IsWithin(a, lastYear) && IsWithin(b, lastYear)
        ensures Less(RotatedName(baseName, a), RotatedName(baseName, b)) <==> Millis(a) < Millis(b)
      {
        RotatedNamesOrdered(baseName, a, b);
      }
    } else {
      YearTenThousandSortsFirst(baseName);
      assert IsWithin(LAST_OF_9999, lastYear) && IsWithin(FIRST_OF_10000, lastYear);
    }
  }

  lemma {:induction false} LeadingDigit(n: nat)
    ensures n >= 10 ==> Numeral(n)[0] == Numeral(n / 10)[0]
    ensures n == 9999 ==> Numeral(n)[0] == '9'
    ensures n == 10000 ==> Numeral(n)[0] == '1'
  {
    if n == 9999 {
      assert Numeral(9)[0] == '9' && Numeral(99)[0] == '9' && Numeral(999)[0] == '9';
    } else if n == 10000 {
      assert Numeral(1)[0] == '1' && Numeral(10)[0] == '1' && Numeral(100)[0] == '1' && Numeral(1000)[0] == '1';
    }
  }
}

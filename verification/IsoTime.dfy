/**
 Timers are stored as the text `datetime.isoformat()` gives for a UTC datetime, and
 expiry is decided by SQLite comparing that text. The text has a microsecond part only
 when it is not zero, so two timers need not have the same length. This module proves
 that the comparison of texts is nevertheless the comparison of instants.
 */
module IsoTime {

  datatype DateTime = DateTime(year: nat, month: nat, day: nat,
                               hour: nat, minute: nat, second: nat, micro: nat)

  predicate Leap(year: nat) {
    year % 4 == 0 && (year % 100 != 0 || year % 400 == 0)
  }

  function DaysInMonth(year: nat, month: nat): nat {
    if month == 2 then (if Leap(year) then 29 else 28)
    else if month == 4 || month == 6 || month == 9 || month == 11 then 30
    else 31
  }

  /** The range of Python's `datetime`. */
  predicate Valid(d: DateTime) {
    && 1 <= d.year <= 9999
    && 1 <= d.month <= 12
    && 1 <= d.day <= DaysInMonth(d.year, d.month)
    && d.hour < 24 && d.minute < 60 && d.second < 60 && d.micro < 1_000_000
  }

  const EPOCH := DateTime(1970, 1, 1, 0, 0, 0, 0)

  type Stamp = d: DateTime | Valid(d) witness EPOCH

  /** A clock reading; a timer can be added to it without leaving the range. */
  type Clock = d: DateTime | Valid(d) && d.year < 9999 witness EPOCH

  // ---------- Chronological order ----------

  function DaysBeforeYear(year: nat): nat
    requires 1 <= year
  {
    var p := year - 1;
    365 * p + p / 4 - p / 100 + p / 400
  }

  function DaysBeforeMonth(year: nat, month: nat): nat {
    if month <= 1 then 0 else DaysBeforeMonth(year, month - 1) + DaysInMonth(year, month - 1)
  }

  function Days(d: DateTime): nat
    requires Valid(d)
  {
    DaysBeforeYear(d.year) + DaysBeforeMonth(d.year, d.month) + (d.day - 1)
  }

  function Seconds(d: DateTime): nat {
    (d.hour * 60 + d.minute) * 60 + d.second
  }

  /** Microseconds since 0001-01-01T00:00:00 on the proleptic Gregorian calendar. */
  function Micros(d: Stamp): nat {
    (Days(d) * 86400 + Seconds(d)) * 1_000_000 + d.micro
  }

  predicate Before(a: Stamp, b: Stamp) {
    Micros(a) < Micros(b)
  }

  predicate AtOrBefore(a: Stamp, b: Stamp) {
    Micros(a) <= Micros(b)
  }

  lemma YearLength(year: nat)
    ensures DaysBeforeMonth(year, 13) == 365 + (if Leap(year) then 1 else 0)
  {
    var leap := if Leap(year) then 1 else 0;
    assert DaysBeforeMonth(year, 1) == 0;
    assert DaysBeforeMonth(year, 3) == 59 + leap;
    assert DaysBeforeMonth(year, 5) == 120 + leap;
    assert DaysBeforeMonth(year, 7) == 181 + leap;
    assert DaysBeforeMonth(year, 9) == 243 + leap;
    assert DaysBeforeMonth(year, 11) == 304 + leap;
  }

  lemma MonthMonotone(year: nat, m: nat, n: nat)
    requires m < n
    ensures m >= 1 ==> DaysBeforeMonth(year, m) + DaysInMonth(year, m) <= DaysBeforeMonth(year, n)
    ensures n <= 13 ==> DaysBeforeMonth(year, n) <= 365 + (if Leap(year) then 1 else 0)
    decreases n
  {
    YearLength(year);
    MonthStep(year, n, 13);
    MonthStep(year, m + 1, n);
  }

  lemma MonthStep(year: nat, m: nat, n: nat)
    ensures m <= n ==> DaysBeforeMonth(year, m) <= DaysBeforeMonth(year, n)
    decreases n
  {
    if m < n {
      MonthStep(year, m, n - 1);
    }
  }

  lemma Quarter(y: nat)
    requires 1 <= y
    ensures y / 4 == (y - 1) / 4 + (if y % 4 == 0 then 1 else 0)
  {
  }

  lemma Century(y: nat)
    requires 1 <= y
    ensures y / 100 == (y - 1) / 100 + (if y % 100 == 0 then 1 else 0)
    ensures y % 100 == 0 ==> y % 4 == 0
  {
    assert y == 100 * (y / 100) + y % 100;
  }

  lemma FourCenturies(y: nat)
    requires 1 <= y
    ensures y / 400 == (y - 1) / 400 + (if y % 400 == 0 then 1 else 0)
    ensures y % 400 == 0 ==> y % 100 == 0
  {
    assert y == 400 * (y / 400) + y % 400;
  }

  lemma YearStep(y: nat)
    requires 1 <= y
    ensures DaysBeforeYear(y + 1) == DaysBeforeYear(y) + 365 + (if Leap(y) then 1 else 0)
  {
    Quarter(y);
    Century(y);
    FourCenturies(y);
  }

  lemma YearMonotone(y: nat, z: nat)
    requires 1 <= y < z
    ensures DaysBeforeYear(y) + 365 + (if Leap(y) then 1 else 0) <= DaysBeforeYear(z)
    decreases z
  {
    YearStep(z - 1);
    if y + 1 < z {
      YearMonotone(y, z - 1);
    }
  }

  /** Comparison field by field, most significant first. */
  predicate FieldsBefore(a: DateTime, b: DateTime) {
    || a.year < b.year
    || (a.year == b.year
        && (|| a.month < b.month
            || (a.month == b.month
                && (|| a.day < b.day
                    || (a.day == b.day && TimeBefore(a, b))))))
  }

  predicate TimeBefore(a: DateTime, b: DateTime) {
    || a.hour < b.hour
    || (a.hour == b.hour
        && (|| a.minute < b.minute
            || (a.minute == b.minute
                && (a.second < b.second || (a.second == b.second && a.micro < b.micro)))))
  }

  lemma DayInYear(d: Stamp)
    ensures Days(d) < DaysBeforeYear(d.year) + 365 + (if Leap(d.year) then 1 else 0)
  {
    MonthMonotone(d.year, d.month, d.month + 1);
  }

  lemma FieldsBeforeIsBefore(a: Stamp, b: Stamp)
    requires FieldsBefore(a, b)
    ensures Before(a, b)
  {
    if a.year < b.year {
      DayInYear(a);
      YearMonotone(a.year, b.year);
      assert Days(a) < Days(b);
    } else if a.month < b.month {
      MonthMonotone(a.year, a.month, b.month);
      assert Days(a) < Days(b);
    }
  }

  /** The calendar order on fields is the order of instants. */
  lemma ChronologicalOrder(a: Stamp, b: Stamp)
    ensures Before(a, b) <==> FieldsBefore(a, b)
  {
    if FieldsBefore(a, b) {
      FieldsBeforeIsBefore(a, b);
    } else if a != b {
      FieldsBeforeIsBefore(b, a);
    }
  }

  // ---------- Text ----------

  /** SQLite's BINARY collation on TEXT: `a <= b`. */
  predicate TextLe(a: string, b: string) {
    |a| == 0 || (|b| > 0 && (a[0] < b[0] || (a[0] == b[0] && TextLe(a[1..], b[1..]))))
  }

  function Pow10(width: nat): nat {
    if width == 0 then 1 else 10 * Pow10(width - 1)
  }

  function Digit(n: nat): char
    requires n < 10
  {
    '0' + n as char
  }

  /** `n` in decimal, zero-padded to `width` digits. */
  function Pad(n: nat, width: nat): (s: string)
    ensures |s| == width
  {
    if width == 0 then "" else Pad(n / 10, width - 1) + [Digit(n % 10)]
  }

  function Field(n: nat, width: nat, separator: string, rest: string): string {
    Pad(n, width) + (separator + rest)
  }

  function Fraction(micro: nat): string {
    if micro == 0 then "+00:00" else "." + Field(micro, 6, "", "+00:00")
  }

  /** `datetime.isoformat()` of an aware UTC datetime. */
  function Iso(d: Stamp): string {
    Field(d.year, 4, "-", Field(d.month, 2, "-", Field(d.day, 2, "T",
      Field(d.hour, 2, ":", Field(d.minute, 2, ":", Field(d.second, 2, "", Fraction(d.micro)))))))
  }

  lemma {:induction false} TextLePrefix(a: string, b: string, x: string, y: string)
    requires |a| == |b|
    ensures TextLe(a + x, b + y) <==> if a == b then TextLe(x, y) else TextLe(a, b)
  {
    if |a| == 0 {
      assert a + x == x && b + y == y;
    } else {
      assert (a + x)[1..] == a[1..] + x && (b + y)[1..] == b[1..] + y;
      TextLePrefix(a[1..], b[1..], x, y);
      assert a == [a[0]] + a[1..] && b == [b[0]] + b[1..];
    }
  }

  lemma {:induction false} PadOrder(n: nat, m: nat, width: nat)
    requires n < Pow10(width) && m < Pow10(width)
    ensures Pad(n, width) == Pad(m, width) <==> n == m
    ensures TextLe(Pad(n, width), Pad(m, width)) <==> n <= m
  {
    if width > 0 {
      var a, b := Pad(n / 10, width - 1), Pad(m / 10, width - 1);
      var x, y := [Digit(n % 10)], [Digit(m % 10)];
      PadOrder(n / 10, m / 10, width - 1);
      TextLePrefix(a, b, x, y);
      assert (a + x)[..width - 1] == a && (b + y)[..width - 1] == b;
      assert (a + x)[width - 1] == x[0] && (b + y)[width - 1] == y[0];
    }
  }

  lemma FieldOrder(n: nat, m: nat, width: nat, separator: string, x: string, y: string)
    requires n < Pow10(width) && m < Pow10(width)
    ensures TextLe(Field(n, width, separator, x), Field(m, width, separator, y))
       <==> n < m || (n == m && TextLe(x, y))
  {
    PadOrder(n, m, width);
    TextLePrefix(Pad(n, width), Pad(m, width), separator + x, separator + y);
    TextLePrefix(separator, separator, x, y);
  }

  /** An omitted microsecond part sorts below every present one, because '+' is below '.'. */
  lemma FractionOrder(u: nat, v: nat)
    requires u < 1_000_000 && v < 1_000_000
    ensures TextLe(Fraction(u), Fraction(v)) <==> u <= v
  {
    assert Pow10(6) == 1_000_000;
    FieldOrder(u, v, 6, "", "+00:00", "+00:00");
    TextLeReflexive("+00:00");
    if u > 0 && v > 0 {
      TextLePrefix(".", ".", Field(u, 6, "", "+00:00"), Field(v, 6, "", "+00:00"));
    }
  }

  lemma TextLeReflexive(s: string)
    ensures TextLe(s, s)
  {
    TextLePrefix(s, s, "", "");
    assert s + "" == s;
  }

  /** The main result: the expiry comparison in SQL is the comparison of instants. */
  lemma IsoOrderIsChronological(a: Stamp, b: Stamp)
    ensures TextLe(Iso(a), Iso(b)) <==> AtOrBefore(a, b)
  {
    assert Pow10(2) == 100 && Pow10(4) == 10_000;
    IsoOrderIsFieldOrder(a, b);
    ChronologicalOrder(a, b);
    ChronologicalOrder(b, a);
  }

  lemma IsoOrderIsFieldOrder(a: Stamp, b: Stamp)
    ensures TextLe(Iso(a), Iso(b)) <==> a == b || FieldsBefore(a, b)
  {
    assert Pow10(2) == 100 && Pow10(4) == 10_000;
    var sa, sb := Field(a.second, 2, "", Fraction(a.micro)), Field(b.second, 2, "", Fraction(b.micro));
    var ma, mb := Field(a.minute, 2, ":", sa), Field(b.minute, 2, ":", sb);
    var ha, hb := Field(a.hour, 2, ":", ma), Field(b.hour, 2, ":", mb);
    var da, db := Field(a.day, 2, "T", ha), Field(b.day, 2, "T", hb);
    var na, nb := Field(a.month, 2, "-", da), Field(b.month, 2, "-", db);
    FractionOrder(a.micro, b.micro);
    FieldOrder(a.second, b.second, 2, "", Fraction(a.micro), Fraction(b.micro));
    FieldOrder(a.minute, b.minute, 2, ":", sa, sb);
    FieldOrder(a.hour, b.hour, 2, ":", ma, mb);
    FieldOrder(a.day, b.day, 2, "T", ha, hb);
    FieldOrder(a.month, b.month, 2, "-", da, db);
    FieldOrder(a.year, b.year, 4, "-", na, nb);
  }

  // ---------- Adding a timer ----------

  function NextDay(d: DateTime): DateTime {
    if d.day < DaysInMonth(d.year, d.month) then d.(day := d.day + 1)
    else if d.month < 12 then d.(month := d.month + 1, day := 1)
    else d.(year := d.year + 1, month := 1, day := 1)
  }

  function NextMinute(d: DateTime): DateTime {
    if d.minute < 59 then d.(minute := d.minute + 1)
    else if d.hour < 23 then d.(hour := d.hour + 1, minute := 0)
    else NextDay(d.(hour := 0, minute := 0))
  }

  lemma NextDayIsOneDayLater(d: Clock)
    ensures Valid(NextDay(d)) && Days(NextDay(d)) == Days(d) + 1
  {
    if d.day == DaysInMonth(d.year, d.month) && d.month == 12 {
      YearLength(d.year);
      YearStep(d.year);
    }
  }

  lemma NextMinuteIsOneMinuteLater(d: Clock)
    ensures Valid(NextMinute(d)) && NextMinute(d).second == d.second && NextMinute(d).micro == d.micro
    ensures Micros(NextMinute(d)) == Micros(d) + 60_000_000
  {
    NextDayIsOneDayLater(d.(hour := 0, minute := 0));
  }

  lemma SecondsShift(d: Stamp, second: nat)
    requires second < 60
    ensures Valid(d.(second := second))
    ensures Micros(d.(second := second)) == Micros(d) + (second - d.second) * 1_000_000
  {
    assert Days(d.(second := second)) == Days(d);
  }

  /** `now + timedelta(seconds=seconds)` for at most a minute. */
  function Plus(now: Clock, seconds: nat): (r: Stamp)
    requires seconds <= 60
    ensures Micros(r) == Micros(now) + seconds * 1_000_000
  {
    if now.second + seconds < 60 then
      SecondsShift(now, now.second + seconds);
      now.(second := now.second + seconds)
    else
      NextMinuteIsOneMinuteLater(now);
      SecondsShift(NextMinute(now), now.second + seconds - 60);
      NextMinute(now).(second := now.second + seconds - 60)
  }
}

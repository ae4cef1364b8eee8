/** UTC instants and the text `time.Format(time.RFC3339Nano)` gives them.
    The database stores and compares this text, so how its byte order relates to time is proved here. */
module Clock {
  import opened Strings

  const NANOS := 1_000_000_000
  const DAY_SECONDS := 86_400
  const HOUR: nat := 3_600 * NANOS

  /** Days of the years 0 to 9999 of the Gregorian calendar. */
  const ALL_DAYS := 3_652_425

  /** Nanoseconds since 0000-01-01T00:00:00Z, up to the end of the year 9999. */
  type Instant = t: nat | t < ALL_DAYS * DAY_SECONDS * NANOS

  /** What the wall clock can read: any instant with a full day before it. */
  type Reading = t: Instant | t >= DAY_SECONDS * NANOS witness DAY_SECONDS * NANOS

  function HourBefore(t: Reading): Instant {
    t - HOUR
  }

  predicate IsLeap(year: nat) {
    year % 4 == 0 && (year % 100 != 0 || year % 400 == 0)
  }

  function YearLength(year: nat): nat {
    if IsLeap(year) then 366 else 365
  }

  function DaysBeforeYear(year: nat): nat {
    if year == 0 then 0 else DaysBeforeYear(year - 1) + YearLength(year - 1)
  }

  /** The year that day number `days` falls in, searching upward from `year`. */
  function YearOf(days: nat, year: nat): (y: nat)
    requires DaysBeforeYear(year) <= days
    ensures DaysBeforeYear(y) <= days < DaysBeforeYear(y) + YearLength(y)
    decreases days - DaysBeforeYear(year)
  {
    if days < DaysBeforeYear(year) + YearLength(year) then year else YearOf(days, year + 1)
  }

  function MonthLength(leap: bool, month: nat): nat {
    if month == 2 then (if leap then 29 else 28)
    else if month == 4 || month == 6 || month == 9 || month == 11 then 30 else 31
  }

  function DaysBeforeMonth(leap: bool, month: nat): nat {
    if month <= 1 then 0 else DaysBeforeMonth(leap, month - 1) + MonthLength(leap, month - 1)
  }

  lemma MonthsFillYear(leap: bool)
    ensures DaysBeforeMonth(leap, 13) == if leap then 366 else 365
  {
    assert DaysBeforeMonth(leap, 2) == 31;
    assert DaysBeforeMonth(leap, 3) == if leap then 60 else 59;
    assert DaysBeforeMonth(leap, 5) == DaysBeforeMonth(leap, 3) + 61;
    assert DaysBeforeMonth(leap, 7) == DaysBeforeMonth(leap, 5) + 61;
    assert DaysBeforeMonth(leap, 9) == DaysBeforeMonth(leap, 7) + 62;
    assert DaysBeforeMonth(leap, 11) == DaysBeforeMonth(leap, 9) + 61;
    assert DaysBeforeMonth(leap, 13) == DaysBeforeMonth(leap, 11) + 61;
  }

  function MonthOf(leap: bool, day: nat, month: nat): (m: nat)
    requires 1 <= month <= 12
    requires DaysBeforeMonth(leap, month) <= day < DaysBeforeMonth(leap, 13)
    ensures month <= m <= 12
    ensures DaysBeforeMonth(leap, m) <= day < DaysBeforeMonth(leap, m) + MonthLength(leap, m)
    decreases 12 - month
  {
    if day < DaysBeforeMonth(leap, month + 1) then month else MonthOf(leap, day, month + 1)
  }

  predicate ValidDate(year: nat, month: nat, day: nat) {
    1 <= month <= 12 && 1 <= day <= MonthLength(IsLeap(year), month)
  }

  /** Days before the date, counted from 0000-01-01. */
  function DayNumber(year: nat, month: nat, day: nat): int {
    DaysBeforeYear(year) + DaysBeforeMonth(IsLeap(year), month) + day - 1
  }

  /** The calendar date of a day number. */
  function Date(days: nat): (f: seq<nat>)
    ensures |f| == 3 && ValidDate(f[0], f[1], f[2]) && DayNumber(f[0], f[1], f[2]) == days
  {
    var year := YearOf(days, 0);
    var dayOfYear := days - DaysBeforeYear(year);
    MonthsFillYear(IsLeap(year));
    var month := MonthOf(IsLeap(year), dayOfYear, 1);
    [year, month, dayOfYear - DaysBeforeMonth(IsLeap(year), month) + 1]
  }

  function TimeOfDay(rest: nat): (f: seq<nat>)
    ensures |f| == 3
  {
    [rest / 3600, rest % 3600 / 60, rest % 60]
  }

  /** Year, month, day, hour, minute and second of a second count. */
  function Fields(second: nat): (f: seq<nat>)
    ensures |f| == 6
  {
    Date(second / DAY_SECONDS) + TimeOfDay(second % DAY_SECONDS)
  }

  const WIDTHS: seq<nat> := [4, 2, 2, 2, 2, 2]
  const SEPARATORS: seq<char> := ['-', '-', 'T', ':', ':']

  function DigitChar(d: nat): char
    requires d < 10
  {
    (48 + d) as char
  }

  function Pow10(w: nat): nat {
    if w == 0 then 1 else 10 * Pow10(w - 1)
  }

  /** `n` in exactly `width` decimal digits. */
  function Digits(n: nat, width: nat): (s: string)
    ensures |s| == width
    ensures forall i :: 0 <= i < width ==> '0' <= s[i] <= '9'
  {
    if width == 0 then "" else Digits(n / 10, width - 1) + [DigitChar(n % 10)]
  }

  /** Each value in its width, with the separators between. */
  function Joined(values: seq<nat>, widths: seq<nat>, seps: seq<char>): string
    requires |values| == |widths| == |seps| + 1
  {
    if |values| == 1 then Digits(values[0], widths[0])
    else Digits(values[0], widths[0]) + ([seps[0]] + Joined(values[1..], widths[1..], seps[1..]))
  }

  function TrimZeros(s: string): (r: string)
    ensures r <= s
    ensures r != "" ==> r[|r| - 1] != '0'
    ensures forall i :: |r| <= i < |s| ==> s[i] == '0'
  {
    if s != "" && s[|s| - 1] == '0' then TrimZeros(s[..|s| - 1]) else s
  }

  /** The fraction digits that are printed: none for a whole second, never a trailing zero. */
  function Fraction(t: nat): string {
    TrimZeros(Digits(t % NANOS, 9))
  }

  function FractionText(digits: string): string {
    (if digits == "" then "" else "." + digits) + "Z"
  }

  function Second(t: nat): nat {
    t / NANOS
  }

  /** `t.UTC().Format(time.RFC3339Nano)`. */
  function Text(t: Instant): string {
    Joined(Fields(Second(t)), WIDTHS, SEPARATORS) + FractionText(Fraction(t))
  }

  // ---- Fixed-width numbers compare as text ----

  lemma {:induction false} SameWidth(a: string, b: string, x: string, y: string)
    requires |a| == |b|
    ensures Less(a + x, b + y) == if a == b then Less(x, y) else Less(a, b)
  {
    if a == b {
      LessPrefix(a, x, y);
    } else if a[0] == b[0] {
      assert (a + x)[1..] == a[1..] + x && (b + y)[1..] == b[1..] + y;
      assert a == [a[0]] + a[1..] && b == [b[0]] + b[1..];
      SameWidth(a[1..], b[1..], x, y);
    } else {
      assert (a + x)[0] == a[0] && (b + y)[0] == b[0];
    }
  }

  lemma {:induction false} DigitsOrder(m: nat, n: nat, width: nat)
    requires m < Pow10(width) && n < Pow10(width)
    ensures Less(Digits(m, width), Digits(n, width)) == (m < n)
    ensures Digits(m, width) == Digits(n, width) ==> m == n
  {
    if width > 0 {
      DigitsOrder(m / 10, n / 10, width - 1);
      SameWidth(Digits(m / 10, width - 1), Digits(n / 10, width - 1), [DigitChar(m % 10)], [DigitChar(n % 10)]);
      if Digits(m, width) == Digits(n, width) {
        assert Digits(m, width)[..width - 1] == Digits(m / 10, width - 1);
        assert Digits(n, width)[..width - 1] == Digits(n / 10, width - 1);
        assert Digits(m, width)[width - 1] == DigitChar(m % 10) && Digits(n, width)[width - 1] == DigitChar(n % 10);
      }
    }
  }

  predicate LexLess(u: seq<nat>, v: seq<nat>)
    requires |u| == |v|
  {
    u != [] && (u[0] < v[0] || (u[0] == v[0] && LexLess(u[1..], v[1..])))
  }

  predicate Fits(values: seq<nat>, widths: seq<nat>)
    requires |values| == |widths|
  {
    forall i :: 0 <= i < |values| ==> values[i] < Pow10(widths[i])
  }

  lemma {:induction false} JoinedOrder(u: seq<nat>, v: seq<nat>, widths: seq<nat>, seps: seq<char>, x: string,
                                       y: string)
    requires |u| == |v| == |widths| == |seps| + 1 && Fits(u, widths) && Fits(v, widths) && u != v
    ensures Less(Joined(u, widths, seps) + x, Joined(v, widths, seps) + y) == LexLess(u, v)
    decreases |u|
  {
    var a, b := Digits(u[0], widths[0]), Digits(v[0], widths[0]);
    DigitsOrder(u[0], v[0], widths[0]);
    if |u| == 1 {
      SameWidth(a, b, x, y);
    } else {
      var ru, rv := Joined(u[1..], widths[1..], seps[1..]), Joined(v[1..], widths[1..], seps[1..]);
      assert Joined(u, widths, seps) + x == a + ([seps[0]] + (ru + x));
      assert Joined(v, widths, seps) + y == b + ([seps[0]] + (rv + y));
      SameWidth(a, b, [seps[0]] + (ru + x), [seps[0]] + (rv + y));
      if a == b {
        LessPrefix([seps[0]], ru + x, rv + y);
        assert u[1..] != v[1..] by { assert u == [u[0]] + u[1..] && v == [v[0]] + v[1..]; }
        JoinedOrder(u[1..], v[1..], widths[1..], seps[1..], x, y);
      }
    }
  }

  // ---- Calendar fields compare as time ----

  lemma {:induction false} YearsMonotone(y: nat, z: nat)
    requires y < z
    ensures DaysBeforeYear(y) + YearLength(y) <= DaysBeforeYear(z)
  {
    if y < z - 1 {
      YearsMonotone(y, z - 1);
    }
  }

  /** Leap years are counted by quarters, less centuries, plus quadricentennials. */
  lemma {:induction false} LeapYears(year: nat)
    ensures DaysBeforeYear(year) == 365 * year + (year + 3) / 4 - (year + 99) / 100 + (year + 399) / 400
  {
    if year > 0 {
      var y := year - 1;
      LeapYears(y);
      assert (y + 4) / 4 == (y + 3) / 4 + if y % 4 == 0 then 1 else 0;
      assert (y + 100) / 100 == (y + 99) / 100 + if y % 100 == 0 then 1 else 0;
      assert (y + 400) / 400 == (y + 399) / 400 + if y % 400 == 0 then 1 else 0;
      LeapCases(y);
    }
  }

  lemma LeapCases(year: nat)
    ensures year % 100 == 0 ==> year % 4 == 0
    ensures year % 400 == 0 ==> year % 100 == 0
  {
    assert year == 100 * (year / 100) + year % 100;
    assert year == 400 * (year / 400) + year % 400;
  }

  lemma {:induction false} MonthsMonotone(leap: bool, m: nat, n: nat)
    requires 1 <= m < n
    ensures DaysBeforeMonth(leap, m) + MonthLength(leap, m) <= DaysBeforeMonth(leap, n)
  {
    if m < n - 1 {
      MonthsMonotone(leap, m, n - 1);
    }
  }

  lemma YearFits(days: nat)
    requires days < ALL_DAYS
    ensures Date(days)[0] < 10_000
  {
    var f := Date(days);
    LeapYears(10_000);
    if 10_000 < f[0] {
      YearsMonotone(10_000, f[0]);
    }
  }

  lemma FieldsFit(second: nat)
    requires second < ALL_DAYS * DAY_SECONDS
    ensures Fits(Fields(second), WIDTHS)
  {
    YearFits(second / DAY_SECONDS);
    var f, g := Date(second / DAY_SECONDS), TimeOfDay(second % DAY_SECONDS);
    assert Pow10(2) == 100 && Pow10(4) == 10_000;
    assert Fields(second) == [f[0], f[1], f[2], g[0], g[1], g[2]];
  }

  lemma LexThree(u: seq<nat>, v: seq<nat>)
    requires |u| == |v| == 3
    requires u[0] < v[0] || (u[0] == v[0] && (u[1] < v[1] || (u[1] == v[1] && u[2] < v[2])))
    ensures LexLess(u, v)
  {
    var u1, v1 := u[1..], v[1..];
    assert u1[0] == u[1] && v1[0] == v[1];
    assert u1[1..][0] == u[2] && v1[1..][0] == v[2];
  }

  lemma DayNumberOrder(y: nat, m: nat, d: nat, z: nat, n: nat, e: nat)
    requires ValidDate(y, m, d) && ValidDate(z, n, e) && DayNumber(y, m, d) < DayNumber(z, n, e)
    ensures y < z || (y == z && (m < n || (m == n && d < e)))
  {
    MonthsMonotone(IsLeap(z), n, 13);
    MonthsFillYear(IsLeap(z));
    if z < y {
      YearsMonotone(z, y);
    } else if y == z && n < m {
      MonthsMonotone(IsLeap(y), n, m);
    }
  }

  lemma DateOrder(d: nat, e: nat)
    requires d < e
    ensures LexLess(Date(d), Date(e))
  {
    var f, g := Date(d), Date(e);
    DayNumberOrder(f[0], f[1], f[2], g[0], g[1], g[2]);
    LexThree(f, g);
  }

  lemma HourMinuteSecond(r: nat, t: nat)
    requires r < t
    ensures r / 3600 <= t / 3600
    ensures r / 3600 == t / 3600 ==> r % 3600 / 60 <= t % 3600 / 60
    ensures r / 3600 == t / 3600 && r % 3600 / 60 == t % 3600 / 60 ==> r % 60 < t % 60
  {
    if r / 3600 == t / 3600 {
      assert r % 3600 < t % 3600;
      assert r % 60 == r % 3600 % 60 && t % 60 == t % 3600 % 60 by {
        MinutesInHours(r);
        MinutesInHours(t);
      }
    }
  }

  lemma MinutesInHours(r: nat)
    ensures r % 3600 % 60 == r % 60
  {
    assert r == 3600 * (r / 3600) + r % 3600;
    assert r % 3600 == 60 * (r % 3600 / 60) + r % 3600 % 60;
    assert r == 60 * (60 * (r / 3600) + r % 3600 / 60) + r % 3600 % 60;
  }

  lemma TimeOfDayOrder(r: nat, t: nat)
    requires r < t
    ensures LexLess(TimeOfDay(r), TimeOfDay(t))
  {
    var f, g := TimeOfDay(r), TimeOfDay(t);
    HourMinuteSecond(r, t);
    LexThree(f, g);
  }

  lemma {:induction false} LexConcat(u: seq<nat>, v: seq<nat>, x: seq<nat>, y: seq<nat>)
    requires |u| == |v| && |x| == |y|
    requires LexLess(u, v) || (u == v && LexLess(x, y))
    ensures LexLess(u + x, v + y)
  {
    if u == [] {
      assert u + x == x && v + y == y;
    } else {
      assert (u + x)[1..] == u[1..] + x && (v + y)[1..] == v[1..] + y;
      if u[0] == v[0] {
        LexConcat(u[1..], v[1..], x, y);
      }
    }
  }

  lemma DayThenSecond(p: nat, q: nat)
    requires p < q
    ensures p / DAY_SECONDS < q / DAY_SECONDS
      || (p / DAY_SECONDS == q / DAY_SECONDS && p % DAY_SECONDS < q % DAY_SECONDS)
  {
  }

  lemma FieldsOrder(p: nat, q: nat)
    requires p < q
    ensures LexLess(Fields(p), Fields(q)) && Fields(p) != Fields(q)
  {
    var d, e := p / DAY_SECONDS, q / DAY_SECONDS;
    var r, t := p % DAY_SECONDS, q % DAY_SECONDS;
    DayThenSecond(p, q);
    if d < e {
      DateOrder(d, e);
    } else {
      TimeOfDayOrder(r, t);
    }
    LexConcat(Date(d), Date(e), TimeOfDay(r), TimeOfDay(t));
    LexIrreflexive(Fields(p));
  }

  lemma {:induction false} LexIrreflexive(u: seq<nat>)
    ensures !LexLess(u, u)
  {
    if u != [] {
      LexIrreflexive(u[1..]);
    }
  }

  // ---- The theorem ----

  /** Across different seconds the stored text orders instants as time does. */
  lemma TextOrderAcrossSeconds(a: Instant, b: Instant)
    requires Second(a) != Second(b)
    ensures Less(Text(a), Text(b)) <==> a < b
  {
    if a > b {
      TextOrderAcrossSeconds(b, a);
      LessTotal(Text(a), Text(b));
    } else {
      FieldsFit(Second(a));
      FieldsFit(Second(b));
      FieldsOrder(Second(a), Second(b));
      JoinedOrder(Fields(Second(a)), Fields(Second(b)), WIDTHS, SEPARATORS,
                  FractionText(Fraction(a)), FractionText(Fraction(b)));
    }
  }

  /** Texts of the same width that differ do so at a first position. */
  lemma {:induction false} FirstDifference(a: string, b: string) returns (k: nat)
    requires |a| == |b| && a != b
    ensures k < |a| && a[..k] == b[..k] && a[k] != b[k]
    ensures Less(a, b) == (a[k] < b[k])
  {
    if a[0] != b[0] {
      k := 0;
    } else {
      assert a == [a[0]] + a[1..] && b == [b[0]] + b[1..];
      var j := FirstDifference(a[1..], b[1..]);
      k := j + 1;
      assert a[..k] == [a[0]] + a[1..][..j] && b[..k] == [b[0]] + b[1..][..j];
    }
  }

  /** Within one second it is reversed exactly when the earlier fraction's digits are a proper prefix of the later's. */
  lemma TextOrderWithinSecond(a: Instant, b: Instant)
    requires Second(a) == Second(b) && a < b
    ensures Less(Text(b), Text(a)) <==> Fraction(a) < Fraction(b)
    ensures Less(Text(a), Text(b)) <==> !(Fraction(a) < Fraction(b))
  {
    var p, q := a % NANOS, b % NANOS;
    var d, e := Digits(p, 9), Digits(q, 9);
    var f, g := Fraction(a), Fraction(b);
    assert p < q;
    assert Pow10(9) == NANOS by { assert Pow10(5) == 100_000; }
    DigitsOrder(p, q, 9);
    var k := FirstDifference(d, e);
    assert k < |g|;
    FractionOrder(f, g, d, e, k);
    var prefix := Joined(Fields(Second(a)), WIDTHS, SEPARATORS);
    LessPrefix(prefix, FractionText(f), FractionText(g));
    LessPrefix(prefix, FractionText(g), FractionText(f));
    LessTotal(FractionText(f), FractionText(g));
  }

  lemma FractionOrder(f: string, g: string, d: string, e: string, k: nat)
    requires |d| == |e| && f == TrimZeros(d) && g == TrimZeros(e)
    requires forall i :: 0 <= i < |d| ==> '0' <= d[i] <= '9' && '0' <= e[i] <= '9'
    requires k < |g| && d[..k] == e[..k] && d[k] < e[k]
    ensures Less(FractionText(f), FractionText(g)) <==> !(f < g)
    ensures Less(FractionText(g), FractionText(f)) <==> f < g
  {
    LessTotal(FractionText(f), FractionText(g));
    assert g[k] == e[k];
    if k < |f| {
      assert f[k] == d[k];
      assert f[..k] == d[..k] && g[..k] == e[..k];
      DifferAtDigit(f, g, k);
    } else {
      assert f == d[..k][..|f|] && g[..|f|] == e[..k][..|f|];
      assert '0' <= g[|f|] <= '9';
      DifferAtEnd(f, g);
    }
  }

  lemma DifferAtDigit(f: string, g: string, k: nat)
    requires k < |f| && k < |g| && f[..k] == g[..k] && f[k] < g[k]
    ensures !(f < g) && Less(FractionText(f), FractionText(g))
  {
    LessAt(f + "Z", g + "Z", k) by {
      assert (f + "Z")[..k] == f[..k] && (g + "Z")[..k] == g[..k];
    }
    LessPrefix(".", f + "Z", g + "Z");
    assert FractionText(f) == "." + (f + "Z") && FractionText(g) == "." + (g + "Z");
  }

  lemma DifferAtEnd(f: string, g: string)
    requires |f| < |g| && g[..|f|] == f && '0' <= g[|f|] <= '9'
    ensures f < g && Less(FractionText(g), FractionText(f))
  {
    if f == "" {
      LessAt(FractionText(g), FractionText(f), 0);
    } else {
      LessAt(g + "Z", f + "Z", |f|) by {
        assert (g + "Z")[..|f|] == f && (f + "Z")[..|f|] == f;
      }
      LessPrefix(".", g + "Z", f + "Z");
      assert FractionText(f) == "." + (f + "Z") && FractionText(g) == "." + (g + "Z");
    }
  }

  /** No two instants share a text. */
  lemma TextInjective(a: Instant, b: Instant)
    requires Text(a) == Text(b)
    ensures a == b
  {
    LessTotal(Text(a), Text(b));
    if Second(a) != Second(b) {
      TextOrderAcrossSeconds(a, b);
      TextOrderAcrossSeconds(b, a);
    } else if a < b {
      TextOrderWithinSecond(a, b);
    } else if b < a {
      TextOrderWithinSecond(b, a);
    }
  }

  /** The earliest stored text belongs to the second of the earliest instant, and so for the latest. */
  lemma ExtremesKeepTheirSecond(times: seq<Instant>, first: nat, earliest: nat, last: nat, latest: nat)
    requires first < |times| && earliest < |times| && last < |times| && latest < |times|
    requires forall i :: 0 <= i < |times| ==> !Less(Text(times[i]), Text(times[first]))
    requires forall i :: 0 <= i < |times| ==> !Less(Text(times[last]), Text(times[i]))
    requires forall i :: 0 <= i < |times| ==> times[earliest] <= times[i] <= times[latest]
    ensures Second(times[first]) == Second(times[earliest])
    ensures Second(times[last]) == Second(times[latest])
  {
    if Second(times[first]) != Second(times[earliest]) {
      TextOrderAcrossSeconds(times[earliest], times[first]);
    }
    if Second(times[last]) != Second(times[latest]) {
      TextOrderAcrossSeconds(times[last], times[latest]);
    }
  }

  /** In the cutoff's own second, the earlier of the two printing a proper prefix of the later's fraction digits. */
  predicate Misplaced(t: Instant, cutoff: Instant) {
    Second(t) == Second(cutoff)
      && ((t < cutoff && Fraction(t) < Fraction(cutoff)) || (cutoff < t && Fraction(cutoff) < Fraction(t)))
  }

  /** A text cutoff sorts an instant otherwise than time does exactly where it is misplaced. */
  lemma CutoffAgreesOutsideItsSecond(t: Instant, cutoff: Instant)
    ensures (!Less(Text(t), Text(cutoff)) <==> t >= cutoff) <==> !Misplaced(t, cutoff)
  {
    LessTotal(Text(t), Text(cutoff));
    if Second(t) != Second(cutoff) {
      TextOrderAcrossSeconds(t, cutoff);
    } else if t < cutoff {
      TextOrderWithinSecond(t, cutoff);
    } else if cutoff < t {
      TextOrderWithinSecond(cutoff, t);
    }
  }

  lemma {:induction false} ZeroDigits(width: nat)
    ensures forall i :: 0 <= i < width ==> Digits(0, width)[i] == '0'
  {
    if width > 0 { ZeroDigits(width - 1); }
  }

  /** No fraction is printed for a second sharp, and for no other instant. */
  lemma FractionEmpty(t: Instant)
    ensures Fraction(t) == "" <==> t % NANOS == 0
  {
    ZeroDigits(9);
    var d := Digits(t % NANOS, 9);
    assert Pow10(9) == NANOS by { assert Pow10(5) == 100_000; }
    DigitsOrder(t % NANOS, 0, 9);
    if Fraction(t) == "" {
      assert d == Digits(0, 9);
    }
  }

  /** The first instant of a second comes, as text, after every other instant of it. */
  lemma WholeSecondSortsLast(a: Instant, b: Instant)
    requires Second(a) == Second(b) && a < b && a % NANOS == 0
    ensures Less(Text(b), Text(a))
  {
    FractionEmpty(a);
    FractionEmpty(b);
    TextOrderWithinSecond(a, b);
  }

  /** Such a pair: a second sharp and half a second past it. */
  lemma HalfPastSortsFirst()
    ensures 0 < 500_000_000 && Less(Text(500_000_000), Text(0))
  {
    WholeSecondSortsLast(0, 500_000_000);
  }
}

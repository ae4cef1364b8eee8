/** A stored time read back: its fields by their places in the text, and the instant from its fields. */
module TimeTexts {
  import opened Clock
  import opened Numbers

  /** The digits at these places write the value. */
  predicate Reads(s: string, at: nat, width: nat, value: nat) {
    at + width <= |s| && AllDigits(s[at..at + width]) && Value(s[at..at + width]) == value
  }

  /** The digits after the point are these nanoseconds, trailing zeros left out. */
  predicate ReadsNanos(digits: string, nanos: nat) {
    && |digits| <= 9 && AllDigits(digits) && (digits != "" ==> digits[|digits| - 1] != '0')
    && Value(digits) * Pow10(9 - |digits|) == nanos
  }

  const DAYS_BEFORE: seq<nat> := [0, 31, 59, 90, 120, 151, 181, 212, 243, 273, 304, 334]

  /** Day number of a date from 0000-01-01: the days of the years before, a leap year every fourth but for centuries not
      divisible by 400; of the months before; and of the month. */
  function DaysTo(year: nat, month: nat, day: nat): int {
    var leap := year % 4 == 0 && (year % 100 != 0 || year % 400 == 0);
    365 * year + (year + 3) / 4 - (year + 99) / 100 + (year + 399) / 400
      + (if 1 <= month <= 12 then DAYS_BEFORE[month - 1] else 0)
      + (if leap && month > 2 then 1 else 0) + day - 1
  }

  lemma DaysToDate(year: nat, month: nat, day: nat)
    requires 1 <= month <= 12
    ensures DaysTo(year, month, day) == DayNumber(year, month, day)
  {
    LeapYears(year);
    MonthTable(IsLeap(year));
  }

  lemma MonthTable(leap: bool)
    ensures forall m :: 1 <= m <= 12 ==>
      DaysBeforeMonth(leap, m) == DAYS_BEFORE[m - 1] + if leap && m > 2 then 1 else 0
  {
    assert DaysBeforeMonth(leap, 2) == 31;
    var d := DaysBeforeMonth(leap, 3);
    assert d == if leap then 60 else 59;
    assert DaysBeforeMonth(leap, 5) == d + 61 && DaysBeforeMonth(leap, 4) == d + 31;
    assert DaysBeforeMonth(leap, 7) == d + 122 && DaysBeforeMonth(leap, 6) == d + 92;
    assert DaysBeforeMonth(leap, 9) == d + 184 && DaysBeforeMonth(leap, 8) == d + 153;
    assert DaysBeforeMonth(leap, 11) == d + 245 && DaysBeforeMonth(leap, 10) == d + 214;
    assert DaysBeforeMonth(leap, 12) == d + 275;
  }

  lemma {:induction false} DigitsRead(n: nat, width: nat)
    requires n < Pow10(width)
    ensures AllDigits(Digits(n, width)) && Value(Digits(n, width)) == n
  {
    if width > 0 {
      DigitsRead(n / 10, width - 1);
      var front := Digits(n / 10, width - 1);
      assert Digits(n, width)[..width - 1] == front;
      assert IsDigit(DigitChar(n % 10)) && DigitValue(DigitChar(n % 10)) == n % 10;
    }
  }

  lemma {:induction false} TrimmedRead(s: string)
    requires AllDigits(s) && |s| <= 9
    ensures AllDigits(TrimZeros(s)) && Value(TrimZeros(s)) * Pow10(9 - |TrimZeros(s)|) == Value(s) * Pow10(9 - |s|)
    decreases |s|
  {
    if s != "" && s[|s| - 1] == '0' {
      var front := s[..|s| - 1];
      TrimmedRead(front);
      assert Pow10(9 - |front|) == 10 * Pow10(9 - |s|) && Value(s) == Value(front) * 10;
      hide Pow10, Value, TrimZeros, AllDigits;
      Shift(Value(front), Pow10(9 - |s|));
    }
  }

  lemma Shift(value: nat, power: nat)
    ensures value * (10 * power) == (value * 10) * power
  {
  }

  lemma NanosRead(t: nat)
    ensures ReadsNanos(Fraction(t), t % 1_000_000_000)
  {
    assert Pow10(9) == NANOS by { assert Pow10(5) == 100_000; }
    DigitsRead(t % NANOS, 9);
    TrimmedRead(Digits(t % NANOS, 9));
    assert Pow10(0) == 1;
  }

  lemma JoinedSix(v: seq<nat>)
    requires |v| == 6
    ensures Joined(v, WIDTHS, SEPARATORS) ==
      Digits(v[0], 4) + (['-'] + (Digits(v[1], 2) + (['-'] + (Digits(v[2], 2) + (['T'] + (Digits(v[3], 2) + ([':']
        + (Digits(v[4], 2) + ([':'] + Digits(v[5], 2))))))))))
  {
    hide Digits;
    Unjoin(v, WIDTHS, SEPARATORS);
    Unjoin(v[1..], WIDTHS[1..], SEPARATORS[1..]);
    Unjoin(v[2..], WIDTHS[2..], SEPARATORS[2..]);
    Unjoin(v[3..], WIDTHS[3..], SEPARATORS[3..]);
    Unjoin(v[4..], WIDTHS[4..], SEPARATORS[4..]);
    assert Joined(v[5..], WIDTHS[5..], SEPARATORS[5..]) == Digits(v[5], 2);
  }

  lemma Unjoin(v: seq<nat>, widths: seq<nat>, seps: seq<char>)
    requires |v| == |widths| == |seps| + 1 && |v| > 1
    ensures Joined(v, widths, seps) ==
      Digits(v[0], widths[0]) + ([seps[0]] + Joined(v[1..], widths[1..], seps[1..]))
  {
  }

  /** The fields at their places, each in its digits, and then the end. */
  predicate Shown(s: string, v: seq<nat>, end: string) {
    && |v| == 6 && |s| >= 20 && s[4] == s[7] == '-' && s[10] == 'T' && s[13] == s[16] == ':'
    && s[0..4] == Digits(v[0], 4) && s[5..7] == Digits(v[1], 2) && s[8..10] == Digits(v[2], 2)
    && s[11..13] == Digits(v[3], 2) && s[14..16] == Digits(v[4], 2) && s[17..19] == Digits(v[5], 2)
    && s[19..] == end
  }

  lemma Sliced(a: string, c: char, rest: string, at: nat, s: string)
    requires at + |a| + 1 <= |s| && s[at..] == a + ([c] + rest)
    ensures s[at..at + |a|] == a && s[at + |a|] == c && s[at + |a| + 1..] == rest
  {
    var t := s[at..];
    assert t[..|a|] == a && t[|a|] == c && t[|a| + 1..] == rest;
    assert s[at..at + |a|] == t[..|a|];
  }

  /** Six parts with separators between them, and an end. */
  lemma SixParts(s: string, p: seq<string>, end: string)
    requires |p| == 6 && |p[0]| == 4 && forall i :: 1 <= i < 6 ==> |p[i]| == 2
    requires end != "" && s == p[0] + (['-'] + (p[1] + (['-'] + (p[2] + (['T'] + (p[3] + ([':'] + (p[4] + ([':'] + (p[5]
      + end))))))))))
    ensures |s| >= 20 && s[4] == s[7] == '-' && s[10] == 'T' && s[13] == s[16] == ':' && s[19..] == end
    ensures s[0..4] == p[0] && s[5..7] == p[1] && s[8..10] == p[2] && s[11..13] == p[3] && s[14..16] == p[4]
    ensures s[17..19] == p[5]
  {
    var r4 := p[5] + end;
    var r3 := p[4] + ([':'] + r4);
    var r2 := p[3] + ([':'] + r3);
    var r1 := p[2] + (['T'] + r2);
    var r0 := p[1] + (['-'] + r1);
    assert s[0..] == s;
    Sliced(p[0], '-', r0, 0, s);
    Sliced(p[1], '-', r1, 5, s);
    Sliced(p[2], 'T', r2, 8, s);
    Sliced(p[3], ':', r3, 11, s);
    Sliced(p[4], ':', r4, 14, s);
    assert s[17..19] == s[17..][..2] && s[19..] == s[17..][2..];
  }

  lemma Places(t: Instant)
    ensures Shown(Text(t), Fields(Second(t)), FractionText(Fraction(t)))
  {
    var v, end := Fields(Second(t)), FractionText(Fraction(t));
    JoinedSix(v);
    assert end != "" by { FractionTextEnds(Fraction(t)); }
    assert Text(t) == Joined(v, WIDTHS, SEPARATORS) + end;
    hide Fields, Fraction, Joined, FractionText, Text;
    ShownParts(Text(t), v, end);
  }

  lemma ShownParts(s: string, v: seq<nat>, end: string)
    requires |v| == 6 && end != ""
    requires s ==
      Digits(v[0], 4) + (['-'] + (Digits(v[1], 2) + (['-'] + (Digits(v[2], 2) + (['T'] + (Digits(v[3], 2) + ([':']
        + (Digits(v[4], 2) + ([':'] + Digits(v[5], 2)))))))))) + end
    ensures Shown(s, v, end)
  {
    var p := [Digits(v[0], 4), Digits(v[1], 2), Digits(v[2], 2), Digits(v[3], 2), Digits(v[4], 2), Digits(v[5], 2)];
    hide Digits;
    SixParts(s, p, end);
  }

  lemma FractionTextEnds(digits: string)
    ensures FractionText(digits) != ""
  {
  }

  /** Every stored time reads back: its fields stand at the places RFC 3339 gives them, and the instant is made of
      them. */
  lemma TextReadsBack(t: Instant)
    returns (year: nat, month: nat, day: nat, hour: nat, minute: nat, second: nat, fraction: string, nanos: nat)
    ensures var s := Text(t);
      && Reads(s, 0, 4, year) && Reads(s, 5, 2, month) && Reads(s, 8, 2, day)
      && Reads(s, 11, 2, hour) && Reads(s, 14, 2, minute) && Reads(s, 17, 2, second)
      && s[4] == s[7] == '-' && s[10] == 'T' && s[13] == s[16] == ':'
      && s[19..] == (if nanos == 0 then "Z" else "." + fraction + "Z") && ReadsNanos(fraction, nanos)
    ensures 1 <= month <= 12 && 1 <= day && hour < 24 && minute < 60 && second < 60 && nanos < 1_000_000_000
    ensures DaysTo(year, month, day) < if month < 12 then DaysTo(year, month + 1, 1) else DaysTo(year + 1, 1, 1)
    ensures t == (((DaysTo(year, month, day) * 24 + hour) * 60 + minute) * 60 + second) * 1_000_000_000 + nanos
  {
    var v := Fields(Second(t));
    year, month, day, hour, minute, second := v[0], v[1], v[2], v[3], v[4], v[5];
    fraction, nanos := Fraction(t), t % NANOS;
    FieldsRead(Second(t));
    NanosRead(t);
    FractionEmpty(t);
    DaysToDate(year, month, day);
    InMonth(Second(t));
    SecondsOf(Second(t));
    FieldBounds(Second(t));
    assert t == Second(t) * 1_000_000_000 + nanos;
    Places(t);
    hide Digits, Fields, Value, AllDigits, Second, Text, Fraction, DaysTo, DayNumber, ReadsNanos;
  }

  lemma InMonth(second: nat)
    ensures var v := Fields(second);
      DaysTo(v[0], v[1], v[2]) < if v[1] < 12 then DaysTo(v[0], v[1] + 1, 1) else DaysTo(v[0] + 1, 1, 1)
  {
    var v := Fields(second);
    assert ValidDate(v[0], v[1], v[2]);
    hide Fields, DaysTo, Date;
    NextMonth(v[0], v[1], v[2]);
  }

  lemma NextMonth(year: nat, month: nat, day: nat)
    requires ValidDate(year, month, day)
    ensures DaysTo(year, month, day) < if month < 12 then DaysTo(year, month + 1, 1) else DaysTo(year + 1, 1, 1)
  {
    hide DaysTo;
    DaysToDate(year, month, day);
    if month < 12 {
      DaysToDate(year, month + 1, 1);
    } else {
      DaysToDate(year + 1, 1, 1);
      MonthsFillYear(IsLeap(year));
    }
  }

  lemma FieldBounds(second: nat)
    ensures var v := Fields(second); 1 <= v[1] <= 12 && 1 <= v[2] && v[3] < 24 && v[4] < 60 && v[5] < 60
  {
  }

  lemma FieldsRead(second: nat)
    requires second < ALL_DAYS * DAY_SECONDS
    ensures var v := Fields(second);
      && Value(Digits(v[0], 4)) == v[0]
      && forall i :: 1 <= i < 6 ==> AllDigits(Digits(v[i], 2)) && Value(Digits(v[i], 2)) == v[i]
  {
    FieldsFit(second);
    var v := Fields(second);
    DigitsRead(v[0], 4);
    forall i | 1 <= i < 6 ensures AllDigits(Digits(v[i], 2)) && Value(Digits(v[i], 2)) == v[i] { DigitsRead(v[i], 2); }
  }

  lemma SecondsOf(second: nat)
    ensures var v := Fields(second);
      second == ((DayNumber(v[0], v[1], v[2]) * 24 + v[3]) * 60 + v[4]) * 60 + v[5]
  {
    var days, rest := second / DAY_SECONDS, second % DAY_SECONDS;
    TimeParts(rest);
    hide Date, TimeOfDay, DayNumber;
    var d, f := Date(days), TimeOfDay(rest);
    assert Fields(second) == [d[0], d[1], d[2], f[0], f[1], f[2]];
  }

  lemma TimeParts(rest: nat)
    ensures var f := TimeOfDay(rest); rest == (f[0] * 60 + f[1]) * 60 + f[2]
  {
    MinutesInHours(rest);
  }

  lemma TimeOfDayBefore(rest: nat)
    requires rest < 86_400
    ensures var r, b := TimeOfDay(rest), TimeOfDay(if rest >= 3600 then rest - 3600 else rest + 82_800);
      b[0] == (if r[0] == 0 then 23 else r[0] - 1) && b[1] == r[1] && b[2] == r[2] && (r[0] == 0 <==> rest < 3600)
  {
    assert (rest - 3600) % 3600 == rest % 3600 && (rest + 82_800) % 3600 == rest % 3600;
    assert (rest - 3600) % 60 == rest % 60 && (rest + 82_800) % 60 == rest % 60;
  }

  lemma FieldsBefore(second: nat)
    requires second >= 86_400
    ensures var v, b := Fields(second), Fields(second - 3600);
      && b[3] == (if v[3] == 0 then 23 else v[3] - 1) && b[4] == v[4] && b[5] == v[5]
      && (v[3] > 0 ==> b[0] == v[0] && b[1] == v[1] && b[2] == v[2])
  {
    var q, r := second / 86_400, second % 86_400;
    TimeOfDayBefore(r);
    if r >= 3600 {
      assert (second - 3600) / 86_400 == q && (second - 3600) % 86_400 == r - 3600;
    } else {
      assert (second - 3600) / 86_400 == q - 1 && (second - 3600) % 86_400 == r + 82_800;
    }
    hide Date, TimeOfDay;
  }

  lemma SecondBefore(t: Reading)
    ensures var u := HourBefore(t);
      u + 3_600_000_000_000 == t && Second(u) == Second(t) - 3600 && u % NANOS == t % NANOS && Second(t) >= 86_400
  {
  }

  lemma Pieces(s: string)
    requires |s| >= 20
    ensures s[..11] == s[0..4] + [s[4]] + s[5..7] + [s[7]] + s[8..10] + [s[10]]
    ensures s[13..] == [s[13]] + s[14..16] + [s[16]] + s[17..19] + s[19..]
  {
  }

  /** The cutoff of a recording's hour is 3600 seconds before the reading it counts from: the same minute, second and
      fraction are printed, and the hour before, of the same day unless that was midnight's. */
  lemma AnHourBefore(t: Reading) returns (hour: nat, before: nat)
    ensures HourBefore(t) + 3_600_000_000_000 == t
    ensures Reads(Text(t), 11, 2, hour) && Reads(Text(HourBefore(t)), 11, 2, before)
    ensures before == (if hour == 0 then 23 else hour - 1)
    ensures Text(HourBefore(t))[13..] == Text(t)[13..]
    ensures hour > 0 ==> Text(HourBefore(t))[..11] == Text(t)[..11]
  {
    hide *;
    var u := HourBefore(t);
    hour := HourRead(t);
    before := HourRead(u);
    SecondBefore(t);
    FieldsBefore(Second(t));
    SameFraction(t, u);
    Places(t);
    Places(u);
    SameEnd(Text(t), Text(u), Fields(Second(t)), Fields(Second(u)), FractionText(Fraction(t)));
    if hour > 0 { SameDate(Text(t), Text(u), Fields(Second(t)), Fields(Second(u)), FractionText(Fraction(t))); }
  }

  lemma HourRead(t: Instant) returns (hour: nat)
    ensures hour == Fields(Second(t))[3] && Reads(Text(t), 11, 2, hour)
  {
    hour := Fields(Second(t))[3];
    FieldsRead(Second(t));
    hide Digits, Fields, Value, AllDigits, Second, Text;
    Places(t);
  }

  lemma SameEnd(s: string, r: string, v: seq<nat>, b: seq<nat>, end: string)
    requires Shown(s, v, end) && Shown(r, b, end) && b[4] == v[4] && b[5] == v[5]
    ensures r[13..] == s[13..]
  {
    hide Digits;
    Pieces(s);
    Pieces(r);
  }

  lemma SameDate(s: string, r: string, v: seq<nat>, b: seq<nat>, end: string)
    requires Shown(s, v, end) && Shown(r, b, end) && b[0] == v[0] && b[1] == v[1] && b[2] == v[2]
    ensures r[..11] == s[..11]
  {
    hide Digits;
    Pieces(s);
    Pieces(r);
  }

  lemma SameFraction(t: nat, u: nat)
    requires t % NANOS == u % NANOS
    ensures Fraction(t) == Fraction(u)
  {
  }
}

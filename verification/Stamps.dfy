/** What the two timestamp patterns match, said of the text they match. */
module Stamps {
  import opened Fingerprint
  import opened Numbers
  import opened Options
  import opened Regex

  predicate IsLetter(c: char) {
    'a' <= c <= 'z' || 'A' <= c <= 'Z'
  }

  predicate Letters(s: string, i: nat, e: nat) {
    i <= e <= |s| && forall k :: i <= k < e ==> IsLetter(s[k])
  }

  predicate Blanks(s: string, i: nat, e: nat) {
    i <= e <= |s| && forall k :: i <= k < e ==> IsBlank(s[k])
  }

  predicate Numerals(s: string, i: nat, e: nat) {
    i <= e <= |s| && forall k :: i <= k < e ==> IsDigit(s[k])
  }

  /** `10:00:00`. */
  predicate ClockAt(s: string, i: nat) {
    && i + 8 <= |s| && s[i + 2] == s[i + 5] == ':'
    && IsDigit(s[i]) && IsDigit(s[i + 1]) && IsDigit(s[i + 3]) && IsDigit(s[i + 4]) && IsDigit(s[i + 6])
    && IsDigit(s[i + 7])
  }

  /** `Jan  5 10:00:00` at `i`, its day at `a` through `d`, its clock at `b`, with word boundaries at both ends. */
  predicate SyslogAt(s: string, i: nat, a: nat, d: nat, b: nat) {
    && i + 3 < a < d < b && d <= a + 2 && b + 8 <= |s| && AtBoundary(s, i) && AtBoundary(s, b + 8)
    && Letters(s, i, i + 3) && Blanks(s, i + 3, a) && Numerals(s, a, d) && Blanks(s, d, b) && ClockAt(s, b)
  }

  /** `2026-06-16`. */
  predicate DateAt(s: string, i: nat) {
    && i + 10 <= |s| && s[i + 4] == s[i + 7] == '-'
    && Numerals(s, i, i + 4) && Numerals(s, i + 5, i + 7) && Numerals(s, i + 8, i + 10)
  }

  /** What may follow the date and the mark after it: digits, colon, point, and all from plus to `Z`. */
  predicate StampChars(s: string, i: nat, e: nat) {
    i <= e <= |s| && forall k :: i <= k < e ==> '+' <= s[k] <= 'Z'
  }

  predicate IsoAt(s: string, i: nat, e: nat) {
    && DateAt(s, i) && i + 11 < e <= |s| && (s[i + 10] == ' ' || s[i + 10] == 'T')
    && StampChars(s, i + 11, e) && AtBoundary(s, i) && AtBoundary(s, e)
  }

  // ---- Runs of a class ----

  /** A success of `cls+` is one of what follows, after some of the class. */
  lemma {:induction false} PlusSound(cls: Class, rest: Pattern, s: string, i: nat) returns (e: nat)
    requires i <= |s| && MatchAt(Plus(cls, rest), s, i).Some?
    ensures i < e <= |s| && (forall k :: i <= k < e ==> In(cls, s[k]))
    ensures MatchAt(Plus(cls, rest), s, i) == MatchAt(rest, s, e)
    decreases |s| - i
  {
    if MatchAt(Plus(cls, rest), s, i + 1).Some? {
      e := PlusSound(cls, rest, s, i + 1);
    } else {
      e := i + 1;
    }
  }

  /** Where what follows cannot begin within the run, `cls+` takes the whole run. */
  lemma {:induction false} PlusTakes(cls: Class, rest: Pattern, s: string, i: nat, e: nat)
    requires i < e <= |s| && (forall k :: i <= k < e ==> In(cls, s[k])) && (e < |s| ==> !In(cls, s[e]))
    requires forall k :: i < k < e ==> MatchAt(rest, s, k).None?
    ensures MatchAt(Plus(cls, rest), s, i) == MatchAt(rest, s, e)
    decreases e - i
  {
    if i + 1 < e {
      PlusTakes(cls, rest, s, i + 1, e);
    } else {
      assert MatchAt(Plus(cls, rest), s, i + 1).None?;
    }
  }

  // ---- The syslog pattern ----

  lemma ClockMatch(s: string, i: nat)
    requires i <= |s|
    ensures MatchAt(TIME_OF_DAY, s, i) == if ClockAt(s, i) && AtBoundary(s, i + 8) then Some(i + 8) else None
  {
    var p := TIME_OF_DAY;
    if i + 8 <= |s| {
      EdgeMatch(s, i + 8);
      var p3 := p.rest.rest.rest;
      var p6 := p3.rest.rest.rest;
      assert MatchAt(p6.rest, s, i + 7) == if IsDigit(s[i + 7]) then MatchAt(Boundary(Accept), s, i + 8) else None;
      assert MatchAt(p6, s, i + 6) == if IsDigit(s[i + 6]) then MatchAt(p6.rest, s, i + 7) else None;
      assert MatchAt(p3.rest.rest, s, i + 5) == if s[i + 5] == ':' then MatchAt(p6, s, i + 6) else None;
      assert MatchAt(p3.rest, s, i + 4) == if IsDigit(s[i + 4]) then MatchAt(p3.rest.rest, s, i + 5) else None;
      assert MatchAt(p3, s, i + 3) == if IsDigit(s[i + 3]) then MatchAt(p3.rest, s, i + 4) else None;
      assert MatchAt(p.rest.rest, s, i + 2) == if s[i + 2] == ':' then MatchAt(p3, s, i + 3) else None;
      assert MatchAt(p.rest, s, i + 1) == if IsDigit(s[i + 1]) then MatchAt(p.rest.rest, s, i + 2) else None;
    } else if MatchAt(p, s, i).Some? {
      ClockNeedsEight(s, i);
    }
  }

  lemma ClockNeedsEight(s: string, i: nat)
    requires i <= |s| && MatchAt(TIME_OF_DAY, s, i).Some?
    ensures i + 8 <= |s|
  {
    var p := TIME_OF_DAY;
    assert MatchAt(p.rest, s, i + 1).Some?;
    assert MatchAt(p.rest.rest, s, i + 2).Some?;
    assert MatchAt(p.rest.rest.rest, s, i + 3).Some?;
    assert MatchAt(p.rest.rest.rest.rest, s, i + 4).Some?;
    assert MatchAt(p.rest.rest.rest.rest.rest, s, i + 5).Some?;
    assert MatchAt(p.rest.rest.rest.rest.rest.rest, s, i + 6).Some?;
    assert MatchAt(p.rest.rest.rest.rest.rest.rest.rest, s, i + 7).Some?;
  }

  const AFTER_DAY: Pattern := Plus(Space, TIME_OF_DAY)
  const AFTER_MONTH: Pattern := Plus(Space, OneOrTwo(Digit, AFTER_DAY))

  lemma SyslogUnfold(s: string, i: nat)
    requires i <= |s|
    ensures MatchAt(SYSLOG_TIMESTAMP, s, i) ==
      if AtBoundary(s, i) && i + 3 <= |s| && Letters(s, i, i + 3) then MatchAt(AFTER_MONTH, s, i + 3) else None
  {
    var p := SYSLOG_TIMESTAMP.rest;
    assert p.rest.rest.rest == AFTER_MONTH;
    if i < |s| && IsLetter(s[i]) {
      assert MatchAt(p, s, i) == MatchAt(p.rest, s, i + 1);
      if i + 1 < |s| && IsLetter(s[i + 1]) {
        assert MatchAt(p.rest, s, i + 1) == MatchAt(p.rest.rest, s, i + 2);
        if i + 2 < |s| && IsLetter(s[i + 2]) {
          assert MatchAt(p.rest.rest, s, i + 2) == MatchAt(AFTER_MONTH, s, i + 3);
        }
      }
    }
  }

  lemma DayUnfold(s: string, a: nat)
    requires a <= |s|
    ensures MatchAt(OneOrTwo(Digit, AFTER_DAY), s, a) ==
      if a < |s| && IsDigit(s[a]) then
        if a + 1 < |s| && IsDigit(s[a + 1]) then MatchAt(AFTER_DAY, s, a + 2) else MatchAt(AFTER_DAY, s, a + 1)
      else None
  {
    if a + 1 < |s| && IsDigit(s[a + 1]) { NoBlankNoMatch(s, a + 1); }
  }

  lemma NoBlankNoMatch(s: string, i: nat)
    requires i < |s| && !IsBlank(s[i])
    ensures MatchAt(AFTER_DAY, s, i).None?
  {
  }

  /** What the syslog pattern matches is a syslog timestamp. */
  lemma SyslogSound(s: string, i: nat) returns (a: nat, d: nat, b: nat)
    requires i <= |s| && MatchAt(SYSLOG_TIMESTAMP, s, i).Some?
    ensures SyslogAt(s, i, a, d, b) && MatchAt(SYSLOG_TIMESTAMP, s, i) == Some(b + 8)
  {
    SyslogUnfold(s, i);
    a := PlusSound(Space, OneOrTwo(Digit, AFTER_DAY), s, i + 3);
    DayUnfold(s, a);
    d := if a + 1 < |s| && IsDigit(s[a + 1]) then a + 2 else a + 1;
    b := PlusSound(Space, TIME_OF_DAY, s, d);
    ClockMatch(s, b);
  }

  /** And a syslog timestamp is matched. */
  lemma SyslogComplete(s: string, i: nat, a: nat, d: nat, b: nat)
    requires SyslogAt(s, i, a, d, b)
    ensures MatchAt(SYSLOG_TIMESTAMP, s, i) == Some(b + 8)
  {
    SyslogUnfold(s, i);
    forall k | i + 3 < k < a ensures MatchAt(OneOrTwo(Digit, AFTER_DAY), s, k).None? { DayUnfold(s, k); }
    PlusTakes(Space, OneOrTwo(Digit, AFTER_DAY), s, i + 3, a);
    DayUnfold(s, a);
    forall k | d < k < b ensures MatchAt(TIME_OF_DAY, s, k).None? { ClockMatch(s, k); }
    PlusTakes(Space, TIME_OF_DAY, s, d, b);
    ClockMatch(s, b);
  }

  // ---- The ISO pattern ----

  /** `[...]+\b` ends at the last boundary within the run. */
  lemma {:induction false} StampRun(s: string, i: nat)
    requires i <= |s|
    ensures var m := MatchAt(Plus(Stamp, Boundary(Accept)), s, i);
      && (m.Some? ==> i < m.value && StampChars(s, i, m.value) && AtBoundary(s, m.value))
      && forall e :: i < e <= |s| && StampChars(s, i, e) && AtBoundary(s, e) ==> m.Some? && e <= m.value
    decreases |s| - i
  {
    if i < |s| && '+' <= s[i] <= 'Z' {
      StampRun(s, i + 1);
      EdgeMatch(s, i + 1);
    }
  }

  lemma IsoUnfold(s: string, i: nat)
    requires i <= |s|
    ensures MatchAt(ISO_TIMESTAMP, s, i) ==
      if AtBoundary(s, i) && DateAt(s, i) && i + 10 < |s| && (s[i + 10] == ' ' || s[i + 10] == 'T')
      then MatchAt(Plus(Stamp, Boundary(Accept)), s, i + 11) else None
  {
    var p := ISO_TIMESTAMP.rest;
    var p5 := p.rest.rest.rest.rest.rest;
    var p8 := p5.rest.rest.rest;
    var p10 := p8.rest.rest;
    if i + 11 <= |s| {
      DateUnfold(p10, s, i);
    } else if MatchAt(p, s, i).Some? {
      DateLength(p10, s, i);
    }
  }

  lemma DateUnfold(last: Pattern, s: string, i: nat)
    requires i + 10 <= |s|
    ensures var p8 := One(Digit, One(Digit, last));
      var p5 := One(Digit, One(Digit, One(Only('-'), p8)));
      MatchAt(One(Digit, One(Digit, One(Digit, One(Digit, One(Only('-'), p5))))), s, i) ==
        if DateAt(s, i) then MatchAt(last, s, i + 10) else None
  {
    var p9 := One(Digit, last);
    var p8 := One(Digit, p9);
    var p7 := One(Only('-'), p8);
    var p6 := One(Digit, p7);
    var p5 := One(Digit, p6);
    var p4 := One(Only('-'), p5);
    var p3 := One(Digit, p4);
    var p2 := One(Digit, p3);
    var p1 := One(Digit, p2);
    assert MatchAt(p9, s, i + 9) == if IsDigit(s[i + 9]) then MatchAt(last, s, i + 10) else None;
    assert MatchAt(p8, s, i + 8) == if IsDigit(s[i + 8]) then MatchAt(p9, s, i + 9) else None;
    assert MatchAt(p7, s, i + 7) == if s[i + 7] == '-' then MatchAt(p8, s, i + 8) else None;
    assert MatchAt(p6, s, i + 6) == if IsDigit(s[i + 6]) then MatchAt(p7, s, i + 7) else None;
    assert MatchAt(p5, s, i + 5) == if IsDigit(s[i + 5]) then MatchAt(p6, s, i + 6) else None;
    assert MatchAt(p4, s, i + 4) == if s[i + 4] == '-' then MatchAt(p5, s, i + 5) else None;
    assert MatchAt(p3, s, i + 3) == if IsDigit(s[i + 3]) then MatchAt(p4, s, i + 4) else None;
    assert MatchAt(p2, s, i + 2) == if IsDigit(s[i + 2]) then MatchAt(p3, s, i + 3) else None;
    assert MatchAt(p1, s, i + 1) == if IsDigit(s[i + 1]) then MatchAt(p2, s, i + 2) else None;
  }

  lemma DateLength(last: Pattern, s: string, i: nat)
    requires i <= |s| < i + 11 && last.One?
    ensures MatchAt(One(Digit, One(Digit, One(Digit, One(Digit, One(Only('-'), One(Digit, One(Digit, One(Only('-'),
      One(Digit, One(Digit, last)))))))))), s, i).None?
  {
    var p8 := One(Digit, One(Digit, last));
    var p5 := One(Digit, One(Digit, One(Only('-'), p8)));
    var p0 := One(Digit, One(Digit, One(Digit, One(Digit, One(Only('-'), p5)))));
    if MatchAt(p0, s, i).Some? {
      FiveMore(p0, s, i);
      ThreeMore(p5, s, i + 5);
      ThreeMore(p8, s, i + 8);
    }
  }

  lemma ThreeMore(p: Pattern, s: string, i: nat)
    requires i <= |s| && p.One? && p.rest.One? && p.rest.rest.One? && MatchAt(p, s, i).Some?
    ensures i + 3 <= |s| && MatchAt(p.rest.rest.rest, s, i + 3).Some?
  {
    assert MatchAt(p.rest, s, i + 1).Some?;
    assert MatchAt(p.rest.rest, s, i + 2).Some?;
  }

  lemma FiveMore(p: Pattern, s: string, i: nat)
    requires i <= |s| && p.One? && p.rest.One? && p.rest.rest.One? && p.rest.rest.rest.One?
    requires p.rest.rest.rest.rest.One? && MatchAt(p, s, i).Some?
    ensures i + 5 <= |s| && MatchAt(p.rest.rest.rest.rest.rest, s, i + 5).Some?
  {
    ThreeMore(p, s, i);
    assert MatchAt(p.rest.rest.rest.rest, s, i + 4).Some?;
  }

  /** The ISO pattern matches the longest ISO timestamp there is. */
  lemma IsoMatch(s: string, i: nat)
    requires i <= |s|
    ensures var m := MatchAt(ISO_TIMESTAMP, s, i);
      && (m.Some? ==> IsoAt(s, i, m.value)) && forall e: nat :: IsoAt(s, i, e) ==> m.Some? && e <= m.value
  {
    IsoUnfold(s, i);
    if i + 11 <= |s| { StampRun(s, i + 11); }
  }
}

/** What normalising does with a timestamp that has a `T` between date and time: since the line is in lower case by
    then, it is not recognised as one, and its day and hour stay. */
module Timestamps {
  import opened DigitBlindness
  import opened Fingerprint
  import opened Numbers
  import opened Options
  import opened Regex
  import opened Strings
  import opened Words

  /** In a text without upper case a match of the ISO pattern has a space after the date. */
  lemma IsoNeedsSpace(s: string, i: nat)
    requires i < |s| && NoUpper(s) && MatchAt(ISO_TIMESTAMP, s, i).Some?
    ensures i + 10 < |s| && s[i + 10] == ' '
  {
    var p := ISO_TIMESTAMP.rest;
    assert MatchAt(p, s, i).Some?;
    var p2 := TwoMore(p, s, i);
    var p4 := TwoMore(p2, s, i + 2);
    var p6 := TwoMore(p4, s, i + 4);
    var p8 := TwoMore(p6, s, i + 6);
    var p10 := TwoMore(p8, s, i + 8);
    assert p10.cls == TimeMark && NotUpper(s[i + 10]);
  }

  lemma TwoMore(p: Pattern, s: string, i: nat) returns (rest: Pattern)
    requires i <= |s| && p.One? && p.rest.One? && MatchAt(p, s, i).Some?
    ensures i + 2 <= |s| && rest == p.rest.rest && MatchAt(rest, s, i + 2).Some?
  {
    assert MatchAt(p.rest, s, i + 1).Some?;
    rest := p.rest.rest;
  }

  /** A match of the syslog pattern has a blank after the month. */
  lemma SyslogNeedsBlank(s: string, i: nat)
    requires i < |s| && MatchAt(SYSLOG_TIMESTAMP, s, i).Some?
    ensures i + 3 < |s| && IsBlank(s[i + 3])
  {
    var p := SYSLOG_TIMESTAMP.rest;
    assert MatchAt(p, s, i).Some?;
    assert MatchAt(p.rest, s, i + 1).Some?;
    assert MatchAt(p.rest.rest, s, i + 2).Some?;
    assert MatchAt(p.rest.rest.rest, s, i + 3).Some?;
  }

  predicate NoBlanks(s: string) {
    forall k :: 0 <= k < |s| ==> !IsBlank(s[k])
  }

  /** So nothing in a line without blanks is taken for a timestamp. */
  lemma NoBlanksNoTimestamp(line: string)
    requires NoBlanks(Clean(line))
    ensures NoTimestamp(Clean(line))
  {
    var s := Clean(line);
    CleanIsTight(line);
    forall k | 0 <= k < |s| ensures MatchAt(ISO_TIMESTAMP, s, k).None? && MatchAt(SYSLOG_TIMESTAMP, s, k).None? {
      if MatchAt(ISO_TIMESTAMP, s, k).Some? {
        IsoNeedsSpace(s, k);
        assert IsBlank(s[k + 10]);
      }
      if MatchAt(SYSLOG_TIMESTAMP, s, k).Some? { SyslogNeedsBlank(s, k); }
    }
  }

  // ---- A line that begins with a date, a `T` and an hour ----

  predicate Number(w: string) {
    w != "" && AllDigits(w)
  }

  function DayHour(day: string, hour: string): string {
    day + "t" + hour
  }

  /** `2026-06-16t12:...`, in lower case. */
  function Dated(year: string, month: string, day: string, hour: string, rest: string): string {
    year + ['-'] + (month + ['-'] + (DayHour(day, hour) + [':'] + rest))
  }

  lemma WordThen(word: string, sep: char, rest: string, f: Rewrite)
    requires word != "" && IsWordText(word) && !IsWord(sep)
    ensures MapWords(word + [sep] + rest, f) == f(word) + [sep] + MapWords(rest, f)
  {
    assert word + [sep] + rest == word + ([sep] + rest);
    MapWordsConcat(word, [sep] + rest, f);
    AllWordChars(word);
    assert word[..|word|] == word && word[|word|..] == "" && ([sep] + rest)[1..] == rest;
    assert f(word) + "" == f(word);
    assert f(word) + ([sep] + MapWords(rest, f)) == f(word) + [sep] + MapWords(rest, f);
  }

  lemma DayHourIsPlain(day: string, hour: string)
    requires Number(day) && Number(hour)
    ensures IsWordText(DayHour(day, hour)) && Mask(DayHour(day, hour)) == DayHour(day, hour)
  {
    var w := DayHour(day, hour);
    assert w[|day|] == 't' && (|day| > 1 ==> w[1] == day[1]);
  }

  lemma NumberIsMasked(w: string)
    requires Number(w)
    ensures IsWordText(w) && Mask(w) == "<num>"
  {
    if |w| > 1 { assert IsDigit(w[1]); }
  }

  lemma DatedIsMasked(year: string, month: string, day: string, hour: string, rest: string)
    requires Number(year) && Number(month) && Number(day) && Number(hour)
    ensures MapWords(Dated(year, month, day, hour, rest), Mask) ==
      Dated("<num>", "<num>", day, hour, MapWords(rest, Mask))
  {
    NumberIsMasked(year);
    NumberIsMasked(month);
    DayHourIsPlain(day, hour);
    var last := DayHour(day, hour) + [':'] + rest;
    WordThen(DayHour(day, hour), ':', rest, Mask);
    WordThen(month, '-', last, Mask);
    WordThen(year, '-', month + ['-'] + last, Mask);
  }

  lemma {:induction false} CollapseAfter(p: string, rest: string)
    requires NoBlanks(p)
    ensures Collapse(p + rest) == p + Collapse(rest)
  {
    if p == "" {
      assert p + rest == rest;
    } else {
      assert (p + rest)[0] == p[0] && (p + rest)[1..] == p[1..] + rest;
      CollapseAfter(p[1..], rest);
      assert [p[0]] + (p[1..] + Collapse(rest)) == p + Collapse(rest);
    }
  }

  lemma DatedCollapses(day: string, hour: string, rest: string)
    requires Number(day) && Number(hour)
    ensures Collapse(Dated("<num>", "<num>", day, hour, rest)) == Dated("<num>", "<num>", day, hour, Collapse(rest))
  {
    var front := "<num>" + ['-'] + ("<num>" + ['-'] + (DayHour(day, hour) + [':']));
    assert Dated("<num>", "<num>", day, hour, rest) == front + rest;
    assert Dated("<num>", "<num>", day, hour, Collapse(rest)) == front + Collapse(rest);
    FrontHasNoBlanks(day, hour);
    CollapseAfter(front, rest);
  }

  lemma FrontHasNoBlanks(day: string, hour: string)
    requires Number(day) && Number(hour)
    ensures NoBlanks("<num>" + ['-'] + ("<num>" + ['-'] + (DayHour(day, hour) + [':'])))
  {
    assert NoBlanks("<num>") && NoBlanks(['-']) && NoBlanks([':']) && NoBlanks(DayHour(day, hour));
  }

  /** As timestamps are written: four digits of the year, two of each other part. */
  predicate Stamped(year: string, month: string, day: string, hour: string) {
    && Number(year) && Number(month) && Number(day) && Number(hour)
    && |year| == 4 && |month| == |day| == |hour| == 2
  }

  /** Neither pattern matches within such a beginning, whatever follows it. */
  lemma NoMatchInFront(s: string, year: string, month: string, day: string, hour: string, rest: string, k: nat)
    requires Stamped(year, month, day, hour) && s == Dated(year, month, day, hour, rest) && k < 14
    ensures NoUpper(s) ==> MatchAt(ISO_TIMESTAMP, s, k).None?
    ensures MatchAt(SYSLOG_TIMESTAMP, s, k).None?
  {
    DatedAt(s, year, month, day, hour, rest);
    if NoUpper(s) && MatchAt(ISO_TIMESTAMP, s, k).Some? {
      if k == 0 { IsoNeedsSpace(s, k); } else { FourDigits(s, k); }
    }
    if MatchAt(SYSLOG_TIMESTAMP, s, k).Some? { ThreeLetters(s, k); }
  }

  /** Where the digits stand and where they do not. */
  lemma DatedAt(s: string, year: string, month: string, day: string, hour: string, rest: string)
    requires Stamped(year, month, day, hour) && s == Dated(year, month, day, hour, rest)
    ensures |s| >= 14 && s[4] == s[7] == '-' && s[10] == 't' && s[13] == ':' && s[14..] == rest
    ensures forall i :: 0 <= i < 13 && i != 4 && i != 7 && i != 10 ==> IsDigit(s[i])
    ensures s[..14] + rest == s
  {
  }

  lemma FourDigits(s: string, k: nat)
    requires k < |s| && MatchAt(ISO_TIMESTAMP, s, k).Some?
    ensures k + 4 < |s| && forall i :: k <= i < k + 4 ==> IsDigit(s[i])
  {
    IsoNeedsNumber(s, k);
    forall i | k <= i < k + 4 ensures IsDigit(s[i]) { assert s[k..k + 4][i - k] == s[i]; }
  }

  lemma ThreeLetters(s: string, k: nat)
    requires k < |s| && MatchAt(SYSLOG_TIMESTAMP, s, k).Some?
    ensures k + 3 < |s| && !IsDigit(s[k]) && !IsDigit(s[k + 1]) && In(Letter, s[k]) && In(Letter, s[k + 1])
  {
    SyslogNeedsBlank(s, k);
    var p := SYSLOG_TIMESTAMP.rest;
    assert MatchAt(p, s, k).Some? && MatchAt(p.rest, s, k + 1).Some?;
  }

  /** A timestamp stage copies it. */
  lemma StageCopiesFront(p: Pattern, s: string, year: string, month: string, day: string, hour: string, rest: string,
                         repl: string) returns (tail: string)
    requires Stamped(year, month, day, hour) && s == Dated(year, month, day, hour, rest)
    requires forall k :: 0 <= k < 14 ==> MatchAt(p, s, k).None?
    ensures ReplaceAll(p, s, repl) == Dated(year, month, day, hour, tail)
  {
    DatedAt(s, year, month, day, hour, rest);
    CopyUntil(p, s, 0, 14, repl);
    tail := ReplaceFrom(p, s, 14, repl);
    DatedFront(year, month, day, hour, rest, tail);
  }

  lemma DatedFront(year: string, month: string, day: string, hour: string, rest: string, tail: string)
    requires Stamped(year, month, day, hour)
    ensures Dated(year, month, day, hour, rest)[0..14] + tail == Dated(year, month, day, hour, tail)
  {
    DatedAt(Dated(year, month, day, hour, rest), year, month, day, hour, rest);
    DatedAt(Dated(year, month, day, hour, tail), year, month, day, hour, tail);
  }

  lemma TimesKeepFront(s: string, year: string, month: string, day: string, hour: string, rest: string)
    returns (tail: string)
    requires Stamped(year, month, day, hour) && s == Dated(year, month, day, hour, rest) && NoUpper(s)
    ensures EraseTimes(s) == Dated(year, month, day, hour, tail)
  {
    forall k | 0 <= k < 14 ensures MatchAt(ISO_TIMESTAMP, s, k).None? {
      NoMatchInFront(s, year, month, day, hour, rest, k);
    }
    tail := StageCopiesFront(ISO_TIMESTAMP, s, year, month, day, hour, rest, "<time>");
    var t := ReplaceAll(ISO_TIMESTAMP, s, "<time>");
    forall k | 0 <= k < 14 ensures MatchAt(SYSLOG_TIMESTAMP, t, k).None? {
      NoMatchInFront(t, year, month, day, hour, tail, k);
    }
    tail := StageCopiesFront(SYSLOG_TIMESTAMP, t, year, month, day, hour, tail, "<time>");
  }

  /** Of a line that begins with such a timestamp day and hour are kept, whatever else it says. */
  lemma DayAndHourSurvive(line: string, year: string, month: string, day: string, hour: string, rest: string)
    returns (tail: string)
    requires Stamped(year, month, day, hour) && Clean(line) == Dated(year, month, day, hour, rest)
    ensures Normalize(line) == Dated("<num>", "<num>", day, hour, tail)
  {
    var s := Clean(line);
    CleanIsTight(line);
    tail := TimesKeepFront(s, year, month, day, hour, rest);
    HexThenNumber(EraseTimes(s));
    DatedIsMasked(year, month, day, hour, tail);
    DatedCollapses(day, hour, MapWords(tail, Mask));
    var masked := MapWords(EraseTimes(s), Mask);
    SpacesIsCollapse(masked, 0);
    assert masked[0..] == masked;
    tail := Collapse(MapWords(tail, Mask));
  }

  /** So two such lines of different days or hours are never one event, whatever else they say. */
  lemma HoursApart(line: string, year: string, month: string, day: string, hour: string, rest: string,
                   other: string, otherYear: string, otherMonth: string, otherDay: string, otherHour: string,
                   otherRest: string)
    requires Stamped(year, month, day, hour) && Stamped(otherYear, otherMonth, otherDay, otherHour)
    requires Clean(line) == Dated(year, month, day, hour, rest)
    requires Clean(other) == Dated(otherYear, otherMonth, otherDay, otherHour, otherRest)
    ensures Normalize(line) == Normalize(other) ==> day == otherDay && hour == otherHour
  {
    hide Normalize, Clean, Dated, Number;
    var tail := DayAndHourSurvive(line, year, month, day, hour, rest);
    var otherTail := DayAndHourSurvive(other, otherYear, otherMonth, otherDay, otherHour, otherRest);
    if Normalize(line) == Normalize(other) {
      DatedParts(day, hour, tail);
      DatedParts(otherDay, otherHour, otherTail);
    }
  }

  lemma DatedParts(day: string, hour: string, rest: string)
    ensures var s, n := Dated("<num>", "<num>", day, hour, rest), 12 + |day|;
      && |s| >= n + 1 + |hour| && s[12..n] == day && s[n + 1..n + 1 + |hour|] == hour
  {
  }

  /** `2026-06-16T12:...`, as it is logged. */
  function Logged(year: string, month: string, day: string, hour: string, rest: string): string {
    year + ['-'] + (month + ['-'] + (day + "T" + hour + [':'] + rest))
  }

  predicate Plain(s: string) {
    NoUpper(s) && NoBlanks(s) && forall k :: 0 <= k < |s| ==> !IsSpace(s[k])
  }

  lemma NumberIsPlain(w: string)
    requires Number(w)
    ensures Plain(w) && ToLower(w) == w
  {
    forall k | 0 <= k < |w| ensures NotUpper(w[k]) && !IsBlank(w[k]) && !IsSpace(w[k]) { assert IsDigit(w[k]); }
    LowerFixed(w);
  }

  lemma LowerConcat(a: string, b: string)
    ensures ToLower(a + b) == ToLower(a) + ToLower(b)
  {
  }

  lemma TimeLowers(day: string, hour: string, rest: string)
    requires Number(day) && Number(hour) && Number(rest)
    ensures ToLower(day + "T" + hour + [':'] + rest) == DayHour(day, hour) + [':'] + rest
  {
    NumberIsPlain(day);
    NumberIsPlain(hour);
    NumberIsPlain(rest);
    assert ToLower("T") == "t" && ToLower([':']) == [':'];
    hide ToLower;
    LowerConcat(day, "T");
    LowerConcat(day + "T", hour);
    LowerConcat(day + "T" + hour, [':']);
    LowerConcat(day + "T" + hour + [':'], rest);
  }

  lemma LoggedLowers(year: string, month: string, day: string, hour: string, rest: string)
    requires Number(year) && Number(month) && Number(day) && Number(hour) && Number(rest)
    ensures ToLower(Logged(year, month, day, hour, rest)) == Dated(year, month, day, hour, rest)
  {
    NumberIsPlain(year);
    NumberIsPlain(month);
    TimeLowers(day, hour, rest);
    assert ToLower(['-']) == ['-'];
    hide ToLower, Number;
    var time := day + "T" + hour + [':'] + rest;
    LowerConcat(month, ['-']);
    LowerConcat(month + ['-'], time);
    LowerConcat(year, ['-']);
    LowerConcat(year + ['-'], month + ['-'] + time);
  }

  lemma Endings(a: string, b: string)
    requires a != "" && b != "" && !IsSpace(a[0]) && !IsSpace(b[|b| - 1])
    ensures TrimSpace(a + b) == a + b
  {
    TrimSpaceFixed(a + b);
  }

  lemma LoggedIsTrimmed(year: string, month: string, day: string, hour: string, rest: string)
    requires Number(year) && Number(rest)
    ensures TrimSpace(Logged(year, month, day, hour, rest)) == Logged(year, month, day, hour, rest)
  {
    hide TrimSpace;
    NumberIsPlain(year);
    NumberIsPlain(rest);
    var tail := month + ['-'] + (day + "T" + hour + [':'] + rest);
    assert tail[|tail| - 1] == rest[|rest| - 1];
    Endings(year + ['-'], tail);
  }

  /** Cleaned, a logged line of numbers is a dated one. */
  lemma LoggedIsDated(year: string, month: string, day: string, hour: string, rest: string)
    requires Number(year) && Number(month) && Number(day) && Number(hour) && Number(rest)
    ensures Clean(Logged(year, month, day, hour, rest)) == Dated(year, month, day, hour, rest)
  {
    LoggedIsTrimmed(year, month, day, hour, rest);
    LoggedLowers(year, month, day, hour, rest);
  }

  /** Such lines, an hour apart. */
  lemma AnHourApart()
    ensures Normalize(Logged("2026", "06", "16", "12", "00")) != Normalize(Logged("2026", "06", "16", "13", "00"))
  {
    LoggedIsDated("2026", "06", "16", "12", "00");
    LoggedIsDated("2026", "06", "16", "13", "00");
    assert "12"[1] != "13"[1];
    HoursApart(Logged("2026", "06", "16", "12", "00"), "2026", "06", "16", "12", "00",
               Logged("2026", "06", "16", "13", "00"), "2026", "06", "16", "13", "00");
  }
}

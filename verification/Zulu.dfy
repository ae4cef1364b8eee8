/** A date, a space and a time with a `Z` after it: normalising erases all but the seconds. */
module Zulu {
  import opened Erasure
  import opened Fingerprint
  import opened IsoDates
  import opened Numbers
  import opened Options
  import opened Regex
  import opened Scans
  import opened Stamps
  import opened Strings
  import opened Words

  /** `2026-06-16 10:00:00`. */
  predicate IsSharp(t: string) {
    IsIsoStamp(t) && |t| == 19 && ClockAt(t, 11)
  }

  lemma Lay(t: string, y: string)
    requires IsSharp(t)
    ensures var s := t + ("z" + y);
      && |s| == 20 + |y| && s[19] == 'z' && s[20..] == y && (forall k :: 0 <= k < 19 ==> s[k] == t[k])
      && IsDigit(s[17]) && IsDigit(s[18]) && s[16] == ':' && DateAt(s, 0) && s[10] == ' '
  {
    DateJoins(t, "z" + y, 0);
  }

  /** The match ends before the seconds: after them, and between their digits, there is no word boundary. */
  lemma EndsBeforeSeconds(t: string, y: string)
    requires IsSharp(t)
    ensures MatchAt(ISO_TIMESTAMP, t + ("z" + y), 0) == Some(17)
  {
    var s := t + ("z" + y);
    Lay(t, y);
    DateChars(s, 0);
    IsoMatch(s, 0);
    DigitIsWord(s[17]);
    DigitIsWord(s[18]);
    hide MatchAt, DateAt, IsIsoStamp;
    forall k | 11 <= k < 17 ensures '+' <= s[k] <= 'Z' { assert s[k] == t[k] && InTime(t[k]); }
    assert AtBoundary(s, 0) && AtBoundary(s, 17) && !AtBoundary(s, 18) && !AtBoundary(s, 19);
    assert IsoAt(s, 0, 17);
    forall f: nat | IsoAt(s, 0, f) ensures f <= 17 { StopsAt(s, 0, f, 19); }
  }

  lemma NoDateInSeconds(t: string, y: string, k: nat)
    requires IsSharp(t) && 17 <= k < 20
    ensures MatchAt(ISO_TIMESTAMP, t + ("z" + y), k).None?
  {
    var s := t + ("z" + y);
    Lay(t, y);
    hide IsSharp;
    NoFourDigits(s, k, 19);
  }

  lemma NoFourDigits(s: string, k: nat, j: nat)
    requires k <= j < k + 4 && j < |s| && !IsDigit(s[j])
    ensures MatchAt(ISO_TIMESTAMP, s, k).None?
  {
    hide MatchAt;
    IsoMatch(s, k);
  }

  function Seconds(t: string): string
    requires |t| == 19
  {
    t[17..19] + "z"
  }

  lemma IsoLeavesSeconds(t: string, y: string) returns (rest: string)
    requires IsSharp(t) && (y == "" || !IsWord(y[0]))
    ensures ReplaceAll(ISO_TIMESTAMP, t + ("z" + y), "<time>") == "<time>" + (Seconds(t) + rest)
    ensures rest == "" || !IsWord(rest[0])
  {
    var s := t + ("z" + y);
    Lay(t, y);
    EndsBeforeSeconds(t, y);
    forall k | 17 <= k < 20 ensures MatchAt(ISO_TIMESTAMP, s, k).None? { NoDateInSeconds(t, y, k); }
    if y != "" { assert s[20] == y[0]; }
    hide MatchAt, ReplaceFrom, IsSharp;
    OneStep(ISO_TIMESTAMP, s, 0, "<time>");
    CopyUntil(ISO_TIMESTAMP, s, 17, 20, "<time>");
    RestBegins(ISO_TIMESTAMP, s, 20);
    rest := ReplaceFrom(ISO_TIMESTAMP, s, 20, "<time>");
    assert s[17..20] == Seconds(t);
  }

  lemma NoSyslogAtSeconds(t: string, rest: string, k: nat)
    requires IsSharp(t) && k < 9
    ensures MatchAt(SYSLOG_TIMESTAMP, "<time>" + (Seconds(t) + rest), k).None?
  {
    var s := "<time>" + (Seconds(t) + rest);
    DigitIsWord(t[17]);
    DigitIsWord(t[18]);
    assert s[6] == t[17] && s[7] == t[18] && s[8] == 'z';
    hide MatchAt, IsSharp;
    if k < 6 {
      assert s == "" + "<time>" + (Seconds(t) + rest);
      MarkStops("", Seconds(t) + rest, k);
    } else if k < 8 {
      NoLetterNoSyslog(s, k);
    } else {
      hide IsLetter;
      InWordNoSyslog(s, k);
    }
  }

  lemma InWordNoSyslog(s: string, k: nat)
    requires 0 < k < |s| && IsWord(s[k - 1]) && IsWord(s[k])
    ensures MatchAt(SYSLOG_TIMESTAMP, s, k).None?
  {
  }

  lemma SyslogLeavesSeconds(t: string, rest: string) returns (more: string)
    requires IsSharp(t) && (rest == "" || !IsWord(rest[0]))
    ensures ReplaceAll(SYSLOG_TIMESTAMP, "<time>" + (Seconds(t) + rest), "<time>") == "<time>" + (Seconds(t) + more)
    ensures more == "" || !IsWord(more[0])
  {
    var s := "<time>" + (Seconds(t) + rest);
    forall k | 0 <= k < 9 ensures MatchAt(SYSLOG_TIMESTAMP, s, k).None? { NoSyslogAtSeconds(t, rest, k); }
    assert s[9..] == rest && (rest != "" ==> s[9] == rest[0]);
    hide MatchAt, ReplaceFrom, IsSharp;
    CopyUntil(SYSLOG_TIMESTAMP, s, 0, 9, "<time>");
    RestBegins(SYSLOG_TIMESTAMP, s, 9);
    more := ReplaceFrom(SYSLOG_TIMESTAMP, s, 9, "<time>");
    assert s[0..9] == "<time>" + Seconds(t);
    Heads("<time>", Seconds(t), more);
  }

  lemma SecondsAreWord(t: string)
    requires IsSharp(t)
    ensures IsWordText(Seconds(t)) && Mask(Seconds(t)) == Seconds(t)
  {
    var w := Seconds(t);
    DigitIsWord(t[17]);
    DigitIsWord(t[18]);
    assert w[0] == t[17] && w[1] == t[18] && w[2] == 'z' && |w| == 3 && !IsDigit(w[2]);
  }

  lemma SecondsKept(t: string, rest: string)
    requires IsSharp(t) && (rest == "" || !IsWord(rest[0]))
    ensures MapWords(Seconds(t) + rest, Mask) == Seconds(t) + MapWords(rest, Mask)
  {
    SecondsAreWord(t);
    var w := Seconds(t);
    AllWordChars(w);
    assert w != "" && Apart(w, rest);
    hide *;
    OneWord(w, Mask, IsHexWord);
    MapWordsConcat(w, rest, Mask);
  }

  lemma SecondsCollapse(t: string, b: string)
    requires IsSharp(t)
    ensures Collapse(Seconds(t) + b) == Seconds(t) + Collapse(b)
  {
    ThreeCollapse(t[17], t[18], 'z', b);
    assert Seconds(t) + b == [t[17]] + ([t[18]] + (['z'] + b));
    assert Seconds(t) + Collapse(b) == [t[17]] + ([t[18]] + (['z'] + Collapse(b)));
  }

  lemma ThreeCollapse(c: char, d: char, e: char, b: string)
    requires !IsBlank(c) && !IsBlank(d) && !IsBlank(e)
    ensures Collapse([c] + ([d] + ([e] + b))) == [c] + ([d] + ([e] + Collapse(b)))
  {
    PastOne(e, b);
    PastOne(d, [e] + b);
    PastOne(c, [d] + ([e] + b));
  }

  lemma PastOne(c: char, b: string)
    requires !IsBlank(c)
    ensures Collapse([c] + b) == [c] + Collapse(b)
  {
    assert ([c] + b)[1..] == b;
  }

  lemma CleanFrom(t: string, rest: string)
    requires t != "" && !IsSpace(t[0]) && !IsSpace(t[|t| - 1])
    ensures Clean(t + rest) == ToLower(t) + ToLower(TrimRight(rest))
  {
    TrimRightJoins(t, rest);
    assert (t + rest)[0] == t[0] && TrimLeft(t + rest) == t + rest;
    assert TrimSpace(t + rest) == t + TrimRight(rest);
    hide TrimSpace, TrimLeft, TrimRight;
    LowerTwo(t, TrimRight(rest));
  }

  lemma LowerTwo(a: string, b: string)
    ensures ToLower(a + b) == ToLower(a) + ToLower(b)
  {
  }

  lemma CleanZulu(t: string, rest: string)
    requires IsSharp(t)
    ensures Clean(t + "Z" + rest) == t + ("z" + ToLower(TrimRight(rest)))
  {
    StampIsLower(t);
    assert (t + "Z")[0] == t[0] && ToLower("Z") == "z";
    hide Clean, ToLower, TrimRight, IsSharp;
    LowerTwo(t, "Z");
    CleanFrom(t + "Z", rest);
    Heads(t, "z", ToLower(TrimRight(rest)));
  }

  /** A line that begins with a date, a space, a time and a `Z` keeps the seconds. */
  lemma SecondsSurvive(t: string, rest: string) returns (tail: string)
    requires IsSharp(t) && (rest == "" || !IsWord(rest[0]))
    ensures Normalize(t + "Z" + rest) == "<time>" + (t[17..19] + "z" + tail)
  {
    hide *;
    IsLong(t);
    var y := ToLower(TrimRight(rest));
    BeginsApart(rest);
    CleanZulu(t, rest);
    var a := IsoLeavesSeconds(t, y);
    var b := SyslogLeavesSeconds(t, a);
    Stages(t + "Z" + rest);
    Erased(t + ("z" + y));
    var s := "<time>" + (Seconds(t) + b);
    HexThenNumber(s);
    TimeIsKept(Seconds(t) + b);
    SecondsKept(t, b);
    var masked := MapWords(b, Mask);
    Whole("<time>" + (Seconds(t) + masked));
    TimeIsKept(Seconds(t) + masked);
    SecondsCollapse(t, masked);
    tail := Collapse(masked);
    SecondsAre(t);
  }

  lemma BeginsApart(rest: string)
    requires rest == "" || !IsWord(rest[0])
    ensures var y := ToLower(TrimRight(rest)); y == "" || !IsWord(y[0])
  {
    AroundClean("", rest);
  }

  lemma SecondsAre(t: string)
    requires IsSharp(t)
    ensures Seconds(t) == t[17..19] + "z"
  {
  }

  lemma Whole(s: string)
    ensures ReplaceAll(SPACES, s, " ") == Collapse(s)
  {
    SpacesIsCollapse(s, 0);
    assert s[0..] == s;
  }

  /** So two such lines of different seconds never normalise alike, whatever else they say. */
  lemma SecondsApart(t: string, rest: string, u: string, other: string)
    requires IsSharp(t) && (rest == "" || !IsWord(rest[0])) && IsSharp(u) && (other == "" || !IsWord(other[0]))
    ensures Normalize(t + "Z" + rest) == Normalize(u + "Z" + other) ==> t[17..19] == u[17..19]
  {
    hide *;
    IsLong(t);
    IsLong(u);
    var p := SecondsSurvive(t, rest);
    var q := SecondsSurvive(u, other);
    SamePart("<time>", t[17..19], p, u[17..19], q);
  }

  lemma IsLong(t: string)
    requires IsSharp(t)
    ensures |t| == 19
  {
  }

  lemma SamePart(mark: string, a: string, p: string, b: string, q: string)
    requires |a| == |b|
    ensures mark + (a + "z" + p) == mark + (b + "z" + q) ==> a == b
  {
    var m, n := mark + (a + "z" + p), mark + (b + "z" + q);
    assert m[|mark|..|mark| + |a|] == a && n[|mark|..|mark| + |b|] == b;
  }
}

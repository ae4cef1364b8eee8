/** Which timestamps normalising erases: lines that differ only in one of them have the same normal form. */
module Erasure {
  import opened Fingerprint
  import opened Numbers
  import opened Options
  import opened Regex
  import opened Scans
  import opened Stamps
  import opened Strings
  import opened Words

  /** Three letters, blanks, a day of one or two digits, blanks, and a clock. */
  predicate SyslogParts(t: string, a: nat, d: nat, b: nat) {
    && 3 < a < d < b && d <= a + 2 && |t| == b + 8
    && Letters(t, 0, 3) && Blanks(t, 3, a) && Numerals(t, a, d) && Blanks(t, d, b) && ClockAt(t, b)
  }

  ghost predicate IsSyslogStamp(t: string) {
    exists a, d, b :: SyslogParts(t, a, d, b)
  }

  /** The text before ends, and the text after begins, at a word boundary, if a word stands between them. */
  predicate Around(x: string, y: string) {
    (x == "" || !IsWord(x[|x| - 1])) && (y == "" || !IsWord(y[0]))
  }

  lemma Placed(x: string, t: string, y: string)
    ensures var s := x + t + y;
      && |s| == |x| + |t| + |y| && s[..|x|] == x && s[|x| + |t|..] == y
      && (forall k :: 0 <= k < |t| ==> s[|x| + k] == t[k]) && (forall k :: 0 <= k < |x| ==> s[k] == x[k])
      && (forall k :: 0 <= k < |y| ==> s[|x| + |t| + k] == y[k])
  {
  }

  /** In its place it is a timestamp. */
  lemma SyslogInPlace(x: string, t: string, y: string, a: nat, d: nat, b: nat)
    requires SyslogParts(t, a, d, b) && Around(x, y)
    ensures SyslogAt(x + t + y, |x|, |x| + a, |x| + d, |x| + b)
  {
    Placed(x, t, y);
    var s, n := x + t + y, |x|;
    hide IsBlank, IsDigit, IsLetter;
    LetterIsWord(t[0]);
    DigitIsWord(t[b + 7]);
    assert s[n] == t[0] && s[n + b + 7] == t[b + 7];
    forall k | n <= k < n + 3 ensures IsLetter(s[k]) { assert s[k] == t[k - n]; }
    forall k | n + 3 <= k < n + a ensures IsBlank(s[k]) { assert s[k] == t[k - n]; }
    forall k | n + a <= k < n + d ensures IsDigit(s[k]) { assert s[k] == t[k - n]; }
    forall k | n + d <= k < n + b ensures IsBlank(s[k]) { assert s[k] == t[k - n]; }
    ClockInPlace(x, t, y, b);
  }

  lemma ClockInPlace(x: string, t: string, y: string, b: nat)
    requires ClockAt(t, b)
    ensures ClockAt(x + t + y, |x| + b)
  {
    Placed(x, t, y);
    var s, n := x + t + y, |x|;
    hide IsDigit;
    assert forall k :: b <= k < b + 8 ==> s[n + k] == t[k];
    assert s[n + b] == t[b] && s[n + b + 1] == t[b + 1] && s[n + b + 2] == t[b + 2] && s[n + b + 3] == t[b + 3];
    assert s[n + b + 4] == t[b + 4] && s[n + b + 5] == t[b + 5] && s[n + b + 6] == t[b + 6] && s[n + b + 7] == t[b + 7];
  }

  lemma LetterIsWord(c: char)
    requires IsLetter(c)
    ensures IsWord(c) && !IsDigit(c) && !IsBlank(c)
  {
  }

  lemma DigitIsWord(c: char)
    requires IsDigit(c)
    ensures IsWord(c) && !IsLetter(c) && !IsBlank(c)
  {
  }

  // ---- The ISO stage leaves a syslog timestamp alone ----

  lemma IsoChars(s: string, i: nat, e: nat)
    requires IsoAt(s, i, e)
    ensures forall k :: i <= k < e ==> '+' <= s[k] <= 'Z' || s[k] == ' '
  {
  }

  /** No ISO match reaches from before over a lower-case letter. */
  lemma IsoStopsBefore(x: string, u: string, v: string, i: nat, e: nat)
    requires u != "" && v != "" && 'a' <= u[0] <= 'z' && 'a' <= v[0] <= 'z' && i < |x| && IsoAt(x + u, i, e)
    ensures e <= |x| && IsoAt(x + v, i, e)
  {
    var s, r := x + u, x + v;
    assert s[|x|] == u[0] && r[|x|] == v[0] && IsWord(u[0]) && IsWord(v[0]);
    IsoChars(s, i, e);
    assert e <= |x|;
    forall k | 0 <= k < |x| ensures r[k] == s[k] == x[k] { }
  }

  lemma IsoBefore(x: string, u: string, v: string, i: nat)
    requires u != "" && v != "" && 'a' <= u[0] <= 'z' && 'a' <= v[0] <= 'z' && i < |x|
    ensures var m := MatchAt(ISO_TIMESTAMP, x + u, i);
      m == MatchAt(ISO_TIMESTAMP, x + v, i) && (m.Some? ==> m.value <= |x|)
  {
    IsoMatch(x + u, i);
    IsoMatch(x + v, i);
    hide IsoAt, MatchAt;
    var m, n := MatchAt(ISO_TIMESTAMP, x + u, i), MatchAt(ISO_TIMESTAMP, x + v, i);
    if m.Some? { IsoStopsBefore(x, u, v, i, m.value); }
    if n.Some? { IsoStopsBefore(x, v, u, i, n.value); }
  }

  /** Nor does one start within the timestamp: nowhere in it do four digits begin. */
  lemma NoIsoInside(s: string, n: nat, a: nat, d: nat, b: nat, k: nat)
    requires SyslogAt(s, n, a, d, b) && n <= k < b + 8
    ensures MatchAt(ISO_TIMESTAMP, s, k).None?
  {
    IsoMatch(s, k);
    hide MatchAt;
    if MatchAt(ISO_TIMESTAMP, s, k).Some? {
      var j := NotFourNumerals(s, n, a, d, b, k);
    }
  }

  lemma NotFourNumerals(s: string, n: nat, a: nat, d: nat, b: nat, k: nat) returns (j: nat)
    requires SyslogAt(s, n, a, d, b) && n <= k < b + 8
    ensures k <= j < k + 4 && (j >= |s| || !IsDigit(s[j]))
  {
    if k < a || d <= k < b {
      j := k;
    } else if k < d {
      j := d;
    } else if k <= b + 5 {
      j := if k <= b + 2 then b + 2 else b + 5;
    } else {
      j := b + 8;
    }
  }
  lemma Regroup(x: string, t: string, y: string)
    ensures x + t + y == x + (t + y)
  {
  }

  lemma ClockEnds(x: string, t: string, y: string, a: nat, d: nat, b: nat)
    requires SyslogParts(t, a, d, b)
    ensures WordBefore(x + t + y, |x| + |t|) && (t + y)[0] == t[0] && IsLetter(t[0])
  {
    Placed(x, t, y);
    DigitIsWord(t[b + 7]);
    assert (x + t + y)[|x| + (b + 7)] == t[b + 7];
  }

  /** The rest of the two texts is rewritten alike, after the clock. */
  lemma RestAlike(p: Pattern, x: string, t: string, u: string, y: string)
    requires WordBefore(x + t + y, |x| + |t|) && WordBefore(x + u + y, |x| + |u|)
    ensures ReplaceFrom(p, x + t + y, |x| + |t|, "<time>") == ReplaceFrom(p, x + u + y, |x| + |u|, "<time>")
  {
    Placed(x, t, y);
    Placed(x, u, y);
    RestShifts(p, x + t + y, |x| + |t|, x + u + y, |x| + |u|, "<time>");
  }

  /** What the stage makes of the text before, if it treats both texts alike there and its scan comes to its end. */
  lemma FrontAlike(p: Pattern, x: string, s: string, r: string) returns (front: string)
    requires x <= s && x <= r && forall k :: 0 <= k < |x| ==> MatchAt(p, s, k) == MatchAt(p, r, k)
    requires Reaches(p, s, 0, |x|)
    ensures ReplaceAll(p, s, "<time>") == front + ReplaceFrom(p, s, |x|, "<time>")
    ensures ReplaceAll(p, r, "<time>") == front + ReplaceFrom(p, r, |x|, "<time>")
    ensures x == "" || !IsWord(x[|x| - 1]) ==> front == "" || !IsWord(front[|front| - 1])
  {
    var n := |x|;
    SameFront(p, s, r, 0, n, "<time>");
    FrontThenRest(p, s, 0, n, "<time>");
    FrontThenRest(p, r, 0, n, "<time>");
    front := Front(p, s, 0, n, "<time>");
    if n > 0 { FrontEnds(p, s, 0, n, "<time>"); }
  }

  lemma RestBegins(p: Pattern, s: string, n: nat)
    requires n <= |s| && (n < |s| ==> !IsWord(s[n]))
    ensures var rest := ReplaceFrom(p, s, n, "<time>"); rest == "" || !IsWord(rest[0])
  {
    if n < |s| { ReplaceEnds(p, s, n, "<time>"); }
  }

  predicate Lower(t: string) {
    t != "" && 'a' <= t[0] <= 'z'
  }

  lemma IsoPasses(x: string, t: string, u: string, y: string) returns (front: string, rest: string)
    requires IsSyslogStamp(t) && IsSyslogStamp(u) && Lower(t) && Lower(u) && Around(x, y)
    ensures ReplaceAll(ISO_TIMESTAMP, x + t + y, "<time>") == front + t + rest && Around(front, rest)
    ensures ReplaceAll(ISO_TIMESTAMP, x + u + y, "<time>") == front + u + rest
  {
    StampStarts(t, y);
    StampStarts(u, y);
    IsoFront(x, t + y, u + y);
    Regroup(x, t, y);
    Regroup(x, u, y);
    hide MatchAt, ReplaceAll, ReplaceFrom, IsSyslogStamp;
    NoneReachesPast(ISO_TIMESTAMP, x + t + y, 0, |x|);
    front := FrontAlike(ISO_TIMESTAMP, x, x + t + y, x + u + y);
    rest := ReplaceFrom(ISO_TIMESTAMP, x + t + y, |x| + |t|, "<time>");
    IsoCopies(x, t, y);
    IsoCopies(x, u, y);
    RestAlike(ISO_TIMESTAMP, x, t, u, y);
    IsoRest(x, t, y);
    Heads(front, t, rest);
    Heads(front, u, rest);
  }

  lemma IsoFront(x: string, u: string, v: string)
    requires u != "" && v != "" && 'a' <= u[0] <= 'z' && 'a' <= v[0] <= 'z'
    ensures forall k :: 0 <= k < |x| ==> MatchAt(ISO_TIMESTAMP, x + u, k) == MatchAt(ISO_TIMESTAMP, x + v, k)
    ensures forall k :: 0 <= k < |x| && MatchAt(ISO_TIMESTAMP, x + u, k).Some? ==>
      MatchAt(ISO_TIMESTAMP, x + u, k).value <= |x|
  {
    hide MatchAt;
    forall k | 0 <= k < |x|
      ensures MatchAt(ISO_TIMESTAMP, x + u, k) == MatchAt(ISO_TIMESTAMP, x + v, k)
      ensures MatchAt(ISO_TIMESTAMP, x + u, k).Some? ==> MatchAt(ISO_TIMESTAMP, x + u, k).value <= |x|
    {
      IsoBefore(x, u, v, k);
    }
  }

  lemma IsoRest(x: string, t: string, y: string)
    requires Around(x, y)
    ensures var rest := ReplaceFrom(ISO_TIMESTAMP, x + t + y, |x| + |t|, "<time>"); rest == "" || !IsWord(rest[0])
  {
    Placed(x, t, y);
    if y != "" { assert (x + t + y)[|x| + |t| + 0] == y[0]; }
    RestBegins(ISO_TIMESTAMP, x + t + y, |x| + |t|);
  }

  lemma IsoCopies(x: string, t: string, y: string)
    requires IsSyslogStamp(t) && Around(x, y)
    ensures var s, n := x + t + y, |x| + |t|;
      && ReplaceFrom(ISO_TIMESTAMP, s, |x|, "<time>") == t + ReplaceFrom(ISO_TIMESTAMP, s, n, "<time>")
      && WordBefore(s, n)
  {
    hide *;
    var s, n := x + t + y, |x|;
    var a, d, b := PartsInPlace(x, t, y);
    forall k | n <= k < n + |t| ensures MatchAt(ISO_TIMESTAMP, s, k).None? { NoIsoInside(s, n, a, d, b, k); }
    CopyUntil(ISO_TIMESTAMP, s, n, n + |t|, "<time>");
    Middle(x, t, y);
  }

  lemma Middle(x: string, t: string, y: string)
    ensures (x + t + y)[|x|..|x| + |t|] == t
  {
  }

  lemma PartsInPlace(x: string, t: string, y: string) returns (a: nat, d: nat, b: nat)
    requires IsSyslogStamp(t) && Around(x, y)
    ensures var s := x + t + y;
      SyslogAt(s, |x|, a, d, b) && |x| < b + 8 == |x| + |t| <= |s| && WordBefore(s, |x| + |t|)
  {
    a, d, b :| SyslogParts(t, a, d, b);
    hide SyslogAt, Around, WordBefore;
    SyslogInPlace(x, t, y, a, d, b);
    ClockEnds(x, t, y, a, d, b);
    a, d, b := |x| + a, |x| + d, |x| + b;
  }

  // ---- The syslog stage erases it ----

  lemma AfterMonth(s: string, i: nat, a: nat, d: nat, b: nat)
    requires SyslogAt(s, i, a, d, b)
    ensures forall k :: i + 3 <= k < b + 8 ==> !IsLetter(s[k])
    ensures IsWord(s[b + 7]) && IsWord(s[i]) && IsWord(s[i + 1])
  {
  }

  lemma SyslogStopsBefore(x: string, u: string, v: string, i: nat, a: nat, d: nat, b: nat)
    requires u != "" && v != "" && IsLetter(u[0]) && IsLetter(v[0]) && i < |x| && !IsWord(x[|x| - 1])
    requires SyslogAt(x + u, i, a, d, b)
    ensures b + 8 <= |x| && SyslogAt(x + v, i, a, d, b)
  {
    var s, r := x + u, x + v;
    assert s[|x|] == u[0] && s[|x| - 1] == x[|x| - 1];
    AfterMonth(s, i, a, d, b);
    assert b + 8 < |x|;
    forall k | 0 <= k < |x| ensures r[k] == s[k] == x[k] { }
  }

  lemma SyslogBefore(x: string, u: string, v: string, i: nat)
    requires u != "" && v != "" && IsLetter(u[0]) && IsLetter(v[0]) && i < |x| && !IsWord(x[|x| - 1])
    ensures var m := MatchAt(SYSLOG_TIMESTAMP, x + u, i);
      m == MatchAt(SYSLOG_TIMESTAMP, x + v, i) && (m.Some? ==> m.value <= |x|)
  {
    hide MatchAt, SyslogAt;
    if MatchAt(SYSLOG_TIMESTAMP, x + u, i).Some? {
      var a, d, b := SyslogSound(x + u, i);
      SyslogStopsBefore(x, u, v, i, a, d, b);
      SyslogComplete(x + v, i, a, d, b);
    } else if MatchAt(SYSLOG_TIMESTAMP, x + v, i).Some? {
      var a, d, b := SyslogSound(x + v, i);
      SyslogStopsBefore(x, v, u, i, a, d, b);
      SyslogComplete(x + u, i, a, d, b);
    }
  }

  lemma SyslogReplaced(x: string, t: string, y: string)
    requires IsSyslogStamp(t) && Around(x, y)
    ensures var s, n := x + t + y, |x| + |t|;
      && ReplaceFrom(SYSLOG_TIMESTAMP, s, |x|, "<time>") == "<time>" + ReplaceFrom(SYSLOG_TIMESTAMP, s, n, "<time>")
      && WordBefore(s, n)
  {
    hide MatchAt, ReplaceFrom, SyslogAt, WordBefore, IsSyslogStamp, Around;
    var s, n := x + t + y, |x|;
    var a, d, b := PartsInPlace(x, t, y);
    SyslogComplete(s, n, a, d, b);
    OneStep(SYSLOG_TIMESTAMP, s, n, "<time>");
  }

  lemma SyslogStage(x: string, t: string, u: string, y: string) returns (front: string, rest: string)
    requires IsSyslogStamp(t) && IsSyslogStamp(u) && Around(x, y)
    ensures ReplaceAll(SYSLOG_TIMESTAMP, x + t + y, "<time>") == front + "<time>" + rest
    ensures ReplaceAll(SYSLOG_TIMESTAMP, x + u + y, "<time>") == front + "<time>" + rest
  {
    StampStarts(t, y);
    StampStarts(u, y);
    forall k | 0 <= k < |x|
      ensures MatchAt(SYSLOG_TIMESTAMP, x + (t + y), k) == MatchAt(SYSLOG_TIMESTAMP, x + (u + y), k)
      ensures MatchAt(SYSLOG_TIMESTAMP, x + (t + y), k).Some? ==>
        MatchAt(SYSLOG_TIMESTAMP, x + (t + y), k).value <= |x|
    {
      SyslogBefore(x, t + y, u + y, k);
    }
    Regroup(x, t, y);
    Regroup(x, u, y);
    hide MatchAt;
    NoneReachesPast(SYSLOG_TIMESTAMP, x + t + y, 0, |x|);
    front := FrontAlike(SYSLOG_TIMESTAMP, x, x + t + y, x + u + y);
    rest := ReplaceFrom(SYSLOG_TIMESTAMP, x + t + y, |x| + |t|, "<time>");
    SyslogReplaced(x, t, y);
    SyslogReplaced(x, u, y);
    hide IsSyslogStamp, ReplaceAll, ReplaceFrom;
    RestAlike(SYSLOG_TIMESTAMP, x, t, u, y);
    Heads(front, "<time>", rest);
  }

  lemma StampStarts(t: string, y: string)
    requires IsSyslogStamp(t)
    ensures t != "" && (t + y)[0] == t[0] && IsLetter(t[0])
  {
    var a, d, b :| SyslogParts(t, a, d, b);
  }

  lemma TimesErased(x: string, t: string, u: string, y: string) returns (front: string, rest: string)
    requires IsSyslogStamp(t) && IsSyslogStamp(u) && Lower(t) && Lower(u) && Around(x, y)
    ensures EraseTimes(x + t + y) == front + "<time>" + rest
    ensures EraseTimes(x + u + y) == front + "<time>" + rest
  {
    hide IsSyslogStamp, ReplaceAll, Lower, Around;
    var before, after := IsoPasses(x, t, u, y);
    front, rest := SyslogStage(before, t, u, after);
  }
  // ---- The later stages ----

  lemma {:induction false} CollapseJoins(a: string, b: string)
    requires b != "" && !IsBlank(b[0])
    ensures Collapse(a + b) == Collapse(a) + Collapse(b)
    decreases |a|
  {
    if a == "" {
      assert a + b == b;
    } else if IsBlank(a[0]) {
      BlankLenJoins(a, b);
      var n := BlankLen(a);
      assert (a + b)[n..] == a[n..] + b;
      CollapseJoins(a[n..], b);
      Heads(" ", Collapse(a[n..]), Collapse(b));
    } else {
      assert (a + b)[1..] == a[1..] + b;
      CollapseJoins(a[1..], b);
      Heads([a[0]], Collapse(a[1..]), Collapse(b));
    }
  }

  lemma {:induction false} BlankLenJoins(a: string, b: string)
    requires a != "" && IsBlank(a[0]) && b != "" && !IsBlank(b[0])
    ensures BlankLen(a + b) == BlankLen(a)
  {
    assert (a + b)[1..] == a[1..] + b;
    if |a| > 1 && IsBlank(a[1]) { BlankLenJoins(a[1..], b); }
  }

  lemma TimeIsKept(b: string)
    ensures MapWords("<time>" + b, Mask) == "<time>" + MapWords(b, Mask)
    ensures Collapse("<time>" + b) == "<time>" + Collapse(b)
  {
    assert "<time>" == "<" + ("time" + ">") && Mask("time") == "time" by { assert !IsDigit("time"[0]); }
    BracketedWord("time", Mask, IsHexWord);
    MapWordsConcat("<time>", b, Mask);
    CollapseTime(b);
  }

  lemma CollapseTime(b: string)
    ensures Collapse("<time>" + b) == "<time>" + Collapse(b)
  {
    assert "<time>" + b == ['<'] + (['t'] + (['i'] + (['m'] + (['e'] + (['>'] + b)))));
    assert "<time>" + Collapse(b) == ['<'] + (['t'] + (['i'] + (['m'] + (['e'] + (['>'] + Collapse(b))))));
    hide IsBlank;
    CollapseOne('>', b);
    CollapseOne('e', ['>'] + b);
    CollapseOne('m', ['e'] + (['>'] + b));
    CollapseOne('i', ['m'] + (['e'] + (['>'] + b)));
    CollapseOne('t', ['i'] + (['m'] + (['e'] + (['>'] + b))));
    CollapseOne('<', ['t'] + (['i'] + (['m'] + (['e'] + (['>'] + b)))));
  }

  lemma CollapseOne(c: char, b: string)
    ensures c != ' ' && !('\t' <= c <= '\r') ==> Collapse([c] + b) == [c] + Collapse(b)
  {
    assert ([c] + b)[1..] == b;
  }

  /** What is left after the timestamps goes through the later stages on either side of the mark. */
  lemma LaterStages(front: string, rest: string) returns (p: string, q: string)
    ensures ReplaceAll(SPACES, EraseNumbers(front + "<time>" + rest), " ") == p + "<time>" + q
  {
    var s := front + "<time>" + rest;
    HexThenNumber(s);
    Heads(front, "<time>", rest);
    MapWordsConcat(front, "<time>" + rest, Mask);
    TimeIsKept(rest);
    var masked, back := MapWords(front, Mask), MapWords(rest, Mask);
    assert MapWords(s, Mask) == masked + ("<time>" + back);
    SpacesIsCollapse(MapWords(s, Mask), 0);
    assert MapWords(s, Mask)[0..] == MapWords(s, Mask);
    hide MapWords, ReplaceAll, EraseNumbers;
    TimeIsKept(back);
    CollapseJoins(masked, "<time>" + back);
    p, q := Collapse(masked), Collapse(back);
    Heads(p, "<time>", q);
  }

  // ---- Trimming and lower case ----

  lemma CleanJoins(front: string, t: string, rest: string)
    requires t != "" && !IsSpace(t[0]) && !IsSpace(t[|t| - 1])
    ensures Clean(front + t + rest) == ToLower(TrimLeft(front)) + ToLower(t) + ToLower(TrimRight(rest))
  {
    Regroup(front, t, rest);
    TrimLeftJoins(front, t + rest);
    Regroup(TrimLeft(front), t, rest);
    TrimRightJoins(TrimLeft(front) + t, rest);
    assert TrimSpace(front + t + rest) == TrimLeft(front) + t + TrimRight(rest);
    hide TrimSpace, TrimLeft, TrimRight;
    LowerJoins(TrimLeft(front), t, TrimRight(rest));
  }

  lemma LowerJoins(a: string, b: string, c: string)
    ensures ToLower(a + b + c) == ToLower(a) + ToLower(b) + ToLower(c)
  {
  }

  lemma AroundClean(front: string, rest: string)
    requires Around(front, rest)
    ensures Around(ToLower(TrimLeft(front)), ToLower(TrimRight(rest)))
  {
    hide TrimLeft, TrimRight;
    var x, y := TrimLeft(front), TrimRight(rest);
    if x != "" { assert x[|x| - 1] == front[|front| - 1]; }
    if y != "" { assert y[0] == rest[0]; }
  }

  lemma StampLowers(t: string)
    requires IsSyslogStamp(t)
    ensures IsSyslogStamp(ToLower(t)) && Lower(ToLower(t))
    ensures t != "" && !IsSpace(t[0]) && !IsSpace(t[|t| - 1])
  {
    var a, d, b :| SyslogParts(t, a, d, b);
    var l := ToLower(t);
    hide ToLower;
    assert IsLetter(t[0]) && IsDigit(t[b + 7]) && l[0] == LowerChar(t[0]);
    assert SyslogParts(l, a, d, b);
  }

  lemma Stages(line: string)
    ensures Normalize(line) == ReplaceAll(SPACES, EraseNumbers(EraseTimes(Clean(line))), " ")
  {
  }

  /** Lines that differ only in a timestamp like `Jan  5 10:00:00`, at word boundaries, wherever it stands, have the
      same normal form: with `<time>` in its place. */
  lemma SyslogTimesErased(front: string, t: string, u: string, rest: string) returns (p: string, q: string)
    requires IsSyslogStamp(t) && IsSyslogStamp(u) && Around(front, rest)
    ensures Normalize(front + t + rest) == Normalize(front + u + rest) == p + "<time>" + q
  {
    hide *;
    StampLowers(t);
    StampLowers(u);
    Stages(front + t + rest);
    Stages(front + u + rest);
    CleanJoins(front, t, rest);
    CleanJoins(front, u, rest);
    AroundClean(front, rest);
    var x, y := ToLower(TrimLeft(front)), ToLower(TrimRight(rest));
    var before, after := TimesErased(x, ToLower(t), ToLower(u), y);
    p, q := LaterStages(before, after);
  }
}

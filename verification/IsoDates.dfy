/** A date, a space and a time: when normalising erases it, and when the time is left. */
module IsoDates {
  import opened Erasure
  import opened Fingerprint
  import opened Numbers
  import opened Options
  import opened Regex
  import opened Scans
  import opened Stamps
  import opened Strings
  import opened Words

  /** What a time may be written with: digits, colon, point, sign, and what lies between them. */
  predicate InTime(c: char) {
    '+' <= c <= '@'
  }

  /** `2026-06-16 10:00:00`, a fraction or an offset after it or not. */
  predicate IsIsoStamp(t: string) {
    && |t| >= 12 && DateAt(t, 0) && t[10] == ' ' && IsDigit(t[|t| - 1])
    && forall k :: 11 <= k < |t| ==> InTime(t[k])
  }

  /** From `k` on the text is a date, a space, and characters of a time to the end. */
  predicate OpenDate(front: string, k: nat) {
    && k + 11 <= |front| && DateAt(front, k) && front[k + 10] == ' ' && !WordBefore(front, k)
    && forall j :: k + 11 <= j < |front| ==> InTime(front[j])
  }

  /** The text ends in the midst of a timestamp, which takes in whatever digits follow; unless its own date was taken in
      by the timestamp before. */
  predicate Unfinished(front: string)
    decreases |front|
  {
    exists k :: 0 <= k < |front| && OpenDate(front, k) && !Unfinished(front[..k])
  }

  predicate Dated(w: string) {
    |w| >= 11 && DateAt(w, 0) && w[10] == ' '
  }

  predicate EndsApart(x: string) {
    x == "" || !IsWord(x[|x| - 1])
  }

  lemma Joint(x: string, w: string)
    ensures var s := x + w;
      |s| == |x| + |w| && (forall k :: 0 <= k < |x| ==> s[k] == x[k]) && forall k :: 0 <= k < |w| ==> s[|x| + k] == w[k]
  {
  }

  lemma DateChars(s: string, i: nat)
    requires DateAt(s, i)
    ensures forall k :: i <= k < i + 10 ==> (IsDigit(s[k]) || s[k] == '-') && InTime(s[k]) && '+' <= s[k] <= 'Z'
    ensures IsWord(s[i]) && IsWord(s[i + 9])
  {
  }

  lemma DateJoins(x: string, w: string, k: nat)
    ensures DateAt(x, k) ==> DateAt(x + w, k)
    ensures DateAt(w, k) ==> DateAt(x + w, |x| + k)
  {
    Joint(x, w);
    hide IsDigit;
    var s := x + w;
    if DateAt(w, k) {
      assert forall j :: k <= j < k + 10 ==> s[|x| + j] == w[j];
      forall j | |x| + k <= j < |x| + k + 10 ensures s[j] == w[j - |x|] { }
      assert s[|x| + (k + 4)] == w[k + 4] && s[|x| + (k + 7)] == w[k + 7];
    }
  }

  /** A date open at the end takes in the date that follows, and no more. */
  lemma TakesIn(x: string, w: string, k: nat)
    requires OpenDate(x, k) && Dated(w)
    ensures MatchAt(ISO_TIMESTAMP, x + w, k) == Some(|x| + 10)
  {
    var s, e := x + w, |x| + 10;
    Joint(x, w);
    DateJoins(x, w, k);
    DateChars(w, 0);
    DateChars(s, k);
    IsoMatch(s, k);
    assert s[|x| + 9] == w[9] && s[e] == w[10];
    hide MatchAt, DateAt;
    forall j | k + 11 <= j < e ensures '+' <= s[j] <= 'Z' {
      if j >= |x| { assert s[j] == w[j - |x|]; }
    }
    assert AtBoundary(s, e) && AtBoundary(s, k);
    assert IsoAt(s, k, e);
    forall f: nat | IsoAt(s, k, f) ensures f <= e { StopsAt(s, k, f, e); }
  }

  lemma StopsAt(s: string, i: nat, e: nat, stop: nat)
    requires IsoAt(s, i, e) && i + 11 <= stop < |s| && !('+' <= s[stop] <= 'Z')
    ensures e <= stop
  {
  }

  /** A match from before that reaches past the text before begins at a date open at its end. */
  lemma ReachesPast(x: string, w: string, i: nat, e: nat)
    requires NoUpper(x) && EndsApart(x) && Dated(w) && i < |x| && IsoAt(x + w, i, e) && e > |x|
    ensures OpenDate(x, i) && e <= |x| + 10
  {
    var s := x + w;
    Joint(x, w);
    WhereBefore(x, w, i, e);
    forall j | i + 11 <= j < |x| ensures InTime(x[j]) { assert s[j] == x[j] && NotUpper(x[j]); }
    assert s[|x| + 10] == w[10];
    StopsAt(s, i, e, |x| + 10);
  }

  /** The date and the space of such a match are in the text before. */
  lemma WhereBefore(x: string, w: string, i: nat, e: nat)
    requires NoUpper(x) && EndsApart(x) && Dated(w) && i < |x| && IsoAt(x + w, i, e) && e > |x|
    ensures i + 11 <= |x| && x[i + 10] == ' ' && DateAt(x, i)
  {
    var s, n := x + w, |x|;
    Joint(x, w);
    DateChars(s, i);
    DateChars(w, 0);
    assert s[n - 1] == x[n - 1] && s[n] == w[0] && s[n + 1] == w[1] && s[n + 2] == w[2] && s[n + 3] == w[3];
    assert IsDigit(s[n]) && IsDigit(s[n + 1]) && IsDigit(s[n + 2]) && IsDigit(s[n + 3]) && !IsDigit(s[n - 1]);
    assert n >= i + 11;
    assert s[i + 10] == x[i + 10] && NotUpper(x[i + 10]);
    forall j | i <= j < i + 10 ensures x[j] == s[j] { }
  }

  /** The scan comes to the end of the text before a date, unless that is unfinished. */
  lemma {:induction false} ComesTo(x: string, w: string)
    requires NoUpper(x) && EndsApart(x) && Dated(w)
    ensures Reaches(ISO_TIMESTAMP, x + w, 0, |x|) <==> !Unfinished(x)
    decreases |x|
  {
    var s, n := x + w, |x|;
    hide MatchAt, IsoAt, DateAt, Dated;
    if !Reaches(ISO_TIMESTAMP, s, 0, n) {
      var j := GoesOver(ISO_TIMESTAMP, s, 0, n);
      IsoMatch(s, j);
      ReachesPast(x, w, j, StepFrom(ISO_TIMESTAMP, s, j));
      ComesToDate(x, w, j);
      ComesTo(x[..j], s[j..]);
    }
    if k :| 0 <= k < n && OpenDate(x, k) && !Unfinished(x[..k]) {
      ComesToDate(x, w, k);
      ComesTo(x[..k], s[k..]);
      TakesIn(x, w, k);
      NotReached(ISO_TIMESTAMP, s, 0, k, n);
    }
  }

  /** An open date splits the text. */
  lemma ComesToDate(x: string, w: string, k: nat)
    requires OpenDate(x, k) && NoUpper(x)
    ensures var s := x + w;
      s == x[..k] + s[k..] && NoUpper(x[..k]) && EndsApart(x[..k]) && Dated(s[k..])
  {
    var s := x + w;
    Joint(x, w);
    DateJoins(x, w, k);
    var rest := s[k..];
    forall j | 0 <= j < 11 ensures rest[j] == s[k + j] { }
    assert rest[10] == ' ';
    DateShifts(s, k);
  }

  lemma DateShifts(s: string, k: nat)
    requires DateAt(s, k)
    ensures DateAt(s[k..], 0)
  {
    hide IsDigit;
    var rest := s[k..];
    forall j | 0 <= j < 10 ensures rest[j] == s[k + j] { }
    forall j | 0 <= j < 4 ensures IsDigit(rest[j]) { assert IsDigit(s[k + j]); }
    forall j | 5 <= j < 7 ensures IsDigit(rest[j]) { assert IsDigit(s[k + j]); }
    forall j | 8 <= j < 10 ensures IsDigit(rest[j]) { assert IsDigit(s[k + j]); }
    assert rest[4] == s[k + 4] && rest[7] == s[k + 7];
  }

  /** Before either of two dates the pattern matches alike. */
  lemma DateBefore(x: string, w: string, v: string, i: nat)
    requires NoUpper(x) && EndsApart(x) && Dated(w) && Dated(v) && i < |x|
    ensures MatchAt(ISO_TIMESTAMP, x + w, i) == MatchAt(ISO_TIMESTAMP, x + v, i)
  {
    IsoMatch(x + w, i);
    IsoMatch(x + v, i);
    hide MatchAt, IsoAt;
    var m, n := MatchAt(ISO_TIMESTAMP, x + w, i), MatchAt(ISO_TIMESTAMP, x + v, i);
    if m.Some? { DateMoves(x, w, v, i, m.value); }
    if n.Some? { DateMoves(x, v, w, i, n.value); }
  }

  lemma DateMoves(x: string, w: string, v: string, i: nat, e: nat)
    requires NoUpper(x) && EndsApart(x) && Dated(w) && Dated(v) && i < |x| && IsoAt(x + w, i, e)
    ensures IsoAt(x + v, i, e)
  {
    var s, r, n := x + w, x + v, |x|;
    Joint(x, w);
    Joint(x, v);
    DateChars(w, 0);
    DateChars(v, 0);
    if e > n {
      ReachesPast(x, w, i, e);
      DateJoins(x, v, i);
      forall j | i + 11 <= j < e ensures '+' <= r[j] <= 'Z' {
        if j >= n { assert r[j] == v[j - n]; } else { assert s[j] == x[j] == r[j]; }
      }
      SameMarks(w, v, e - n);
      assert s[e - 1] == w[e - n - 1] && r[e - 1] == v[e - n - 1] && s[e] == w[e - n] && r[e] == v[e - n];
      assert AtBoundary(r, e);
    } else {
      assert s[n] == w[0] && r[n] == v[0];
      forall j | 0 <= j < n ensures s[j] == x[j] == r[j] { }
      assert DateAt(r, i);
    }
  }

  /** Dates have digits and dashes in the same places. */
  lemma SameMarks(w: string, v: string, j: nat)
    requires Dated(w) && Dated(v) && 1 <= j <= 10
    ensures IsWord(w[j]) == IsWord(v[j]) && IsWord(w[j - 1]) == IsWord(v[j - 1])
  {
  }
  // ---- The stage ----

  lemma StampIsDated(t: string, y: string)
    requires IsIsoStamp(t)
    ensures Dated(t + y)
  {
    Joint(t, y);
    DateJoins(t, y, 0);
  }

  lemma StampHead(x: string, t: string, y: string)
    requires IsIsoStamp(t) && Around(x, y)
    ensures var s, n := x + t + y, |x|;
      && DateAt(s, n) && |s| >= n + |t| && s[n + 10] == ' ' && AtBoundary(s, n) && IsWord(s[n + |t| - 1])
      && StampChars(s, n + 11, n + |t|) && s[n + |t|..] == y
  {
    var s, n, l := x + t + y, |x|, |t|;
    Placed(x, t, y);
    StampIsDated(t, y);
    Regroup(x, t, y);
    DateJoins(x, t + y, 0);
    DateChars(s, n);
    DigitIsWord(t[l - 1]);
    assert s[n + 10] == t[10] && s[n + (l - 1)] == t[l - 1];
    hide DateAt, IsWord;
    forall j | n + 11 <= j < n + l ensures '+' <= s[j] <= 'Z' { assert s[n + (j - n)] == t[j - n]; }
  }

  lemma StampOn(s: string, from: nat, at: nat, y: string, m: nat)
    requires from <= at <= |s| && s[at..] == y && m <= |y| && StampChars(s, from, at)
    ensures StampChars(s, from, at + m) <==> StampChars(y, 0, m)
  {
    forall j | 0 <= j < m ensures s[at + j] == y[j] { }
    if StampChars(s, from, at + m) {
      forall j | 0 <= j < m ensures '+' <= y[j] <= 'Z' { assert s[at + j] == y[j]; }
    }
    if StampChars(y, 0, m) {
      forall j | from <= j < at + m ensures '+' <= s[j] <= 'Z' { if j >= at { assert s[at + (j - at)] == y[j - at]; } }
    }
  }

  /** In its place the timestamp is one, and longer ones there end in the text after. */
  lemma IsoInPlace(x: string, t: string, y: string, m: nat)
    requires IsIsoStamp(t) && Around(x, y) && m <= |y|
    ensures IsoAt(x + t + y, |x|, |x| + |t| + m) <==> StampChars(y, 0, m) && (m > 0 ==> AtBoundary(y, m))
  {
    var s, n, l := x + t + y, |x|, |t|;
    assert l >= 12 && |s| == n + l + |y| && (y == "" || !IsWord(y[0]));
    hide IsIsoStamp, Around, StampChars, AtBoundary, DateAt, IsWord;
    StampHead(x, t, y);
    StampOn(s, n + 11, n + l, y, m);
    EndsWhere(s, n + l, y, m);
  }

  /** Where in the text after there is a word boundary. */
  lemma EndsWhere(s: string, at: nat, y: string, m: nat)
    requires 0 < at <= |s| && s[at..] == y && m <= |y| && IsWord(s[at - 1]) && (y == "" || !IsWord(y[0]))
    ensures AtBoundary(s, at + m) <==> (m > 0 ==> AtBoundary(y, m))
  {
    if m < |y| { assert s[at + m] == y[m]; }
    if m > 0 { assert s[at + (m - 1)] == y[m - 1]; }
    if y != "" { assert s[at] == y[0]; }
  }

  /** The match there ends where the timestamp does, or as far into the text after as with another. */
  lemma IsoExtent(x: string, t: string, u: string, y: string) returns (m: nat)
    requires IsIsoStamp(t) && IsIsoStamp(u) && Around(x, y)
    ensures m <= |y| && MatchAt(ISO_TIMESTAMP, x + t + y, |x|) == Some(|x| + |t| + m)
    ensures MatchAt(ISO_TIMESTAMP, x + u + y, |x|) == Some(|x| + |u| + m)
  {
    var s, r := x + t + y, x + u + y;
    IsoMatch(s, |x|);
    IsoMatch(r, |x|);
    IsoInPlace(x, t, y, 0);
    IsoInPlace(x, u, y, 0);
    hide MatchAt, IsoAt, StampChars, AtBoundary, IsIsoStamp;
    m := MatchAt(ISO_TIMESTAMP, s, |x|).value - |x| - |t|;
    var k := MatchAt(ISO_TIMESTAMP, r, |x|).value - |x| - |u|;
    IsoInPlace(x, t, y, m);
    IsoInPlace(x, u, y, m);
    IsoInPlace(x, t, y, k);
    IsoInPlace(x, u, y, k);
  }

  /** Both texts after the match are one, after a word character or after none. */
  lemma AfterExtent(x: string, t: string, u: string, y: string, m: nat)
    requires IsIsoStamp(t) && IsIsoStamp(u) && m <= |y|
    ensures SameRest(x + t + y, |x| + |t| + m, x + u + y, |x| + |u| + m)
  {
    hide *;
    EndsInWord(x, t, y);
    EndsInWord(x, u, y);
    SameAfter(x, t, u, y);
    SameRestOn(x + t + y, |x| + |t|, x + u + y, |x| + |u|, m);
  }

  lemma EndsInWord(x: string, t: string, y: string)
    requires IsIsoStamp(t)
    ensures WordBefore(x + t + y, |x| + |t|)
  {
    var s := x + t + y;
    DigitIsWord(t[|t| - 1]);
    assert s[|x| + (|t| - 1)] == t[|t| - 1];
  }

  lemma SameAfter(x: string, t: string, u: string, y: string)
    requires WordBefore(x + t + y, |x| + |t|) && WordBefore(x + u + y, |x| + |u|)
    ensures SameRest(x + t + y, |x| + |t|, x + u + y, |x| + |u|) && |x + t + y| == |x| + |t| + |y|
  {
    Placed(x, t, y);
    Placed(x, u, y);
  }

  lemma ApartFrom(x: string, y: string)
    requires Around(x, y)
    ensures EndsApart(x)
  {
  }

  lemma IsoFrontAlike(x: string, t: string, u: string, y: string) returns (front: string)
    requires IsIsoStamp(t) && IsIsoStamp(u) && EndsApart(x) && NoUpper(x) && !Unfinished(x)
    ensures var s, r := x + t + y, x + u + y;
      && ReplaceAll(ISO_TIMESTAMP, s, "<time>") == front + ReplaceFrom(ISO_TIMESTAMP, s, |x|, "<time>")
      && ReplaceAll(ISO_TIMESTAMP, r, "<time>") == front + ReplaceFrom(ISO_TIMESTAMP, r, |x|, "<time>")
  {
    hide *;
    var s, r := x + t + y, x + u + y;
    StampIsDated(t, y);
    StampIsDated(u, y);
    Regroup(x, t, y);
    Regroup(x, u, y);
    ComesTo(x, t + y);
    forall k | 0 <= k < |x| ensures MatchAt(ISO_TIMESTAMP, s, k) == MatchAt(ISO_TIMESTAMP, r, k) {
      DateBefore(x, t + y, u + y, k);
    }
    front := FrontAlike(ISO_TIMESTAMP, x, s, r);
  }

  lemma IsoReplaced(x: string, t: string, y: string, m: nat)
    requires t != "" && m <= |y| && MatchAt(ISO_TIMESTAMP, x + t + y, |x|) == Some(|x| + |t| + m)
    ensures var s := x + t + y;
      ReplaceFrom(ISO_TIMESTAMP, s, |x|, "<time>") == "<time>" + ReplaceFrom(ISO_TIMESTAMP, s, |x| + |t| + m, "<time>")
  {
    hide MatchAt, ReplaceFrom;
    OneStep(ISO_TIMESTAMP, x + t + y, |x|, "<time>");
  }

  /** Of a timestamp after a text that is not unfinished the ISO stage leaves nothing. */
  lemma IsoStage(x: string, t: string, u: string, y: string) returns (front: string, rest: string)
    requires IsIsoStamp(t) && IsIsoStamp(u) && Around(x, y) && NoUpper(x) && !Unfinished(x)
    ensures ReplaceAll(ISO_TIMESTAMP, x + t + y, "<time>") == front + "<time>" + rest
    ensures ReplaceAll(ISO_TIMESTAMP, x + u + y, "<time>") == front + "<time>" + rest
  {
    hide *;
    var m := IsoExtent(x, t, u, y);
    ApartFrom(x, y);
    StampIsLower(t);
    StampIsLower(u);
    AfterExtent(x, t, u, y, m);
    front := IsoFrontAlike(x, t, u, y);
    IsoReplaced(x, t, y, m);
    IsoReplaced(x, u, y, m);
    rest := ReplaceFrom(ISO_TIMESTAMP, x + t + y, |x| + |t| + m, "<time>");
    RestShifts(ISO_TIMESTAMP, x + t + y, |x| + |t| + m, x + u + y, |x| + |u| + m, "<time>");
    Heads(front, "<time>", rest);
  }

  // ---- The syslog stage leaves the mark ----

  lemma SyslogChars(s: string, i: nat, a: nat, d: nat, b: nat)
    requires SyslogAt(s, i, a, d, b)
    ensures forall k :: i <= k < b + 8 ==> s[k] != '<' && s[k] != '.'
    ensures IsBlank(s[i + 3]) && forall k :: i <= k < i + 3 ==> IsLetter(s[k])
  {
  }

  lemma MarkStops(a: string, b: string, k: nat)
    requires k < |a| + 6
    ensures var m := MatchAt(SYSLOG_TIMESTAMP, a + "<time>" + b, k);
      if k < |a| then m.Some? ==> m.value <= |a| else m.None?
  {
    var s := a + "<time>" + b;
    Placed(a, "<time>", b);
    assert s[|a| + 0] == '<' && s[|a| + 1] == 't' && s[|a| + 2] == 'i' && s[|a| + 3] == 'm' && s[|a| + 4] == 'e'
        && s[|a| + 5] == '>';
    hide MatchAt;
    if MatchAt(SYSLOG_TIMESTAMP, s, k).Some? {
      var c, d, e := SyslogSound(s, k);
      SyslogChars(s, k, c, d, e);
    }
  }

  lemma SyslogKeepsMark(a: string, b: string) returns (front: string, rest: string)
    ensures ReplaceAll(SYSLOG_TIMESTAMP, a + "<time>" + b, "<time>") == front + "<time>" + rest
  {
    var s := a + "<time>" + b;
    forall k | 0 <= k < |a| + 6
      ensures if k < |a| then MatchAt(SYSLOG_TIMESTAMP, s, k).Some? ==> MatchAt(SYSLOG_TIMESTAMP, s, k).value <= |a|
        else MatchAt(SYSLOG_TIMESTAMP, s, k).None?
    {
      MarkStops(a, b, k);
    }
    hide MatchAt, ReplaceFrom, ReplaceAll;
    NoneReachesPast(SYSLOG_TIMESTAMP, s, 0, |a|);
    Regroup(a, "<time>", b);
    front := FrontAlike(SYSLOG_TIMESTAMP, a, s, s);
    CopyUntil(SYSLOG_TIMESTAMP, s, |a|, |a| + 6, "<time>");
    Middle(a, "<time>", b);
    rest := ReplaceFrom(SYSLOG_TIMESTAMP, s, |a| + 6, "<time>");
    Heads(front, "<time>", rest);
  }

  lemma DatesErased(x: string, t: string, u: string, y: string) returns (p: string, q: string)
    requires IsIsoStamp(t) && IsIsoStamp(u) && Around(x, y) && NoUpper(x) && !Unfinished(x)
    ensures ReplaceAll(SPACES, EraseNumbers(EraseTimes(x + t + y)), " ") == p + "<time>" + q
    ensures ReplaceAll(SPACES, EraseNumbers(EraseTimes(x + u + y)), " ") == p + "<time>" + q
  {
    hide ReplaceAll, EraseNumbers, IsIsoStamp, Around, Unfinished;
    var a, b := IsoStage(x, t, u, y);
    var front, rest := SyslogKeepsMark(a, b);
    p, q := LaterStages(front, rest);
  }
  // ---- Trimming and lower case ----

  lemma LowerMarks(c: char)
    ensures var l := LowerChar(c);
      && (IsDigit(l) <==> IsDigit(c)) && (l == '-' <==> c == '-') && (l == ' ' <==> c == ' ')
      && (InTime(l) <==> InTime(c)) && (IsWord(l) <==> IsWord(c))
  {
  }

  lemma OpenLowers(x: string, k: nat)
    ensures OpenDate(ToLower(x), k) <==> OpenDate(x, k)
  {
    var l := ToLower(x);
    hide ToLower, LowerChar, IsDigit, InTime, IsWord;
    forall j | 0 <= j < |x|
      ensures (IsDigit(l[j]) <==> IsDigit(x[j])) && (l[j] == '-' <==> x[j] == '-') && (l[j] == ' ' <==> x[j] == ' ')
      ensures (InTime(l[j]) <==> InTime(x[j])) && (IsWord(l[j]) <==> IsWord(x[j]))
    {
      LowerMarks(x[j]);
    }
    SameDate(x, l, k);
  }

  lemma SameDate(x: string, l: string, k: nat)
    requires |l| == |x|
    requires forall j :: 0 <= j < |x| ==> (IsDigit(l[j]) <==> IsDigit(x[j])) && (l[j] == '-' <==> x[j] == '-')
    ensures DateAt(l, k) <==> DateAt(x, k)
  {
    hide IsDigit;
  }

  /** The date at `k` is the one that is unfinished. */
  predicate OpenedAt(front: string, k: nat) {
    k < |front| && OpenDate(front, k) && !Unfinished(front[..k])
  }

  lemma UnfinishedIs(front: string)
    ensures Unfinished(front) <==> exists k: nat :: OpenedAt(front, k)
  {
    if Unfinished(front) {
      var k :| 0 <= k < |front| && OpenDate(front, k) && !Unfinished(front[..k]);
      assert OpenedAt(front, k);
    }
  }

  lemma {:induction false} UnfinishedLower(x: string)
    ensures Unfinished(ToLower(x)) <==> Unfinished(x)
    decreases |x|
  {
    var l := ToLower(x);
    forall k: nat ensures OpenedAt(l, k) <==> OpenedAt(x, k) {
      if k < |x| {
        OpenLowers(x, k);
        assert l[..k] == ToLower(x[..k]);
        UnfinishedLower(x[..k]);
      }
    }
    hide Unfinished, OpenedAt, ToLower;
    UnfinishedIs(x);
    UnfinishedIs(l);
  }

  lemma OpenAfterSpace(sp: string, x: string, k: nat)
    requires AllSpace(sp)
    ensures OpenDate(sp + x, |sp| + k) <==> OpenDate(x, k)
  {
    if k + 11 <= |x| {
      DateMovesOn(sp, x, k);
      TimesMoveOn(sp, x, k + 11);
      EdgeMovesOn(sp, x, k);
      hide DateAt, AllSpace, InTime, WordBefore;
      Joint(sp, x);
      assert (sp + x)[|sp| + (k + 10)] == x[k + 10];
    }
  }

  lemma TimesMoveOn(a: string, x: string, from: nat)
    requires from <= |x|
    ensures (forall j :: |a| + from <= j < |a + x| ==> InTime((a + x)[j])) <==>
      forall j :: from <= j < |x| ==> InTime(x[j])
  {
    hide InTime;
    var s, n := a + x, |a|;
    Joint(a, x);
    if forall j :: n + from <= j < |s| ==> InTime(s[j]) {
      forall j | from <= j < |x| ensures InTime(x[j]) { assert s[n + j] == x[j]; }
    }
    if forall j :: from <= j < |x| ==> InTime(x[j]) {
      forall j | n + from <= j < |s| ensures InTime(s[j]) { assert s[n + (j - n)] == x[j - n]; }
    }
  }

  lemma EdgeMovesOn(sp: string, x: string, k: nat)
    requires AllSpace(sp) && k <= |x|
    ensures WordBefore(sp + x, |sp| + k) <==> WordBefore(x, k)
  {
    Joint(sp, x);
    var s, n := sp + x, |sp|;
    if k > 0 {
      assert s[n + (k - 1)] == x[k - 1];
    } else if n > 0 {
      assert s[n - 1] == sp[n - 1] && IsSpace(sp[n - 1]);
    }
  }

  lemma DateMovesOn(a: string, x: string, k: nat)
    requires k + 10 <= |x|
    ensures DateAt(a + x, |a| + k) <==> DateAt(x, k)
  {
    DateJoins(a, x, k);
    var s, n := a + x, |a|;
    Joint(a, x);
    if DateAt(s, n + k) {
      hide IsDigit;
      assert s[n + (k + 4)] == x[k + 4] && s[n + (k + 7)] == x[k + 7];
      forall j | k <= j < k + 4 || k + 5 <= j < k + 7 || k + 8 <= j < k + 10 ensures IsDigit(x[j]) {
        assert s[n + j] == x[j];
      }
    }
  }

  lemma {:induction false} UnfinishedAfterSpace(sp: string, x: string)
    requires AllSpace(sp)
    ensures Unfinished(sp + x) <==> Unfinished(x)
    decreases |x|
  {
    var s, n := sp + x, |sp|;
    forall k: nat ensures OpenedAt(s, n + k) <==> OpenedAt(x, k) {
      if k < |x| {
        OpenAfterSpace(sp, x, k);
        assert s[..n + k] == sp + x[..k];
        UnfinishedAfterSpace(sp, x[..k]);
      }
    }
    forall k: nat | k < n ensures !OpenedAt(s, k) { assert s[k] == sp[k] && IsSpace(sp[k]) && !IsDigit(s[k]); }
    hide Unfinished, OpenedAt;
    UnfinishedIs(s);
    UnfinishedIs(x);
    if k: nat :| OpenedAt(s, k) { assert OpenedAt(x, k - n); }
  }

  lemma UnfinishedClean(front: string)
    ensures Unfinished(ToLower(TrimLeft(front))) <==> Unfinished(front)
  {
    var sp := TrimmedFront(front);
    hide Unfinished, TrimLeft, ToLower;
    UnfinishedAfterSpace(sp, TrimLeft(front));
    UnfinishedLower(TrimLeft(front));
  }

  lemma StampIsLower(t: string)
    requires IsIsoStamp(t)
    ensures t != "" && ToLower(t) == t && !IsSpace(t[0]) && !IsSpace(t[|t| - 1])
  {
    DateChars(t, 0);
    forall k | 0 <= k < |t| ensures NotUpper(t[k]) { }
    LowerFixed(t);
  }

  lemma LowerHasNoUpper(s: string)
    ensures NoUpper(ToLower(s))
  {
  }

  /** Lines that differ only in a date, a space and a time, at word boundaries, have the same normal form, with `<time>`
      in its place, after any text that is not unfinished. */
  lemma IsoTimesErased(front: string, t: string, u: string, rest: string) returns (p: string, q: string)
    requires IsIsoStamp(t) && IsIsoStamp(u) && Around(front, rest) && !Unfinished(front)
    ensures Normalize(front + t + rest) == Normalize(front + u + rest) == p + "<time>" + q
  {
    hide *;
    StampIsLower(t);
    StampIsLower(u);
    Stages(front + t + rest);
    Stages(front + u + rest);
    CleanJoins(front, t, rest);
    CleanJoins(front, u, rest);
    AroundClean(front, rest);
    UnfinishedClean(front);
    LowerHasNoUpper(TrimLeft(front));
    p, q := DatesErased(ToLower(TrimLeft(front)), t, u, ToLower(TrimRight(rest)));
  }
  // ---- After an unfinished text ----

  lemma SampleStamps()
    ensures IsIsoStamp("2026-06-15 11:00:00") && IsIsoStamp("2026-06-15 11:00:00" + ".5")
    ensures forall k :: 10 <= k < 19 ==> "2026-06-15 11:00:00"[k] != '-'
  {
  }

  lemma FractionMasked(e: string)
    ensures ReplaceAll(SPACES, EraseNumbers(e + ".5"), " ") == ReplaceAll(SPACES, EraseNumbers(e), " ") + ".<num>"
  {
    HexThenNumber(e);
    HexThenNumber(e + ".5");
    MapWordsConcat(e, ".5", Mask);
    FractionWord();
    var masked := MapWords(e, Mask);
    SpacesIsCollapse(masked, 0);
    SpacesIsCollapse(masked + ".<num>", 0);
    assert masked[0..] == masked && (masked + ".<num>")[0..] == masked + ".<num>";
    CollapseJoins(masked, ".<num>");
  }

  lemma FractionWord()
    ensures MapWords(".5", Mask) == ".<num>" && Collapse(".<num>") == ".<num>"
  {
    var word := "5";
    assert ".5" == "." + word && Mask(word) == "<num>" by { assert IsDigit(word[0]) && AllDigits(word); }
    AllWordChars(word);
    OneWord(word, Mask, IsHexWord);
    MapWordsConcat(".", word, Mask);
    assert MapWords(".", Mask) == ".";
    assert ".<num>" == ['.'] + (['<'] + (['n'] + (['u'] + (['m'] + (['>'] + "")))));
    CollapseOne('>', "");
    CollapseOne('m', ['>'] + "");
    CollapseOne('u', ['m'] + (['>'] + ""));
    CollapseOne('n', ['u'] + (['m'] + (['>'] + "")));
    CollapseOne('<', ['n'] + (['u'] + (['m'] + (['>'] + ""))));
    CollapseOne('.', ['<'] + (['n'] + (['u'] + (['m'] + (['>'] + "")))));
  }

  /** The syslog pattern does not see a fraction after a number. */
  lemma SyslogMoves(e: string, more: string, k: nat, a: nat, d: nat, b: nat)
    requires e != "" && IsWord(e[|e| - 1]) && more != "" && more[0] == '.' && k < |e|
    ensures SyslogAt(e, k, a, d, b) <==> SyslogAt(e + more, k, a, d, b)
  {
    var s := e + more;
    Joint(e, more);
    assert s[|e| + 0] == '.';
    if SyslogAt(e, k, a, d, b) {
      forall j | 0 <= j < |e| ensures s[j] == e[j] { }
    }
    if SyslogAt(s, k, a, d, b) {
      SyslogChars(s, k, a, d, b);
      assert b + 8 <= |e|;
      forall j | 0 <= j < |e| ensures s[j] == e[j] { }
    }
  }

  lemma SyslogSees(e: string, more: string, k: nat)
    requires e != "" && IsWord(e[|e| - 1]) && more != "" && more[0] == '.' && k < |e|
    ensures MatchAt(SYSLOG_TIMESTAMP, e, k) == MatchAt(SYSLOG_TIMESTAMP, e + more, k)
  {
    hide MatchAt, SyslogAt;
    if MatchAt(SYSLOG_TIMESTAMP, e, k).Some? {
      var a, d, b := SyslogSound(e, k);
      SyslogMoves(e, more, k, a, d, b);
      SyslogComplete(e + more, k, a, d, b);
    } else if MatchAt(SYSLOG_TIMESTAMP, e + more, k).Some? {
      var a, d, b := SyslogSound(e + more, k);
      SyslogMoves(e, more, k, a, d, b);
      SyslogComplete(e, k, a, d, b);
    }
  }

  lemma NoLetterNoSyslog(s: string, k: nat)
    requires k < |s| && !IsLetter(s[k])
    ensures MatchAt(SYSLOG_TIMESTAMP, s, k).None?
  {
    hide MatchAt;
    if MatchAt(SYSLOG_TIMESTAMP, s, k).Some? { var a, d, b := SyslogSound(s, k); }
  }

  lemma SyslogKeepsFraction(e: string)
    requires e != "" && IsWord(e[|e| - 1])
    ensures ReplaceAll(SYSLOG_TIMESTAMP, e + ".5", "<time>") == ReplaceAll(SYSLOG_TIMESTAMP, e, "<time>") + ".5"
  {
    var r := e + ".5";
    forall k | 0 <= k < |e| ensures MatchAt(SYSLOG_TIMESTAMP, e, k) == MatchAt(SYSLOG_TIMESTAMP, r, k) {
      SyslogSees(e, ".5", k);
    }
    Joint(e, ".5");
    assert r[|e| + 0] == '.' && r[|e| + 1] == '5';
    forall k | |e| <= k < |r| ensures MatchAt(SYSLOG_TIMESTAMP, r, k).None? { NoLetterNoSyslog(r, k); }
    hide MatchAt, ReplaceAll;
    NoneReachesPast(SYSLOG_TIMESTAMP, e, 0, |e|);
    var front := FrontAlike(SYSLOG_TIMESTAMP, e, e, r);
    CopyUntil(SYSLOG_TIMESTAMP, r, |e|, |r|, "<time>");
    assert ReplaceFrom(SYSLOG_TIMESTAMP, e, |e|, "<time>") == "" && front + "" == front;
    assert r[|e|..|r|] == ".5" && ReplaceFrom(SYSLOG_TIMESTAMP, r, |r|, "<time>") == "" && ".5" + "" == ".5";
  }

  lemma NoDashNoDate(s: string, k: nat)
    requires k < |s| && forall j :: k <= j < |s| ==> s[j] != '-'
    ensures MatchAt(ISO_TIMESTAMP, s, k).None?
  {
    hide MatchAt, IsoAt;
    IsoMatch(s, k);
    if MatchAt(ISO_TIMESTAMP, s, k).Some? { HasDash(s, k, MatchAt(ISO_TIMESTAMP, s, k).value); }
  }

  lemma HasDash(s: string, i: nat, e: nat)
    requires IsoAt(s, i, e)
    ensures i + 4 < |s| && s[i + 4] == '-'
  {
  }
  /** The scan comes to the date of an unfinished text, alike whatever date follows. */
  lemma ComesToOpen(x: string, w: string, v: string, k: nat)
    requires NoUpper(x) && OpenedAt(x, k) && Dated(w) && Dated(v)
    ensures k < |x| && Reaches(ISO_TIMESTAMP, x + w, 0, k)
    ensures forall j :: 0 <= j < k ==> MatchAt(ISO_TIMESTAMP, x + w, j) == MatchAt(ISO_TIMESTAMP, x + v, j)
  {
    assert k < |x| && OpenDate(x, k) && !Unfinished(x[..k]);
    hide *;
    var a, s, r := x[..k], x + w, x + v;
    ComesToDate(x, w, k);
    ComesToDate(x, v, k);
    ComesTo(a, s[k..]);
    forall j | 0 <= j < k ensures MatchAt(ISO_TIMESTAMP, s, j) == MatchAt(ISO_TIMESTAMP, r, j) {
      DateBefore(a, s[k..], r[k..], j);
    }
  }

  lemma NoDateAfter(x: string, w: string, j: nat)
    requires |x| + 10 <= j < |x + w| && forall i :: 10 <= i < |w| ==> w[i] != '-'
    ensures MatchAt(ISO_TIMESTAMP, x + w, j).None?
  {
    Joint(x, w);
    forall i | j <= i < |x + w| ensures (x + w)[i] != '-' { assert (x + w)[|x| + (i - |x|)] == w[i - |x|]; }
    NoDashNoDate(x + w, j);
  }

  /** There it takes in the date that follows, and copies the time. */
  lemma CopiesTime(x: string, w: string, k: nat)
    requires k < |x| && OpenDate(x, k) && Dated(w) && forall i :: 10 <= i < |w| ==> w[i] != '-'
    ensures ReplaceFrom(ISO_TIMESTAMP, x + w, k, "<time>") == "<time>" + w[10..]
  {
    assert |w| >= 11;
    hide *;
    var s, e := x + w, |x| + 10;
    TakesIn(x, w, k);
    TakenOver(s, k, e);
    forall j | e <= j < |s| ensures MatchAt(ISO_TIMESTAMP, s, j).None? { NoDateAfter(x, w, j); }
    CopyUntil(ISO_TIMESTAMP, s, e, |s|, "<time>");
    CopiesTail(ISO_TIMESTAMP, s);
    TailOf(x, w);
  }

  lemma TakenOver(s: string, k: nat, e: nat)
    requires k < e <= |s| && MatchAt(ISO_TIMESTAMP, s, k) == Some(e)
    ensures ReplaceFrom(ISO_TIMESTAMP, s, k, "<time>") == "<time>" + ReplaceFrom(ISO_TIMESTAMP, s, e, "<time>")
  {
    hide MatchAt, ReplaceFrom;
    OneStep(ISO_TIMESTAMP, s, k, "<time>");
  }

  lemma TailOf(x: string, w: string)
    requires |w| >= 10
    ensures (x + w)[|x| + 10..|x + w|] + "" == w[10..]
  {
  }

  lemma CopiesTail(p: Pattern, s: string)
    ensures ReplaceFrom(p, s, |s|, "<time>") == ""
  {
  }

  lemma FractionOn(t: string)
    requires IsIsoStamp(t)
    ensures var u := t + ".5";
      Dated(t) && Dated(u) && u[10..] == t[10..] + ".5" && IsWord(t[|t| - 1]) && |t[10..]| > 0
    ensures var u := t + ".5";
      (forall i :: 10 <= i < |t| ==> t[i] != '-') ==> forall i :: 10 <= i < |u| ==> u[i] != '-'
  {
    StampIsDated(t, ".5");
    DigitIsWord(t[|t| - 1]);
  }

  lemma LastOf(front: string, tail: string)
    requires tail != ""
    ensures var e := front + ("<time>" + tail); e != "" && e[|e| - 1] == tail[|tail| - 1]
    ensures front + ("<time>" + (tail + ".5")) == front + ("<time>" + tail) + ".5"
  {
  }

  lemma Erased(s: string)
    ensures EraseTimes(s) == ReplaceAll(SYSLOG_TIMESTAMP, ReplaceAll(ISO_TIMESTAMP, s, "<time>"), "<time>")
  {
  }

  /** So a fraction after the time is left where the time is. */
  lemma FractionLeft(x: string, t: string, k: nat) returns (e: string)
    requires NoUpper(x) && OpenedAt(x, k) && IsIsoStamp(t) && forall i :: 10 <= i < |t| ==> t[i] != '-'
    ensures EraseTimes(x + t) == e && EraseTimes(x + (t + ".5")) == e + ".5"
  {
    var u := t + ".5";
    FractionOn(t);
    assert k < |x| && OpenDate(x, k);
    assert t[10..][|t[10..]| - 1] == t[|t| - 1];
    assert x[..k] <= x + t && x[..k] <= x + u;
    hide *;
    Erased(x + t);
    Erased(x + u);
    ComesToOpen(x, t, u, k);
    CopiesTime(x, t, k);
    CopiesTime(x, u, k);
    var front := FrontAlike(ISO_TIMESTAMP, x[..k], x + t, x + u);
    var tail := t[10..];
    LastOf(front, tail);
    var erased := front + ("<time>" + tail);
    SyslogKeepsFraction(erased);
    e := ReplaceAll(SYSLOG_TIMESTAMP, erased, "<time>");
  }

  lemma UnfinishedKeepsTime(front: string)
    requires Unfinished(front)
    ensures var t := "2026-06-15 11:00:00"; Normalize(front + (t + ".5")) == Normalize(front + t) + ".<num>"
  {
    hide *;
    var t := "2026-06-15 11:00:00";
    SampleStamps();
    Stages(front + t);
    Stages(front + (t + ".5"));
    UnfinishedClean(front);
    LowerHasNoUpper(TrimLeft(front));
    var x := ToLower(TrimLeft(front));
    UnfinishedIs(x);
    var k: nat :| OpenedAt(x, k);
    var e := FractionLeft(x, t, k);
    FractionMasked(e);
    CleanLast(front, t);
    CleanLast(front, t + ".5");
  }

  lemma CleanLast(front: string, t: string)
    requires IsIsoStamp(t)
    ensures Clean(front + t) == ToLower(TrimLeft(front)) + t
  {
    StampIsLower(t);
    assert t != "";
    hide IsIsoStamp, IsSpace;
    TrimLeftJoins(front, t);
    var x := TrimLeft(front);
    LastStays(x, t);
    assert TrimSpace(front + t) == x + t;
    hide TrimSpace, TrimLeft;
    LowerJoins(x, t, "");
    assert x + t + "" == x + t && ToLower(x) + ToLower(t) + ToLower("") == ToLower(x) + ToLower(t);
  }

  lemma LastStays(x: string, t: string)
    requires t != "" && !IsSpace(t[|t| - 1])
    ensures TrimRight(x + t) == x + t
  {
    assert (x + t)[|x + t| - 1] == t[|t| - 1];
  }

  /** Whatever the two timestamps and the text after, their lines have the same normal form, if and only if the text
      before is not unfinished. */
  lemma ErasedUnlessUnfinished(front: string)
    requires EndsApart(front)
    ensures (forall t, u, rest :: IsIsoStamp(t) && IsIsoStamp(u) && Around(front, rest) ==>
               Normalize(front + t + rest) == Normalize(front + u + rest))
            <==> !Unfinished(front)
  {
    hide Normalize, IsIsoStamp, Unfinished;
    if Unfinished(front) {
      SampleStamps();
      UnfinishedKeepsTime(front);
      var t := "2026-06-15 11:00:00";
      assert IsIsoStamp(t) && IsIsoStamp(t + ".5") && Around(front, "");
      assert front + t + "" == front + t && front + (t + ".5") + "" == front + (t + ".5");
      assert Normalize(front + t + "") != Normalize(front + (t + ".5") + "");
    } else {
      forall t, u, rest | IsIsoStamp(t) && IsIsoStamp(u) && Around(front, rest)
        ensures Normalize(front + t + rest) == Normalize(front + u + rest)
      {
        var p, q := IsoTimesErased(front, t, u, rest);
      }
    }
  }
}

/** Lines that differ only in the digits of their numbers have the same normal form,
    through all five rewriting stages of internal/events/fingerprint.go. */
module DigitBlindness {
  import opened Fingerprint
  import opened Numbers
  import opened Options
  import opened Regex
  import opened Strings
  import opened Words

  /** The same word, or two numbers; when `strict`, numbers of the same length. */
  predicate WordsAgree(w: string, v: string, strict: bool) {
    w == v || (AllDigits(w) && AllDigits(v) && (strict ==> |w| == |v|))
  }

  /** The same words and the same characters between them, except for the values of all-digit words. */
  predicate SameShape(s: string, t: string, strict: bool) {
    if s == "" || t == "" then s == t
    else if IsWord(s[0]) then
      && IsWord(t[0])
      && WordsAgree(s[..WordLen(s)], t[..WordLen(t)], strict)
      && SameShape(s[WordLen(s)..], t[WordLen(t)..], strict)
    else t[0] == s[0] && SameShape(s[1..], t[1..], strict)
  }

  lemma Heads(s: string, t: string, strict: bool)
    requires s != "" && SameShape(s, t, strict)
    ensures t != "" && IsWord(s[0]) == IsWord(t[0])
    ensures var m, n := HeadLen(s), HeadLen(t);
      && WordsAgree(s[..m], t[..n], strict)
      && (strict ==> m == n)
      && SameShape(s[m..], t[n..], strict)
  {
  }

  lemma {:induction false} ShapeReflexive(s: string, strict: bool)
    ensures SameShape(s, s, strict)
  {
    if s != "" {
      ShapeReflexive(s[HeadLen(s)..], strict);
    }
  }

  /** Strictly alike texts agree character by character up to digits. */
  lemma {:induction false} ShapePointwise(s: string, t: string)
    requires SameShape(s, t, true)
    ensures SameButDigits(s, t)
  {
    if s != "" {
      Heads(s, t, true);
      var n := HeadLen(s);
      ShapePointwise(s[n..], t[n..]);
      forall k | 0 <= k < |s| ensures s[k] == t[k] || (IsDigit(s[k]) && IsDigit(t[k])) {
        if k < n {
          assert s[k] == s[..n][k] && t[k] == t[..n][k];
        } else {
          assert s[k] == s[n..][k - n] && t[k] == t[n..][k - n];
        }
      }
    }
  }

  /** Dropping the same whole words from both leaves them alike. */
  lemma {:induction false} ShapeSuffix(s: string, t: string, i: nat)
    requires SameShape(s, t, true) && i <= |s| && !(WordBefore(s, i) && WordAfter(s, i))
    ensures i <= |t| && SameShape(s[i..], t[i..], true)
  {
    if i == 0 {
      assert s[0..] == s && t[0..] == t;
    } else {
      Heads(s, t, true);
      var n := HeadLen(s);
      assert n <= i;
      assert !(WordBefore(s[n..], i - n) && WordAfter(s[n..], i - n));
      ShapeSuffix(s[n..], t[n..], i - n);
      assert s[n..][i - n..] == s[i..] && t[n..][i - n..] == t[i..];
    }
  }

  lemma {:induction false} ShapeConcat(x: string, y: string, a: string, b: string)
    requires SameShape(x, y, true) && SameShape(a, b, true) && Apart(x, a) && Apart(y, b)
    ensures SameShape(x + a, y + b, true)
    decreases |x|
  {
    if x == "" {
      assert x + a == a && y + b == b;
    } else {
      Heads(x, y, true);
      var n := HeadLen(x);
      HeadConcat(x, a);
      HeadConcat(y, b);
      assert (x + a)[0] == x[0] && (y + b)[0] == y[0];
      ShapeConcat(x[n..], y[n..], a, b);
    }
  }

  // ---- The timestamp stages ----

  /** Where no match starts, a whole word or a single other character is copied. */
  lemma CopyHead(p: Pattern, s: string, i: nat, e: nat)
    requires p.Boundary? && i < |s| && !(WordBefore(s, i) && WordAfter(s, i))
    requires MatchAt(p, s, i).None? || MatchAt(p, s, i).value == i
    requires e == i + HeadLen(s[i..])
    ensures e <= |s| && !(WordBefore(s, e) && WordAfter(s, e))
    ensures ReplaceFrom(p, s, i, "<time>") == s[i..e] + ReplaceFrom(p, s, e, "<time>")
    ensures Apart(s[i..e], ReplaceFrom(p, s, e, "<time>"))
  {
    if IsWord(s[i]) {
      WordRun(s, i);
    }
    CopyUntil(p, s, i, e, "<time>");
    if e < |s| {
      ReplaceEnds(p, s, e, "<time>");
    }
  }

  lemma HeadsAlike(s: string, t: string)
    requires s != "" && SameShape(s, t, true)
    ensures var n := HeadLen(s); n <= |t| && n == HeadLen(t) && SameShape(s[..n], t[..n], true)
  {
    Heads(s, t, true);
    var n := HeadLen(s);
    var w, v := s[..n], t[..n];
    if IsWord(s[0]) {
      AllWordChars(w);
      AllWordChars(v);
    }
    assert w[HeadLen(w)..] == "" && v[HeadLen(v)..] == "";
    assert w[..HeadLen(w)] == w && v[..HeadLen(v)] == v;
  }

  /** A stage whose matches begin and end at word edges, and that cannot tell digits apart, keeps texts alike. */
  lemma {:induction false} StageKeepsShape(p: Pattern, s: string, t: string, i: nat)
    requires p.Boundary? && EndsAtBoundary(p) && BlindPattern(p)
    requires SameShape(s, t, true) && i <= |s| && !(WordBefore(s, i) && WordAfter(s, i))
    ensures i <= |t| && SameShape(ReplaceFrom(p, s, i, "<time>"), ReplaceFrom(p, t, i, "<time>"), true)
    decreases |s| - i
  {
    ShapePointwise(s, t);
    if i < |s| {
      BlindMatch(p, s, t, i);
      var m := MatchAt(p, s, i);
      if m.Some? && m.value > i {
        MatchEndsAtBoundary(p, s, i);
        StageKeepsShape(p, s, t, m.value);
        ShapeReflexive("<time>", true);
        ShapeConcat("<time>", "<time>", ReplaceFrom(p, s, m.value, "<time>"), ReplaceFrom(p, t, m.value, "<time>"));
      } else {
        CopiedHeadKeepsShape(p, s, t, i);
      }
    }
  }

  lemma {:induction false} CopiedHeadKeepsShape(p: Pattern, s: string, t: string, i: nat)
    requires p.Boundary? && EndsAtBoundary(p) && BlindPattern(p)
    requires SameShape(s, t, true) && SameButDigits(s, t) && i < |s| && !(WordBefore(s, i) && WordAfter(s, i))
    requires MatchAt(p, s, i) == MatchAt(p, t, i)
    requires MatchAt(p, s, i).None? || MatchAt(p, s, i).value == i
    ensures SameShape(ReplaceFrom(p, s, i, "<time>"), ReplaceFrom(p, t, i, "<time>"), true)
    decreases |s| - i, 0
  {
    ShapeSuffix(s, t, i);
    HeadsAlike(s[i..], t[i..]);
    var n := HeadLen(s[i..]);
    var e := i + n;
    assert s[i..][..n] == s[i..e] && t[i..][..n] == t[i..e];
    CopyHead(p, s, i, e);
    CopyHead(p, t, i, e);
    StageKeepsShape(p, s, t, e);
    ShapeConcat(s[i..e], t[i..e], ReplaceFrom(p, s, e, "<time>"), ReplaceFrom(p, t, e, "<time>"));
  }

  predicate Framed(p: Pattern) { EndsAtBoundary(p) && BlindPattern(p) }

  lemma TimeOfDayIsFramed()
    ensures Framed(TIME_OF_DAY)
  {
  }

  lemma IsoIsFramed()
    ensures Framed(ISO_TIMESTAMP)
  {
  }

  lemma SyslogIsFramed()
    ensures Framed(SYSLOG_TIMESTAMP)
  {
    TimeOfDayIsFramed();
    var tail := Plus(Space, TIME_OF_DAY);
    assert Framed(tail);
    var day := Plus(Space, OneOrTwo(Digit, tail));
    assert Framed(OneOrTwo(Digit, tail));
    assert Framed(day);
    assert Framed(One(Letter, day));
    assert Framed(One(Letter, One(Letter, day)));
    assert Framed(One(Letter, One(Letter, One(Letter, day))));
    assert SYSLOG_TIMESTAMP == Boundary(One(Letter, One(Letter, One(Letter, day))));
  }

  lemma TimesKeepShape(s: string, t: string)
    requires SameShape(s, t, true)
    ensures SameShape(EraseTimes(s), EraseTimes(t), true)
  {
    IsoIsFramed();
    SyslogIsFramed();
    StageKeepsShape(ISO_TIMESTAMP, s, t, 0);
    StageKeepsShape(SYSLOG_TIMESTAMP,
                    ReplaceAll(ISO_TIMESTAMP, s, "<time>"), ReplaceAll(ISO_TIMESTAMP, t, "<time>"), 0);
  }

  // ---- The word stages ----

  /** Numbers become the same marker, whatever their digits or lengths. */
  lemma {:induction false} MaskForgetsDigits(s: string, t: string, strict: bool)
    requires SameShape(s, t, strict)
    ensures MapWords(s, Mask) == MapWords(t, Mask)
  {
    if s != "" {
      Heads(s, t, strict);
      MaskForgetsDigits(s[HeadLen(s)..], t[HeadLen(t)..], strict);
    }
  }

  // ---- Trimming and lower-casing ----

  lemma {:induction false} TrimLeftKeepsShape(s: string, t: string, strict: bool)
    requires SameShape(s, t, strict)
    ensures SameShape(TrimLeft(s), TrimLeft(t), strict)
  {
    if s != "" && IsSpace(s[0]) {
      TrimLeftKeepsShape(s[1..], t[1..], strict);
    }
  }

  /** The last characters are the same, or both belong to words; in the first case they can be dropped. */
  lemma {:induction false} Lasts(s: string, t: string, strict: bool)
    requires s != "" && SameShape(s, t, strict)
    ensures t != "" && IsWord(s[|s| - 1]) == IsWord(t[|t| - 1])
    ensures !IsWord(s[|s| - 1]) ==> s[|s| - 1] == t[|t| - 1] && SameShape(s[..|s| - 1], t[..|t| - 1], strict)
  {
    Heads(s, t, strict);
    var m, n := HeadLen(s), HeadLen(t);
    if m < |s| {
      Lasts(s[m..], t[n..], strict);
      if !IsWord(s[|s| - 1]) {
        DropLast(s, t, strict);
      }
    }
  }

  lemma DropLast(s: string, t: string, strict: bool)
    requires s != "" && SameShape(s, t, strict) && t != ""
    requires HeadLen(s) < |s| && HeadLen(t) < |t| && !IsWord(s[|s| - 1]) && !IsWord(t[|t| - 1])
    requires SameShape(s[HeadLen(s)..][..|s| - HeadLen(s) - 1], t[HeadLen(t)..][..|t| - HeadLen(t) - 1], strict)
    ensures SameShape(s[..|s| - 1], t[..|t| - 1], strict)
  {
    var m, n := HeadLen(s), HeadLen(t);
    var x, y := s[..|s| - 1], t[..|t| - 1];
    Heads(s, t, strict);
    DropLastHead(s);
    DropLastHead(t);
    assert x[m..] == s[m..][..|s| - m - 1] && y[n..] == t[n..][..|t| - n - 1];
  }

  lemma DropLastHead(s: string)
    requires s != "" && HeadLen(s) < |s| && !IsWord(s[|s| - 1])
    ensures HeadLen(s[..|s| - 1]) == HeadLen(s) && s[..|s| - 1][..HeadLen(s)] == s[..HeadLen(s)]
  {
    var x := s[..|s| - 1];
    if IsWord(s[0]) {
      assert s == x + [s[|s| - 1]];
      WordLenConcat(x, [s[|s| - 1]]);
    }
  }

  lemma {:induction false} TrimRightKeepsShape(s: string, t: string, strict: bool)
    requires SameShape(s, t, strict)
    ensures SameShape(TrimRight(s), TrimRight(t), strict)
    decreases |s|
  {
    if s != "" {
      Lasts(s, t, strict);
      if IsSpace(s[|s| - 1]) {
        TrimRightKeepsShape(s[..|s| - 1], t[..|t| - 1], strict);
      }
    }
  }

  lemma {:induction false} LowerWordLen(s: string)
    ensures WordLen(ToLower(s)) == WordLen(s)
  {
    if s != "" {
      assert ToLower(s)[1..] == ToLower(s[1..]);
      LowerWordLen(s[1..]);
    }
  }

  lemma {:induction false} LowerKeepsShape(s: string, t: string, strict: bool)
    requires SameShape(s, t, strict)
    ensures SameShape(ToLower(s), ToLower(t), strict)
  {
    if s != "" {
      Heads(s, t, strict);
      var m, n := HeadLen(s), HeadLen(t);
      LowerKeepsShape(s[m..], t[n..], strict);
      LowerHead(s);
      LowerHead(t);
      LowerAgree(s[..m], t[..n], strict);
    }
  }

  lemma LowerHead(s: string)
    requires s != ""
    ensures var n := HeadLen(s); var r := ToLower(s);
      HeadLen(r) == n && r[..n] == ToLower(s[..n]) && r[n..] == ToLower(s[n..])
  {
    LowerWordLen(s);
  }

  lemma LowerAgree(w: string, v: string, strict: bool)
    requires WordsAgree(w, v, strict)
    ensures WordsAgree(ToLower(w), ToLower(v), strict)
  {
  }

  lemma CleanKeepsShape(s: string, t: string, strict: bool)
    requires SameShape(s, t, strict)
    ensures SameShape(Clean(s), Clean(t), strict)
  {
    TrimLeftKeepsShape(s, t, strict);
    TrimRightKeepsShape(TrimLeft(s), TrimLeft(t), strict);
    LowerKeepsShape(TrimSpace(s), TrimSpace(t), strict);
  }

  // ---- The theorems ----

  lemma LaterStagesForgetDigits(x: string, y: string, strict: bool)
    requires SameShape(x, y, strict)
    ensures EraseNumbers(x) == EraseNumbers(y)
  {
    HexThenNumber(x);
    HexThenNumber(y);
    MaskForgetsDigits(x, y, strict);
  }

  /** Position `i` lies in a maximal word made of digits. */
  ghost predicate InNumber(s: string, i: nat) {
    exists a: nat, b: nat :: IsMaximalWord(s, a, b) && a <= i < b && AllDigits(s[a..b])
  }

  /** The two lines differ only in which digit stands at positions inside all-digit words. */
  ghost predicate DifferInNumbersOnly(s: string, t: string) {
    |s| == |t| && forall i :: 0 <= i < |s| ==> s[i] == t[i] || (IsDigit(t[i]) && InNumber(s, i))
  }

  lemma NumberDigit(s: string, i: nat)
    requires InNumber(s, i)
    ensures i < |s| && IsDigit(s[i])
  {
    var a: nat, b: nat :| IsMaximalWord(s, a, b) && a <= i < b && AllDigits(s[a..b]);
    assert s[a..b][i - a] == s[i];
  }

  lemma NumberAfterHead(s: string, i: nat)
    requires s != "" && HeadLen(s) <= i && InNumber(s, i)
    ensures InNumber(s[HeadLen(s)..], i - HeadLen(s))
  {
    var n := HeadLen(s);
    var a: nat, b: nat :| IsMaximalWord(s, a, b) && a <= i < b && AllDigits(s[a..b]);
    ShiftWord(s, n, a, b);
  }

  lemma NumberInHead(s: string, i: nat)
    requires s != "" && i < HeadLen(s) && InNumber(s, i)
    ensures IsWord(s[0]) && AllDigits(s[..HeadLen(s)])
  {
    var n := HeadLen(s);
    var a: nat, b: nat :| IsMaximalWord(s, a, b) && a <= i < b && AllDigits(s[a..b]);
    assert a == 0 && b == n;
  }

  lemma {:induction false} SameWordLen(s: string, t: string)
    requires |s| == |t| && forall k :: 0 <= k < |s| ==> IsWord(s[k]) == IsWord(t[k])
    ensures WordLen(s) == WordLen(t)
  {
    if s != "" {
      SameWordLen(s[1..], t[1..]);
    }
  }

  /** Such lines have the same shape. */
  lemma {:induction false} ShapeFromPositions(s: string, t: string)
    requires DifferInNumbersOnly(s, t)
    ensures SameShape(s, t, true)
  {
    if s != "" {
      forall k | 0 <= k < |s| ensures IsWord(s[k]) == IsWord(t[k]) {
        if s[k] != t[k] { NumberDigit(s, k); }
      }
      SameWordLen(s, t);
      var n := HeadLen(s);
      forall k | 0 <= k < |s[n..]| ensures s[n..][k] == t[n..][k] || (IsDigit(t[n..][k]) && InNumber(s[n..], k)) {
        if s[n + k] != t[n + k] { NumberAfterHead(s, n + k); }
      }
      ShapeFromPositions(s[n..], t[n..]);
      HeadsAgree(s, t, n);
    }
  }

  lemma HeadsAgree(s: string, t: string, n: nat)
    requires s != "" && DifferInNumbersOnly(s, t) && n == HeadLen(s)
    ensures WordsAgree(s[..n], t[..n], true)
    ensures !IsWord(s[0]) ==> s[0] == t[0]
  {
    if k: nat :| k < n && s[k] != t[k] {
      NumberInHead(s, k);
      assert s[k] == s[..n][k];
      forall j | 0 <= j < n ensures IsDigit(t[..n][j]) { assert t[j] == t[..n][j] && s[j] == s[..n][j]; }
    } else {
      assert s[..n] == t[..n];
      assert s[0] == s[..n][0];
    }
  }

  /** Lines that differ only in the digits of their numbers have the same normal form. */
  lemma NormalizeForgetsDigits(s: string, t: string)
    requires DifferInNumbersOnly(s, t)
    ensures Normalize(s) == Normalize(t)
  {
    ShapeFromPositions(s, t);
    CleanKeepsShape(s, t, true);
    TimesKeepShape(Clean(s), Clean(t));
    LaterStagesForgetDigits(EraseTimes(Clean(s)), EraseTimes(Clean(t)), true);
  }

  /** Neither timestamp pattern matches anywhere. */
  predicate NoTimestamp(s: string) {
    forall k :: 0 <= k < |s| ==> MatchAt(ISO_TIMESTAMP, s, k).None? && MatchAt(SYSLOG_TIMESTAMP, s, k).None?
  }

  lemma NothingToErase(s: string)
    requires NoTimestamp(s)
    ensures EraseTimes(s) == s
  {
    NoMatchCopies(ISO_TIMESTAMP, s, "<time>");
    NoMatchCopies(SYSLOG_TIMESTAMP, s, "<time>");
  }

  /** A hexadecimal literal or a number as its mark, any other word as it is. */
  function Marked(w: string): string {
    if |w| > 2 && w[0] == '0' && w[1] == 'x' && (forall k :: 2 <= k < |w| ==> IsDigit(w[k]) || 'a' <= w[k] <= 'f')
    then "<hex>"
    else if forall k :: 0 <= k < |w| ==> '0' <= w[k] <= '9' then "<num>"
    else w
  }

  lemma MarkedIsMask(w: string)
    requires NoUpper(w)
    ensures Marked(w) == Mask(w)
  {
    forall k | 0 <= k < |w| ensures IsHex(w[k]) <==> IsDigit(w[k]) || 'a' <= w[k] <= 'f' { assert NotUpper(w[k]); }
  }

  lemma {:induction false} MarkedWords(s: string)
    requires NoUpper(s)
    ensures MapWords(s, Marked) == MapWords(s, Mask)
  {
    if s != "" {
      MarkedIsMask(s[..HeadLen(s)]);
      hide Marked, Mask;
      MarkedWords(s[HeadLen(s)..]);
    }
  }

  /** Where neither pattern matches, the line is trimmed and put in lower case, each maximal word that is a hexadecimal
      literal or a number replaced by its mark, and each run of blanks by one space. */
  lemma NormalizeWithoutTimes(line: string)
    requires NoTimestamp(Clean(line))
    ensures Normalize(line) == Collapse(MapWords(ToLower(TrimSpace(line)), Marked))
  {
    var s := Clean(line);
    CleanIsTight(line);
    hide NoTimestamp, Clean, EraseTimes, EraseNumbers, MapWords, Marked, Mask;
    NothingToErase(s);
    HexThenNumber(s);
    MarkedWords(s);
    var masked := MapWords(s, Mask);
    SpacesIsCollapse(masked, 0);
    assert masked[0..] == masked;
    CleanIs(line);
  }

  lemma CleanIs(line: string)
    ensures Clean(line) == ToLower(TrimSpace(line))
  {
  }

  /** Without timestamps the lengths of the numbers do not matter either. */
  lemma NormalizeForgetsNumberLengths(s: string, t: string)
    requires SameShape(s, t, false) && NoTimestamp(Clean(s)) && NoTimestamp(Clean(t))
    ensures Normalize(s) == Normalize(t)
  {
    CleanKeepsShape(s, t, false);
    NothingToErase(Clean(s));
    NothingToErase(Clean(t));
    LaterStagesForgetDigits(Clean(s), Clean(t), false);
  }
}

/** Leftmost-first regular expression matching, as Go's `regexp` does it, for the constructs the five
    fingerprint patterns use. The compiler and automata of `regexp` are not part of this model:
    a pattern is its syntax, and a match is the first success of the usual backtracking search. */
module Regex {
  import opened Numbers
  import opened Options

  /** One-character classes; `Stamp` is `[0-9:.+-Z]`, where `+-Z` is a range. */
  datatype Class = Digit | Space | HexDigit | Letter | Stamp | TimeMark | Only(c: char)

  /** A pattern read left to right: each constructor is one item, followed by the rest of the pattern. */
  datatype Pattern =
    | Accept
    | One(cls: Class, rest: Pattern)
    | Plus(cls: Class, rest: Pattern)      // greedy `+`
    | OneOrTwo(cls: Class, rest: Pattern)  // greedy `{1,2}`
    | Boundary(rest: Pattern)              // `\b`

  /** `\s`, which unlike `strings.TrimSpace` does not know the vertical tab. */
  predicate IsBlank(c: char) {
    c == ' ' || c == '\t' || c == '\n' || c == '\r' || c == '\U{0C}'
  }

  predicate IsHex(c: char) { IsDigit(c) || 'a' <= c <= 'f' || 'A' <= c <= 'F' }

  predicate IsWord(c: char) {
    IsDigit(c) || 'a' <= c <= 'z' || 'A' <= c <= 'Z' || c == '_'
  }

  predicate In(cls: Class, c: char) {
    match cls
    case Digit => IsDigit(c)
    case Space => IsBlank(c)
    case HexDigit => IsHex(c)
    case Letter => 'a' <= c <= 'z' || 'A' <= c <= 'Z'
    case Stamp => IsDigit(c) || c == ':' || c == '.' || '+' <= c <= 'Z'
    case TimeMark => c == 'T' || c == ' '
    case Only(d) => c == d
  }

  predicate WordBefore(s: string, i: nat)
    requires i <= |s|
  {
    i > 0 && IsWord(s[i - 1])
  }

  predicate WordAfter(s: string, i: nat)
    requires i <= |s|
  {
    i < |s| && IsWord(s[i])
  }

  predicate AtBoundary(s: string, i: nat)
    requires i <= |s|
  {
    WordBefore(s, i) != WordAfter(s, i)
  }

  /** Where the preferred match of `p` starting exactly at `i` ends. */
  function MatchAt(p: Pattern, s: string, i: nat): (r: Option<nat>)
    requires i <= |s|
    ensures r.Some? ==> i <= r.value <= |s|
    decreases |s| - i, p
  {
    match p
    case Accept => Some(i)
    case Boundary(rest) => if AtBoundary(s, i) then MatchAt(rest, s, i) else None
    case One(cls, rest) => if i < |s| && In(cls, s[i]) then MatchAt(rest, s, i + 1) else None
    case Plus(cls, rest) =>
      if i < |s| && In(cls, s[i]) then
        var longer := MatchAt(p, s, i + 1);
        if longer.Some? then longer else MatchAt(rest, s, i + 1)
      else None
    case OneOrTwo(cls, rest) =>
      if i < |s| && In(cls, s[i]) then
        var longer := if i + 1 < |s| && In(cls, s[i + 1]) then MatchAt(rest, s, i + 2) else None;
        if longer.Some? then longer else MatchAt(rest, s, i + 1)
      else None
  }

  /** `ReplaceAllString` from position `i` on, for patterns that never match the empty text. */
  function ReplaceFrom(p: Pattern, s: string, i: nat, repl: string): string
    requires i <= |s|
    decreases |s| - i
  {
    if i == |s| then "" else
      var m := MatchAt(p, s, i);
      if m.Some? && m.value > i then repl + ReplaceFrom(p, s, m.value, repl)
      else [s[i]] + ReplaceFrom(p, s, i + 1, repl)
  }

  function ReplaceAll(p: Pattern, s: string, repl: string): string {
    ReplaceFrom(p, s, 0, repl)
  }

  // ---- What every replacement keeps ----

  /** Each character of the result comes from the text or from the replacement. */
  lemma {:induction false} ReplaceKeeps(p: Pattern, s: string, i: nat, repl: string, ok: char -> bool)
    requires i <= |s|
    requires forall k :: i <= k < |s| ==> ok(s[k])
    requires forall k :: 0 <= k < |repl| ==> ok(repl[k])
    ensures forall k :: 0 <= k < |ReplaceFrom(p, s, i, repl)| ==> ok(ReplaceFrom(p, s, i, repl)[k])
    decreases |s| - i
  {
    if i < |s| {
      var m := MatchAt(p, s, i);
      ReplaceKeeps(p, s, if m.Some? && m.value > i then m.value else i + 1, repl, ok);
    }
  }

  lemma Assoc(c: char, x: string, y: string)
    ensures ([c] + x) + y == [c] + (x + y)
  {
  }

  /** A stretch in which no match starts is copied. */
  lemma {:induction false} CopyUntil(p: Pattern, s: string, i: nat, e: nat, repl: string)
    requires i <= e <= |s|
    requires forall k :: i <= k < e ==> MatchAt(p, s, k).None? || MatchAt(p, s, k).value == k
    ensures ReplaceFrom(p, s, i, repl) == s[i..e] + ReplaceFrom(p, s, e, repl)
    decreases e - i
  {
    if i < e {
      CopyUntil(p, s, i + 1, e, repl);
      assert s[i..e] == [s[i]] + s[i + 1..e];
      Assoc(s[i], s[i + 1..e], ReplaceFrom(p, s, e, repl));
    }
  }

  /** The result ends in the text's last character or in the replacement's, and so for its beginning. */
  lemma {:induction false} ReplaceEnds(p: Pattern, s: string, i: nat, repl: string)
    requires i < |s| && repl != ""
    ensures var r := ReplaceFrom(p, s, i, repl);
      && r != ""
      && (r[0] == repl[0] || (r[0] == s[i] && (MatchAt(p, s, i).None? || MatchAt(p, s, i).value == i)))
      && (r[|r| - 1] == repl[|repl| - 1] || r[|r| - 1] == s[|s| - 1])
    decreases |s| - i
  {
    var m := MatchAt(p, s, i);
    var next := if m.Some? && m.value > i then m.value else i + 1;
    if next < |s| {
      ReplaceEnds(p, s, next, repl);
    }
  }

  /** Every success of `p` is at a word boundary. */
  predicate EndsAtBoundary(p: Pattern) {
    match p
    case Accept => false
    case Boundary(rest) => rest.Accept? || EndsAtBoundary(rest)
    case One(_, rest) => EndsAtBoundary(rest)
    case Plus(_, rest) => EndsAtBoundary(rest)
    case OneOrTwo(_, rest) => EndsAtBoundary(rest)
  }

  lemma {:induction false} MatchEndsAtBoundary(p: Pattern, s: string, i: nat)
    requires i <= |s| && EndsAtBoundary(p) && MatchAt(p, s, i).Some?
    ensures AtBoundary(s, MatchAt(p, s, i).value)
    decreases |s| - i, p
  {
    match p
    case Boundary(rest) => if !rest.Accept? { MatchEndsAtBoundary(rest, s, i); }
    case One(cls, rest) => MatchEndsAtBoundary(rest, s, i + 1);
    case Plus(cls, rest) =>
      if MatchAt(p, s, i + 1).Some? { MatchEndsAtBoundary(p, s, i + 1); } else { MatchEndsAtBoundary(rest, s, i + 1); }
    case OneOrTwo(cls, rest) =>
      if i + 1 < |s| && In(cls, s[i + 1]) && MatchAt(rest, s, i + 2).Some? {
        MatchEndsAtBoundary(rest, s, i + 2);
      } else {
        MatchEndsAtBoundary(rest, s, i + 1);
      }
  }

  /** A class that cannot tell one decimal digit from another. */
  predicate DigitBlind(cls: Class) {
    cls.Only? ==> !IsDigit(cls.c)
  }

  predicate BlindPattern(p: Pattern) {
    match p
    case Accept => true
    case Boundary(rest) => BlindPattern(rest)
    case One(cls, rest) => DigitBlind(cls) && BlindPattern(rest)
    case Plus(cls, rest) => DigitBlind(cls) && BlindPattern(rest)
    case OneOrTwo(cls, rest) => DigitBlind(cls) && BlindPattern(rest)
  }

  /** The same text up to the values of decimal digits. */
  predicate SameButDigits(s: string, t: string) {
    |s| == |t| && forall i :: 0 <= i < |s| ==> s[i] == t[i] || (IsDigit(s[i]) && IsDigit(t[i]))
  }

  /** A digit-blind pattern matches the same stretches of both texts. */
  lemma {:induction false} BlindMatch(p: Pattern, s: string, t: string, i: nat)
    requires i <= |s| && SameButDigits(s, t) && BlindPattern(p)
    ensures MatchAt(p, s, i) == MatchAt(p, t, i)
    decreases |s| - i, p
  {
    match p
    case Accept =>
    case Boundary(rest) => BlindMatch(rest, s, t, i);
    case One(cls, rest) => if i < |s| { BlindMatch(rest, s, t, i + 1); }
    case Plus(cls, rest) => if i < |s| { BlindMatch(p, s, t, i + 1); BlindMatch(rest, s, t, i + 1); }
    case OneOrTwo(cls, rest) =>
      if i < |s| {
        BlindMatch(rest, s, t, i + 1);
        if i + 1 < |s| { BlindMatch(rest, s, t, i + 2); }
      }
  }
}

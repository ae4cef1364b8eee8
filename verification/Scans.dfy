/** A replacement scans the text from left to right: what it does with a front it does whatever follows, as long as no
    match reaches past it, and what it does with the rest does not depend on the front. */
module Scans {
  import opened Options
  import opened Regex

  /** Where the scan goes on after position `i`. */
  function StepFrom(p: Pattern, s: string, i: nat): (next: nat)
    requires i < |s|
    ensures i < next <= |s|
  {
    var m := MatchAt(p, s, i);
    if m.Some? && m.value > i then m.value else i + 1
  }

  /** The scan from `i` comes to `n`, rather than over it. */
  predicate Reaches(p: Pattern, s: string, i: nat, n: nat)
    requires i <= n <= |s|
    decreases n - i
  {
    i == n || (StepFrom(p, s, i) <= n && Reaches(p, s, StepFrom(p, s, i), n))
  }

  lemma {:induction false} NoneReachesPast(p: Pattern, s: string, i: nat, n: nat)
    requires i <= n <= |s|
    requires forall k :: i <= k < n && MatchAt(p, s, k).Some? ==> MatchAt(p, s, k).value <= n
    ensures Reaches(p, s, i, n)
    decreases n - i
  {
    if i < n { NoneReachesPast(p, s, StepFrom(p, s, i), n); }
  }

  function HeadAt(p: Pattern, s: string, i: nat, repl: string): string
    requires i < |s|
  {
    var m := MatchAt(p, s, i);
    if m.Some? && m.value > i then repl else [s[i]]
  }

  lemma OneStep(p: Pattern, s: string, i: nat, repl: string)
    requires i < |s|
    ensures ReplaceFrom(p, s, i, repl) == HeadAt(p, s, i, repl) + ReplaceFrom(p, s, StepFrom(p, s, i), repl)
  {
  }

  /** What the scan from `i` writes until it comes to `n`. */
  function Front(p: Pattern, s: string, i: nat, n: nat, repl: string): string
    requires i <= n <= |s| && Reaches(p, s, i, n)
    decreases n - i
  {
    if i == n then "" else HeadAt(p, s, i, repl) + Front(p, s, StepFrom(p, s, i), n, repl)
  }

  lemma {:induction false} FrontThenRest(p: Pattern, s: string, i: nat, n: nat, repl: string)
    requires i <= n <= |s| && Reaches(p, s, i, n)
    ensures ReplaceFrom(p, s, i, repl) == Front(p, s, i, n, repl) + ReplaceFrom(p, s, n, repl)
    decreases n - i
  {
    if i == n {
      assert "" + ReplaceFrom(p, s, n, repl) == ReplaceFrom(p, s, n, repl);
    } else {
      var next := StepFrom(p, s, i);
      FrontThenRest(p, s, next, n, repl);
      OneStep(p, s, i, repl);
      hide ReplaceFrom, HeadAt, StepFrom, MatchAt;
      Heads(HeadAt(p, s, i, repl), Front(p, s, next, n, repl), ReplaceFrom(p, s, n, repl));
    }
  }

  /** The same front is rewritten in the same way. */
  lemma {:induction false} SameFront(p: Pattern, s: string, r: string, i: nat, n: nat, repl: string)
    requires i <= n <= |s| && n <= |r| && s[..n] == r[..n] && Reaches(p, s, i, n)
    requires forall k :: i <= k < n ==> MatchAt(p, s, k) == MatchAt(p, r, k)
    ensures Reaches(p, r, i, n) && Front(p, r, i, n, repl) == Front(p, s, i, n, repl)
    decreases n - i
  {
    if i < n {
      assert s[i] == s[..n][i] == r[..n][i];
      assert StepFrom(p, r, i) == StepFrom(p, s, i) && HeadAt(p, r, i, repl) == HeadAt(p, s, i, repl);
      hide StepFrom, HeadAt;
      SameFront(p, s, r, StepFrom(p, s, i), n, repl);
    }
  }

  /** It ends as the text's front or the replacement does. */
  lemma {:induction false} FrontEnds(p: Pattern, s: string, i: nat, n: nat, repl: string)
    requires i < n <= |s| && Reaches(p, s, i, n) && repl != ""
    ensures var front := Front(p, s, i, n, repl);
      front != "" && (front[|front| - 1] == repl[|repl| - 1] || front[|front| - 1] == s[n - 1])
    decreases n - i
  {
    var next := StepFrom(p, s, i);
    if next < n {
      FrontEnds(p, s, next, n, repl);
    } else {
      assert HeadAt(p, s, i, repl) + "" == HeadAt(p, s, i, repl);
    }
  }

  lemma Heads(a: string, b: string, c: string)
    ensures a + (b + c) == (a + b) + c
  {
  }

  /** Two texts with the same rest, after a word character or after none alike. */
  predicate SameRest(s: string, n: nat, r: string, m: nat) {
    n <= |s| && m <= |r| && s[n..] == r[m..] && WordBefore(s, n) == WordBefore(r, m)
  }

  lemma SameRestOn(s: string, n: nat, r: string, m: nat, k: nat)
    requires SameRest(s, n, r, m) && k <= |s| - n
    ensures m + k <= |r| && SameRest(s, n + k, r, m + k)
    ensures n + k < |s| ==> m + k < |r| && s[n + k] == r[m + k]
    ensures AtBoundary(s, n + k) == AtBoundary(r, m + k) && |s| - n == |r| - m
  {
    assert s[n + k..] == s[n..][k..] && r[m + k..] == r[m..][k..];
    if n + k < |s| { assert s[n + k] == s[n..][k] && r[m + k] == r[m..][k]; }
    if k > 0 { assert s[n + k - 1] == s[n..][k - 1] && r[m + k - 1] == r[m..][k - 1]; }
  }

  predicate Shifted(a: Option<nat>, n: nat, b: Option<nat>, m: nat) {
    (a.Some? <==> b.Some?) && (a.Some? ==> a.value - n == b.value - m)
  }

  /** The same rest is matched in the same way. */
  lemma {:induction false} MatchShifts(p: Pattern, s: string, n: nat, r: string, m: nat)
    requires SameRest(s, n, r, m)
    ensures Shifted(MatchAt(p, s, n), n, MatchAt(p, r, m), m)
    decreases |s| - n, p
  {
    SameRestOn(s, n, r, m, 0);
    hide SameRest, AtBoundary, In;
    if n < |s| { SameRestOn(s, n, r, m, 1); }
    if n + 1 < |s| { SameRestOn(s, n, r, m, 2); }
    match p
    case Accept =>
    case Boundary(rest) => MatchShifts(rest, s, n, r, m);
    case One(cls, rest) => if n < |s| { MatchShifts(rest, s, n + 1, r, m + 1); }
    case Plus(cls, rest) =>
      if n < |s| {
        MatchShifts(p, s, n + 1, r, m + 1);
        MatchShifts(rest, s, n + 1, r, m + 1);
        PlusShifts(cls, rest, s, n, r, m);
      }
    case OneOrTwo(cls, rest) =>
      if n < |s| {
        MatchShifts(rest, s, n + 1, r, m + 1);
        if n + 1 < |s| { MatchShifts(rest, s, n + 2, r, m + 2); }
        OneOrTwoShifts(cls, rest, s, n, r, m);
      }
  }

  lemma PlusShifts(cls: Class, rest: Pattern, s: string, n: nat, r: string, m: nat)
    requires n < |s| && m < |r| && s[n] == r[m]
    requires Shifted(MatchAt(Plus(cls, rest), s, n + 1), n + 1, MatchAt(Plus(cls, rest), r, m + 1), m + 1)
    requires Shifted(MatchAt(rest, s, n + 1), n + 1, MatchAt(rest, r, m + 1), m + 1)
    ensures Shifted(MatchAt(Plus(cls, rest), s, n), n, MatchAt(Plus(cls, rest), r, m), m)
  {
    hide In;
  }

  lemma OneOrTwoShifts(cls: Class, rest: Pattern, s: string, n: nat, r: string, m: nat)
    requires n < |s| && m < |r| && s[n] == r[m] && |s| - n == |r| - m
    requires Shifted(MatchAt(rest, s, n + 1), n + 1, MatchAt(rest, r, m + 1), m + 1)
    requires n + 1 < |s| ==>
      s[n + 1] == r[m + 1] && Shifted(MatchAt(rest, s, n + 2), n + 2, MatchAt(rest, r, m + 2), m + 2)
    ensures Shifted(MatchAt(OneOrTwo(cls, rest), s, n), n, MatchAt(OneOrTwo(cls, rest), r, m), m)
  {
    hide In;
  }

  lemma StepShifts(p: Pattern, s: string, n: nat, r: string, m: nat, repl: string)
    requires SameRest(s, n, r, m) && n < |s|
    ensures m < |r| && StepFrom(p, r, m) == m + (StepFrom(p, s, n) - n)
    ensures HeadAt(p, r, m, repl) == HeadAt(p, s, n, repl)
  {
    SameRestOn(s, n, r, m, 0);
    hide MatchAt, SameRest;
    MatchShifts(p, s, n, r, m);
  }

  lemma {:induction false} RestShifts(p: Pattern, s: string, n: nat, r: string, m: nat, repl: string)
    requires SameRest(s, n, r, m)
    ensures ReplaceFrom(p, s, n, repl) == ReplaceFrom(p, r, m, repl)
    decreases |s| - n
  {
    assert n <= |s|;
    hide *;
    SameRestOn(s, n, r, m, 0);
    if n < |s| {
      StepShifts(p, s, n, r, m, repl);
      OneStep(p, s, n, repl);
      OneStep(p, r, m, repl);
      var next := StepFrom(p, s, n);
      SameRestOn(s, n, r, m, next - n);
      RestShifts(p, s, next, r, m + (next - n), repl);
    } else {
      AtEnd(p, s, repl);
      AtEnd(p, r, repl);
    }
  }

  lemma AtEnd(p: Pattern, s: string, repl: string)
    ensures ReplaceFrom(p, s, |s|, repl) == ""
  {
  }
  /** A scan that does not come to `n` goes over it in one step. */
  lemma {:induction false} GoesOver(p: Pattern, s: string, i: nat, n: nat) returns (j: nat)
    requires i <= n <= |s| && !Reaches(p, s, i, n)
    ensures i <= j < n && Reaches(p, s, i, j) && StepFrom(p, s, j) > n
    decreases n - i
  {
    var next := StepFrom(p, s, i);
    if next > n { j := i; } else { j := GoesOver(p, s, next, n); }
  }

  lemma {:induction false} NotReached(p: Pattern, s: string, i: nat, j: nat, n: nat)
    requires i <= j < n <= |s| && Reaches(p, s, i, j) && StepFrom(p, s, j) > n
    ensures !Reaches(p, s, i, n)
    decreases j - i
  {
    if i < j { NotReached(p, s, StepFrom(p, s, i), j, n); }
  }
}

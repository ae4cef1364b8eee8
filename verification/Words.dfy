/** Text as maximal words and the characters between them, and what the two word patterns do to it. */
module Words {
  import opened Options
  import opened Regex

  /** The length of the word `s` starts with. */
  function WordLen(s: string): (n: nat)
    ensures n <= |s|
    ensures forall k :: 0 <= k < n ==> IsWord(s[k])
    ensures n < |s| ==> !IsWord(s[n])
  {
    if s != "" && IsWord(s[0]) then 1 + WordLen(s[1..]) else 0
  }

  /** `0x` and at least one hexadecimal digit. */
  predicate IsHexWord(w: string) {
    |w| > 2 && w[0] == '0' && w[1] == 'x' && forall k :: 2 <= k < |w| ==> IsHex(w[k])
  }

  type Rewrite = string -> string

  /** `s` with each maximal word rewritten. */
  function MapWords(s: string, f: Rewrite): string {
    if s == "" then ""
    else if IsWord(s[0]) then f(s[..WordLen(s)]) + MapWords(s[WordLen(s)..], f)
    else [s[0]] + MapWords(s[1..], f)
  }

  /** Every maximal word of `s` satisfies `ok`. */
  predicate AllWords(s: string, ok: string -> bool) {
    if s == "" then true
    else if IsWord(s[0]) then ok(s[..WordLen(s)]) && AllWords(s[WordLen(s)..], ok)
    else AllWords(s[1..], ok)
  }

  predicate IsMaximalWord(s: string, i: nat, j: nat) {
    && i < j <= |s|
    && (forall k :: i <= k < j ==> IsWord(s[k]))
    && !WordBefore(s, i) && !WordAfter(s, j)
  }

  /** `AllWords` is about exactly the maximal words. */
  lemma {:induction false} AllWordsSound(s: string, ok: string -> bool, i: nat, j: nat)
    requires AllWords(s, ok) && IsMaximalWord(s, i, j)
    ensures ok(s[i..j])
  {
    if IsWord(s[0]) {
      var n := WordLen(s);
      if i == 0 {
        assert j == n;
      } else {
        assert i > n;
        ShiftWord(s, n, i, j);
        AllWordsSound(s[n..], ok, i - n, j - n);
      }
    } else {
      ShiftWord(s, 1, i, j);
      AllWordsSound(s[1..], ok, i - 1, j - 1);
    }
  }

  lemma ShiftWord(s: string, n: nat, i: nat, j: nat)
    requires n <= i && IsMaximalWord(s, i, j) && (n == i ==> n == 0 || !IsWord(s[n - 1]))
    ensures IsMaximalWord(s[n..], i - n, j - n) && s[n..][i - n..j - n] == s[i..j]
  {
  }

  // ---- Joining texts at a word edge ----

  /** No word spans the join. */
  predicate Apart(x: string, y: string) {
    x == "" || y == "" || !IsWord(x[|x| - 1]) || !IsWord(y[0])
  }

  lemma {:induction false} WordLenConcat(x: string, y: string)
    requires x != "" && IsWord(x[0]) && Apart(x, y)
    ensures WordLen(x + y) == WordLen(x)
  {
    if |x| > 1 {
      assert (x + y)[1..] == x[1..] + y;
      if IsWord(x[1]) {
        WordLenConcat(x[1..], y);
      }
    } else {
      assert (x + y)[1..] == y;
    }
  }

  /** The first word or single character of `s`. */
  function HeadLen(s: string): (n: nat)
    requires s != ""
    ensures 0 < n <= |s|
  {
    if IsWord(s[0]) then WordLen(s) else 1
  }

  lemma HeadConcat(x: string, y: string)
    requires x != "" && Apart(x, y)
    ensures var n := HeadLen(x);
      && HeadLen(x + y) == n
      && (x + y)[..n] == x[..n] && (x + y)[n..] == x[n..] + y
      && Apart(x[n..], y)
  {
    var n := HeadLen(x);
    if IsWord(x[0]) {
      WordLenConcat(x, y);
    }
    assert (x + y)[0] == x[0];
    SliceConcat(x, y, n);
    assert n < |x| ==> x[n..][|x| - n - 1] == x[|x| - 1];
  }

  lemma SliceConcat(x: string, y: string, n: nat)
    requires n <= |x|
    ensures (x + y)[..n] == x[..n] && (x + y)[n..] == x[n..] + y
  {
  }

  lemma {:induction false} MapWordsConcat(x: string, y: string, f: Rewrite)
    requires Apart(x, y)
    ensures MapWords(x + y, f) == MapWords(x, f) + MapWords(y, f)
    decreases |x|
  {
    if x == "" {
      assert x + y == y;
    } else {
      var n := HeadLen(x);
      HeadConcat(x, y);
      MapWordsConcat(x[n..], y, f);
      var head := if IsWord(x[0]) then f(x[..n]) else [x[0]];
      assert head + (MapWords(x[n..], f) + MapWords(y, f)) == (head + MapWords(x[n..], f)) + MapWords(y, f);
    }
  }

  lemma {:induction false} AllWordsConcat(x: string, y: string, ok: string -> bool)
    requires Apart(x, y)
    ensures AllWords(x + y, ok) == (AllWords(x, ok) && AllWords(y, ok))
    decreases |x|
  {
    if x == "" {
      assert x + y == y;
    } else {
      HeadConcat(x, y);
      AllWordsConcat(x[HeadLen(x)..], y, ok);
    }
  }

  /** One word on its own. */
  lemma OneWord(w: string, f: Rewrite, ok: string -> bool)
    requires w != "" && WordLen(w) == |w|
    ensures MapWords(w, f) == f(w) && AllWords(w, ok) == ok(w)
  {
    assert w[..|w|] == w && w[|w|..] == "";
  }

  /** A rewrite that fixes each word fixes the text. */
  lemma {:induction false} MapWordsFixed(s: string, f: Rewrite, ok: string -> bool)
    requires AllWords(s, ok) && forall w :: ok(w) ==> f(w) == w
    ensures MapWords(s, f) == s
  {
    if s != "" {
      var n := if IsWord(s[0]) then WordLen(s) else 1;
      MapWordsFixed(s[n..], f, ok);
      assert s == s[..n] + s[n..];
    }
  }

  // ---- A pattern for whole words ----

  function WordEnd(s: string, i: nat): (e: nat)
    requires i <= |s|
    ensures i <= e <= |s|
  {
    i + WordLen(s[i..])
  }

  predicate StartsWord(s: string, i: nat)
    requires i < |s|
  {
    IsWord(s[i]) && !WordBefore(s, i)
  }

  lemma WordRun(s: string, i: nat)
    requires i < |s|
    ensures forall k :: i <= k < WordEnd(s, i) ==> IsWord(s[k])
    ensures !WordAfter(s, WordEnd(s, i))
    ensures IsWord(s[i]) ==> WordEnd(s, i) > i
  {
    var rest := s[i..];
    forall k | i <= k < WordEnd(s, i) ensures IsWord(s[k]) { assert s[k] == rest[k - i]; }
  }

  /** At the start of a maximal word `p` matches that word if `ok` holds of it; nowhere else. */
  predicate WordPattern(p: Pattern, ok: string -> bool, s: string) {
    forall i :: 0 <= i < |s| ==>
      MatchAt(p, s, i) == if StartsWord(s, i) && ok(s[i..WordEnd(s, i)]) then Some(WordEnd(s, i)) else None
  }

  /** Replacing by such a pattern rewrites words one at a time. */
  lemma {:induction false} ReplaceIsMapWords(p: Pattern, ok: string -> bool, s: string, i: nat, repl: string,
                                             f: Rewrite)
    requires WordPattern(p, ok, s) && i <= |s| && !(WordBefore(s, i) && WordAfter(s, i))
    requires forall w :: f(w) == if ok(w) then repl else w
    ensures ReplaceFrom(p, s, i, repl) == MapWords(s[i..], f)
    decreases |s| - i
  {
    if i < |s| {
      var e := if IsWord(s[i]) then WordEnd(s, i) else i + 1;
      WordRun(s, i);
      ReplaceIsMapWords(p, ok, s, e, repl, f);
      ReplaceHead(p, ok, s, i, e, repl);
      if IsWord(s[i]) {
        MapFirstWord(s, i, f);
      } else {
        MapFirstChar(s, i, f);
      }
    }
  }

  lemma ReplaceHead(p: Pattern, ok: string -> bool, s: string, i: nat, e: nat, repl: string)
    requires WordPattern(p, ok, s) && i < |s| && !(WordBefore(s, i) && WordAfter(s, i))
    requires e == if IsWord(s[i]) then WordEnd(s, i) else i + 1
    ensures i < e <= |s|
    ensures ReplaceFrom(p, s, i, repl)
      == (if IsWord(s[i]) && ok(s[i..e]) then repl else s[i..e]) + ReplaceFrom(p, s, e, repl)
  {
    WordRun(s, i);
    if !(IsWord(s[i]) && ok(s[i..e])) {
      CopyUntil(p, s, i, e, repl);
    }
  }

  lemma MapFirstChar(s: string, i: nat, f: Rewrite)
    requires i < |s| && !IsWord(s[i])
    ensures MapWords(s[i..], f) == [s[i]] + MapWords(s[i + 1..], f)
  {
    assert s[i..][1..] == s[i + 1..];
  }

  lemma MapFirstWord(s: string, i: nat, f: Rewrite)
    requires i < |s| && IsWord(s[i])
    ensures MapWords(s[i..], f) == f(s[i..WordEnd(s, i)]) + MapWords(s[WordEnd(s, i)..], f)
  {
    var n := WordLen(s[i..]);
    assert s[i..][..n] == s[i..i + n] && s[i..][n..] == s[i + n..];
  }
}

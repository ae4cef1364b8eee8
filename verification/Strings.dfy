/** The few operations of Go's `strings` package that the modelled code uses.
    A Go string is a sequence of bytes; here it is a `string` with one `char` per byte. */
module Strings {

  /** The ASCII characters `strings.TrimSpace` removes. */
  predicate IsSpace(c: char) {
    c == ' ' || c == '\t' || c == '\n' || c == '\r' || c == '\U{0B}' || c == '\U{0C}'
  }

  function TrimLeft(s: string): (r: string)
    ensures |r| <= |s| && r == s[|s| - |r|..]
    ensures r != "" ==> !IsSpace(r[0])
  {
    if s != "" && IsSpace(s[0]) then TrimLeft(s[1..]) else s
  }

  function TrimRight(s: string): (r: string)
    ensures r <= s
    ensures r != "" ==> !IsSpace(r[|r| - 1])
  {
    if s != "" && IsSpace(s[|s| - 1]) then TrimRight(s[..|s| - 1]) else s
  }

  function TrimSpace(s: string): (r: string)
    ensures r != "" ==> !IsSpace(r[0]) && !IsSpace(r[|r| - 1])
  {
    var left := TrimLeft(s);
    var r := TrimRight(left);
    assert r != "" ==> r[0] == left[0];
    r
  }

  predicate AllSpace(s: string) {
    forall i :: 0 <= i < |s| ==> IsSpace(s[i])
  }

  /** What is trimmed away is space, and what is left neither begins nor ends with any. */
  lemma TrimSpaceIs(s: string) returns (front: string, back: string)
    ensures s == front + TrimSpace(s) + back && AllSpace(front) && AllSpace(back)
    ensures TrimSpace(s) != "" ==> !IsSpace(TrimSpace(s)[0]) && !IsSpace(TrimSpace(s)[|TrimSpace(s)| - 1])
  {
    front := TrimmedFront(s);
    hide TrimLeft, TrimRight, AllSpace, IsSpace;
    back := TrimmedRight(TrimLeft(s));
    assert TrimSpace(s) == TrimRight(TrimLeft(s));
    assert front + (TrimSpace(s) + back) == front + TrimSpace(s) + back;
  }

  lemma {:induction false} TrimLeftJoins(a: string, b: string)
    requires b != "" && !IsSpace(b[0])
    ensures TrimLeft(a + b) == TrimLeft(a) + b
    decreases |a|
  {
    if a == "" {
      assert a + b == b;
    } else if IsSpace(a[0]) {
      assert (a + b)[1..] == a[1..] + b;
      TrimLeftJoins(a[1..], b);
    }
  }

  lemma {:induction false} TrimRightJoins(a: string, b: string)
    requires a != "" && !IsSpace(a[|a| - 1])
    ensures TrimRight(a + b) == a + TrimRight(b)
    decreases |b|
  {
    if b == "" {
      assert a + b == a;
    } else if IsSpace(b[|b| - 1]) {
      assert (a + b)[..|a + b| - 1] == a + b[..|b| - 1];
      TrimRightJoins(a, b[..|b| - 1]);
    }
  }

  /** Space around a text that neither begins nor ends with any is what is trimmed away. */
  lemma TrimSpaceAround(front: string, t: string, back: string)
    requires AllSpace(front) && AllSpace(back) && t != "" && !IsSpace(t[0]) && !IsSpace(t[|t| - 1])
    ensures TrimSpace(front + t + back) == t
  {
    assert front + t + back == front + (t + back) && (t + back)[0] == t[0];
    TrimLeftJoins(front, t + back);
    TrimRightJoins(t, back);
    OnlySpace(front);
    OnlySpace(back);
    assert TrimSpace(front + t + back) == TrimRight(TrimLeft(front) + (t + back));
    hide TrimSpace, TrimLeft, TrimRight, IsSpace;
    assert TrimLeft(front) + (t + back) == t + back && t + TrimRight(back) == t;
  }

  lemma {:induction false} OnlySpace(s: string)
    requires AllSpace(s)
    ensures TrimLeft(s) == "" && TrimRight(s) == ""
  {
    if s != "" {
      assert IsSpace(s[0]) && IsSpace(s[|s| - 1]);
      OnlySpace(s[1..]);
      OnlySpace(s[..|s| - 1]);
    }
  }

  /** Space is the blank and the characters from tab to carriage return. */
  lemma SpaceIs(c: char)
    ensures IsSpace(c) <==> c == ' ' || '\t' <= c <= '\r'
  {
  }

  lemma {:induction false} TrimmedLeft(s: string)
    ensures forall i :: 0 <= i < |s| - |TrimLeft(s)| ==> IsSpace(s[i])
  {
    if s != "" && IsSpace(s[0]) { TrimmedLeft(s[1..]); }
  }

  lemma TrimmedFront(s: string) returns (front: string)
    ensures s == front + TrimLeft(s) && AllSpace(front)
  {
    hide TrimLeft, IsSpace;
    front := s[..|s| - |TrimLeft(s)|];
    TrimmedLeft(s);
  }

  lemma {:induction false} TrimmedRight(s: string) returns (back: string)
    ensures s == TrimRight(s) + back && AllSpace(back)
    decreases |s|
  {
    back := "";
    if s != "" && IsSpace(s[|s| - 1]) {
      back := TrimmedRight(s[..|s| - 1]);
      back := back + [s[|s| - 1]];
    }
  }

  /** Text without surrounding space is left alone. */
  lemma TrimSpaceFixed(s: string)
    requires s != "" ==> !IsSpace(s[0]) && !IsSpace(s[|s| - 1])
    ensures TrimSpace(s) == s
  {
  }

  /** The position of the first such character, or the length. */
  function CutAt(s: string, c: char): (n: nat)
    ensures n <= |s|
    ensures c !in s[..n] && (n < |s| ==> s[n] == c)
  {
    if s == "" || s[0] == c then 0 else 1 + CutAt(s[1..], c)
  }

  lemma {:induction false} CutAfter(front: string, c: char, rest: string)
    requires c !in front
    ensures CutAt(front + [c] + rest, c) == |front|
  {
    if front != "" {
      assert (front + [c] + rest)[1..] == front[1..] + [c] + rest;
      CutAfter(front[1..], c, rest);
    }
  }

  function LowerChar(c: char): char {
    if 'A' <= c <= 'Z' then (c as int + 32) as char else c
  }

  /** `strings.ToLower`, on ASCII letters. */
  function ToLower(s: string): (r: string)
    ensures |r| == |s|
    ensures forall i :: 0 <= i < |s| ==> r[i] == LowerChar(s[i])
  {
    seq(|s|, i requires 0 <= i < |s| => LowerChar(s[i]))
  }

  /** Byte order, the order of SQLite's default collation. */
  predicate Less(a: string, b: string) {
    |b| > 0 && (|a| == 0 || a[0] < b[0] || (a[0] == b[0] && Less(a[1..], b[1..])))
  }

  lemma {:induction false} LessTotal(a: string, b: string)
    ensures Less(a, b) || a == b || Less(b, a)
    ensures !(Less(a, b) && Less(b, a))
    ensures !Less(a, a)
  {
    if |a| > 0 {
      LessTotal(a[1..], a[1..]);
      if |b| > 0 && a[0] == b[0] {
        LessTotal(a[1..], b[1..]);
        assert a == [a[0]] + a[1..] && b == [b[0]] + b[1..];
      }
    }
  }

  lemma {:induction false} LessTransitive(a: string, b: string, c: string)
    requires !Less(b, a) && !Less(c, b)
    ensures !Less(c, a)
    ensures Less(a, b) || Less(b, c) ==> Less(a, c)
  {
    LessTotal(a, b);
    LessTotal(b, c);
    if |a| > 0 && |b| > 0 && |c| > 0 && a[0] == b[0] == c[0] {
      LessTransitive(a[1..], b[1..], c[1..]);
    }
    LessTotal(a, c);
  }

  /** A common prefix does not affect the order. */
  lemma {:induction false} LessPrefix(p: string, a: string, b: string)
    ensures Less(p + a, p + b) == Less(a, b)
  {
    if p == "" {
      assert p + a == a && p + b == b;
    } else {
      assert (p + a)[1..] == p[1..] + a && (p + b)[1..] == p[1..] + b;
      LessPrefix(p[1..], a, b);
    }
  }

  /** Two texts that differ at a position, and agree before it, compare as their characters there. */
  lemma {:induction false} LessAt(a: string, b: string, k: nat)
    requires k < |a| && k < |b| && a[..k] == b[..k] && a[k] != b[k]
    ensures Less(a, b) == (a[k] < b[k])
  {
    assert a == a[..k] + a[k..] && b == b[..k] + b[k..];
    LessPrefix(a[..k], a[k..], b[k..]);
  }
}

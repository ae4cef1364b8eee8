/** Putting things in order one by one: what `ORDER BY` and the sorts of Go's library leave, whatever they do inside. */
module Ordering {

  /** `before` is irreflexive, asymmetric, and "not before" is transitive. */
  ghost predicate WeakOrder<T(!new)>(before: (T, T) -> bool) {
    && (forall a, b :: before(a, b) ==> !before(b, a))
    && (forall a, b, c :: !before(b, a) && !before(c, b) ==> !before(c, a))
  }

  /** Never one after another that it comes before. */
  predicate InOrder<T>(before: (T, T) -> bool, s: seq<T>) {
    forall i, j :: 0 <= i < j < |s| ==> !before(s[j], s[i])
  }

  /** Where one more goes: after all that it does not come before. */
  function Place<T>(before: (T, T) -> bool, s: seq<T>, x: T): (p: nat)
    ensures p <= |s|
    ensures forall i :: p <= i < |s| ==> before(x, s[i])
    ensures p > 0 ==> !before(x, s[p - 1])
  {
    if s == [] || !before(x, s[|s| - 1]) then |s| else Place(before, s[..|s| - 1], x)
  }

  function InsertAt<T>(s: seq<T>, p: nat, x: T): seq<T>
    requires p <= |s|
  {
    s[..p] + [x] + s[p..]
  }

  lemma InsertedAt<T>(s: seq<T>, p: nat, x: T, i: nat)
    requires p <= |s| && i <= |s|
    ensures InsertAt(s, p, x)[i] == if i < p then s[i] else if i == p then x else s[i - 1]
  {
  }

  /** All that comes before the place is not after what is put there. */
  lemma PlaceSplits<T(!new)>(before: (T, T) -> bool, s: seq<T>, x: T, i: nat)
    requires WeakOrder(before) && InOrder(before, s) && i < |s|
    ensures if i < Place(before, s, x) then !before(x, s[i]) else !before(s[i], x)
  {
    var p := Place(before, s, x);
    if i + 1 < p {
      assert !before(s[p - 1], s[i]) && !before(x, s[p - 1]);
    } else if i >= p {
      assert before(x, s[i]);
    }
  }

  lemma PlaceKeepsOrder<T(!new)>(before: (T, T) -> bool, s: seq<T>, x: T)
    requires WeakOrder(before) && InOrder(before, s)
    ensures InOrder(before, InsertAt(s, Place(before, s, x), x))
  {
    var p := Place(before, s, x);
    var r := InsertAt(s, p, x);
    forall i, j | 0 <= i < j < |r| ensures !before(r[j], r[i]) {
      InsertedAt(s, p, x, i);
      InsertedAt(s, p, x, j);
      if j == p { PlaceSplits(before, s, x, i); }
      if i == p { PlaceSplits(before, s, x, j - 1); }
    }
  }

  predicate Distinct<T(==)>(s: seq<T>) {
    forall i, j :: 0 <= i < j < |s| ==> s[i] != s[j]
  }

  lemma InsertDistinct<T>(s: seq<T>, p: nat, x: T)
    requires Distinct(s) && x !in s && p <= |s|
    ensures Distinct(InsertAt(s, p, x))
  {
    var r := InsertAt(s, p, x);
    forall i, j | 0 <= i < j < |r| ensures r[i] != r[j] {
      InsertedAt(s, p, x, i);
      InsertedAt(s, p, x, j);
    }
  }

  lemma InsertMembers<T>(s: seq<T>, p: nat, x: T)
    requires p <= |s|
    ensures forall y :: y in InsertAt(s, p, x) <==> y in s || y == x
  {
    assert s == s[..p] + s[p..];
  }

  /** A sequence without repetition has as many elements as the set of them. */
  lemma {:induction false} DistinctSize<T>(s: seq<T>, elements: set<T>)
    requires Distinct(s) && forall x :: x in s <==> x in elements
    ensures |s| == |elements|
  {
    if s == [] {
      assert elements == {};
    } else {
      var n := |s| - 1;
      assert forall x :: x in s[..n] <==> x in elements - {s[n]};
      DistinctSize(s[..n], elements - {s[n]});
    }
  }
}

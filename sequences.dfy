/** Order-keeping filters over sequences: `Array.prototype.filter` and what it keeps. Every
    `filter` of the application is shown equal to `Select` with its own test, so the order and
    the multiplicity of what it keeps follow from the lemmas here. */
module Sequences {

  /** `a` is `b` with some elements left out, the rest in the same order. */
  predicate IsSubsequence<T(==)>(a: seq<T>, b: seq<T>)
    decreases |b|
  {
    a == [] || (b != [] && if a[0] == b[0] then IsSubsequence(a[1..], b[1..]) else IsSubsequence(a, b[1..]))
  }

  /** `Array.prototype.filter`: the elements satisfying `p`, in their order. */
  function Select<T(!new)>(s: seq<T>, p: T -> bool): (r: seq<T>)
    ensures |r| <= |s|
    ensures forall i :: 0 <= i < |r| ==> p(r[i])
  {
    if s == [] then []
    else if p(s[0]) then [s[0]] + Select(s[1..], p)
    else Select(s[1..], p)
  }

  /** The filter keeps exactly the elements satisfying `p`. */
  lemma {:induction false} SelectMembers<T(!new)>(s: seq<T>, p: T -> bool)
    ensures forall x :: x in Select(s, p) <==> x in s && p(x)
  {
    if s != [] {
      SelectMembers(s[1..], p);
      assert s == [s[0]] + s[1..];
    }
  }

  /** The filter keeps the order of what it keeps. */
  lemma {:induction false} SelectIsSubsequence<T(!new)>(s: seq<T>, p: T -> bool)
    ensures IsSubsequence(Select(s, p), s)
  {
    if s != [] {
      SelectIsSubsequence(s[1..], p);
      var r := Select(s, p);
      if p(s[0]) {
        assert r[1..] == Select(s[1..], p);
      }
    }
  }

  /** The filter keeps every occurrence of what it keeps. */
  lemma {:induction false} SelectCounts<T(!new)>(s: seq<T>, p: T -> bool, x: T)
    ensures multiset(Select(s, p))[x] == if p(x) then multiset(s)[x] else 0
  {
    if s != [] {
      SelectCounts(s[1..], p, x);
      assert s == [s[0]] + s[1..];
    }
  }

  /** The filter keeps nothing exactly when no element passes. */
  lemma {:induction false} SelectEmpty<T(!new)>(s: seq<T>, p: T -> bool)
    ensures Select(s, p) == [] <==> forall i :: 0 <= i < |s| ==> !p(s[i])
  {
    if s != [] {
      SelectEmpty(s[1..], p);
      assert forall i :: 0 < i < |s| ==> s[i] == s[1..][i - 1];
    }
  }

  /** Lists holding the same multiset hold the same elements. */
  lemma SameMembers<T>(a: seq<T>, b: seq<T>)
    requires multiset(a) == multiset(b)
    ensures forall x :: x in a <==> x in b
  {
    forall x
      ensures x in a <==> x in b
    {
      assert x in a <==> x in multiset(a);
      assert x in b <==> x in multiset(b);
    }
  }

  /** Filtering a list with one more element at the front. */
  lemma SelectCons<T(!new)>(x: T, s: seq<T>, p: T -> bool)
    ensures Select([x] + s, p) == (if p(x) then [x] else []) + Select(s, p)
  {
    assert ([x] + s)[0] == x;
    assert ([x] + s)[1..] == s;
  }

  /** When `rest` filters to what the tail of `s` filters to, plus `tail`, then `rest` behind
      the head of `s` filters to what `s` filters to, plus `tail`. */
  lemma SelectFrontTail<T(!new)>(s: seq<T>, rest: seq<T>, tail: seq<T>, p: T -> bool)
    requires s != [] && Select(rest, p) == Select(s[1..], p) + tail
    ensures Select([s[0]] + rest, p) == Select(s, p) + tail
  {
    SelectCons(s[0], rest, p);
    var head := if p(s[0]) then [s[0]] else [];
    assert head + (Select(s[1..], p) + tail) == (head + Select(s[1..], p)) + tail;
  }

  /** Filtering a list with one more element at the end. */
  lemma {:induction false} SelectSnoc<T(!new)>(s: seq<T>, x: T, p: T -> bool)
    ensures Select(s + [x], p) == Select(s, p) + if p(x) then [x] else []
  {
    var tail := if p(x) then [x] else [];
    if s != [] {
      var head := if p(s[0]) then [s[0]] else [];
      assert (s + [x])[0] == s[0];
      assert (s + [x])[1..] == s[1..] + [x];
      SelectSnoc(s[1..], x, p);
      calc {
        Select(s + [x], p);
        head + Select(s[1..] + [x], p);
        head + (Select(s[1..], p) + tail);
        (head + Select(s[1..], p)) + tail;
        Select(s, p) + tail;
      }
    } else {
      assert [x][1..] == [];
      assert s + [x] == [x];
    }
  }
}

/** `Array.prototype.filter` and the subsequence relation it establishes. */
module Sequences {

  /** `r` is obtained from `s` by deleting zero or more elements: order is
      kept and nothing is invented or duplicated. */
  predicate IsSubsequence<T(==)>(r: seq<T>, s: seq<T>)
    decreases |s|
  {
    if r == [] then true
    else if s == [] then false
    else if r[0] == s[0] then IsSubsequence(r[1..], s[1..])
    else IsSubsequence(r, s[1..])
  }

  /** `s.filter(keep)`: the elements of `s` for which `keep` holds, in order. */
  function Filter<T(==)>(s: seq<T>, keep: T -> bool): (r: seq<T>)
    ensures |r| <= |s|
    ensures forall i :: 0 <= i < |r| ==> r[i] in s && keep(r[i])
    ensures forall i :: 0 <= i < |s| && keep(s[i]) ==> s[i] in r
  {
    if s == [] then []
    else if keep(s[0]) then [s[0]] + Filter(s[1..], keep)
    else Filter(s[1..], keep)
  }

  /** Filtering a list with a given head: the head counts when it passes. */
  lemma FilterLengthCons<T>(x: T, s: seq<T>, keep: T -> bool)
    ensures |Filter([x] + s, keep)| == (if keep(x) then 1 else 0) + |Filter(s, keep)|
  {
    assert ([x] + s)[1..] == s;
  }

  /** `s.map(g)`: `g` applied to every element, in order. */
  function Mapped<T, U>(s: seq<T>, g: T -> U): (r: seq<U>)
    ensures |r| == |s|
    ensures forall i :: 0 <= i < |s| ==> r[i] == g(s[i])
  {
    seq(|s|, i requires 0 <= i < |s| => g(s[i]))
  }

  /** Mapping by a function that never changes whether an element passes
      commutes with filtering. */
  lemma {:induction false} FilterMapped<T>(s: seq<T>, keep: T -> bool, g: T -> T)
    requires forall x :: keep(g(x)) == keep(x)
    ensures Filter(Mapped(s, g), keep) == Mapped(Filter(s, keep), g)
  {
    if s != [] {
      FilterMapped(s[1..], keep, g);
      var m := Mapped(s, g);
      assert m[0] == g(s[0]) && m[1..] == Mapped(s[1..], g);
      if keep(s[0]) {
        var rest := Filter(s[1..], keep);
        assert Mapped([s[0]] + rest, g) == [g(s[0])] + Mapped(rest, g);
      }
    }
  }

  lemma {:induction false} FilterIsSubsequence<T>(s: seq<T>, keep: T -> bool)
    ensures IsSubsequence(Filter(s, keep), s)
  {
    if s != [] {
      FilterIsSubsequence(s[1..], keep);
      if keep(s[0]) {
        assert Filter(s, keep)[1..] == Filter(s[1..], keep);
      } else {
        // the head of the result passed `keep`, so it is not the rejected s[0]
        assert Filter(s, keep) != [] ==> Filter(s, keep)[0] != s[0];
      }
    }
  }

  /** A subsequence never holds an element more often than the sequence it
      was taken from. */
  lemma {:induction false} SubsequenceMultiset<T>(r: seq<T>, s: seq<T>)
    requires IsSubsequence(r, s)
    ensures multiset(r) <= multiset(s)
  {
    if r != [] {
      assert s != [];
      assert s == [s[0]] + s[1..];
      if r[0] == s[0] {
        SubsequenceMultiset(r[1..], s[1..]);
        assert r == [r[0]] + r[1..];
      } else {
        SubsequenceMultiset(r, s[1..]);
      }
    }
  }

  /** A filter whose callback holds throughout returns its input. */
  lemma {:induction false} FilterKeepsAll<T>(s: seq<T>, keep: T -> bool)
    requires forall x :: x in s ==> keep(x)
    ensures Filter(s, keep) == s
  {
    if s != [] {
      FilterKeepsAll(s[1..], keep);
    }
  }

  /** A filter whose callback fails throughout returns the empty list. */
  lemma {:induction false} FilterDropsAll<T>(s: seq<T>, keep: T -> bool)
    requires forall x :: x in s ==> !keep(x)
    ensures Filter(s, keep) == []
  {
    if s != [] {
      FilterDropsAll(s[1..], keep);
    }
  }

  /** Two filters run one after the other are one filter by the conjunction
      of their callbacks. */
  lemma {:induction false} FilterFilter<T>(s: seq<T>, first: T -> bool, second: T -> bool, both: T -> bool)
    requires forall x :: both(x) == (first(x) && second(x))
    ensures Filter(Filter(s, first), second) == Filter(s, both)
  {
    if s != [] {
      FilterFilter(s[1..], first, second, both);
      if first(s[0]) {
        assert Filter(s, first) == [s[0]] + Filter(s[1..], first);
        assert Filter(s, first)[1..] == Filter(s[1..], first);
      }
    }
  }

  /** Filters by callbacks that agree on every element are equal. */
  lemma {:induction false} FilterAgree<T>(s: seq<T>, a: T -> bool, b: T -> bool)
    requires forall x :: x in s ==> a(x) == b(x)
    ensures Filter(s, a) == Filter(s, b)
  {
    if s != [] {
      FilterAgree(s[1..], a, b);
    }
  }

  /** One stage of a pipeline that filters only when `active`: after it, the
      list is the filter of the original by `next`, the conjunction of what
      was kept so far with the stage's callback when it ran. */
  lemma FilterStage<T>(s: seq<T>, kept: T -> bool, active: bool, stage: T -> bool, next: T -> bool)
    requires forall x :: next(x) == (kept(x) && (active ==> stage(x)))
    ensures (if active then Filter(Filter(s, kept), stage) else Filter(s, kept)) == Filter(s, next)
  {
    if active {
      FilterFilter(s, kept, stage, next);
    } else {
      FilterAgree(s, kept, next);
    }
  }
}

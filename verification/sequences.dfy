/** Small facts about sequences shared by the parser and the search:
    `slice(0, n)`, "the last one wins", and `filter` as an order-keeping
    selection. */
module Sequences {

  /** `s.slice(0, n)`: the first `n` elements, or all of `s` when it is
      shorter. */
  function Take<T>(s: seq<T>, n: nat): (r: seq<T>)
    ensures |r| == if |s| <= n then |s| else n
    ensures r == s[..|r|]
  {
    if |s| <= n then s else s[..n]
  }

  /** Cutting early and cutting again at the same length is one cut. */
  lemma TakeTwice<T>(held: seq<T>, c: seq<T>, rest: seq<T>, n: nat)
    ensures Take(Take(held + c, n) + rest, n) == Take(held + (c + rest), n)
  {
    assert held + (c + rest) == (held + c) + rest;
    var a := held + c;
    if |a| > n {
      assert (Take(a, n) + rest)[..n] == (a + rest)[..n];
    }
  }

  /** Once `n` are held, nothing later is taken. */
  lemma TakeFull<T>(held: seq<T>, later: seq<T>, n: nat)
    requires |held| >= n
    ensures Take(held + later, n) == Take(held, n)
  {
    assert (held + later)[..n] == held[..n];
  }

  /** The last element of `s`, or `default` when `s` is empty. */
  function Last<T>(s: seq<T>, default: T): T {
    if |s| == 0 then default else s[|s| - 1]
  }

  /** Splitting off the head of a non-empty front. */
  lemma HeadOfConcat<T>(a: seq<T>, t: seq<T>, u: seq<T>)
    requires |a| > 0
    ensures (a + t)[0] == a[0] && (a + t)[1..] == a[1..] + t
    ensures [a[0]] + (a[1..] + u) == a + u
  {
    assert a == [a[0]] + a[1..];
  }

  lemma LastConcat<T>(a: seq<T>, b: seq<T>, default: T)
    ensures Last(a + b, default) == Last(b, Last(a, default))
  {
  }

  /** No element occurs twice. */
  predicate Distinct<T(==)>(s: seq<T>) {
    forall i, j :: 0 <= i < j < |s| ==> s[i] != s[j]
  }

  /** A common element cancels from both sides of a multiset equation. */
  lemma MultisetCancel<T>(p: multiset<T>, q: multiset<T>, x: T)
    requires p + multiset{x} == q + multiset{x}
    ensures p == q
  {
    forall y ensures p[y] == q[y] {
      assert (p + multiset{x})[y] == (q + multiset{x})[y];
    }
  }

  // ------------------------------------------------------------ filter

  /** `sub` is `s` with some elements left out and the others kept in
      their order. */
  ghost predicate Subsequence<T>(sub: seq<T>, s: seq<T>)
    decreases |s|
  {
    |sub| == 0 || (|s| > 0 && (Subsequence(sub, s[1..]) || (sub[0] == s[0] && Subsequence(sub[1..], s[1..]))))
  }

  /** `r` is `s.filter(keep)`: in order, every element of `s` that `keep`
      accepts, as often as `s` holds it, and nothing else. */
  ghost predicate IsFilter<T(!new)>(r: seq<T>, s: seq<T>, keep: T -> bool) {
    Subsequence(r, s) && forall x :: multiset(r)[x] == if keep(x) then multiset(s)[x] else 0
  }

  /** The filter of `s` from the filter of its tail. */
  lemma FilterCons<T(!new)>(r: seq<T>, s: seq<T>, keep: T -> bool)
    requires |s| > 0 && IsFilter(r, s[1..], keep)
    ensures IsFilter(if keep(s[0]) then [s[0]] + r else r, s, keep)
  {
    assert s == [s[0]] + s[1..];
    if keep(s[0]) {
      assert ([s[0]] + r)[1..] == r;
    }
  }

  /** What a subsequence holds, its source holds at least as often. */
  lemma {:induction false} SubsequenceMultiset<T>(sub: seq<T>, s: seq<T>)
    requires Subsequence(sub, s)
    ensures multiset(sub) <= multiset(s)
    decreases |s|
  {
    if |sub| > 0 {
      assert s == [s[0]] + s[1..];
      if Subsequence(sub, s[1..]) {
        SubsequenceMultiset(sub, s[1..]);
      } else {
        assert sub == [sub[0]] + sub[1..];
        SubsequenceMultiset(sub[1..], s[1..]);
      }
    }
  }

  /** Every element of a subsequence is an element of its source. */
  lemma SubsequenceIn<T>(sub: seq<T>, s: seq<T>, i: nat)
    requires Subsequence(sub, s) && i < |sub|
    ensures sub[i] in s
  {
    SubsequenceMultiset(sub, s);
    assert sub[i] in multiset(sub);
  }

  /** `a` occurs in `s` at some position before one holding `b`. */
  ghost predicate Before<T>(s: seq<T>, a: T, b: T) {
    exists ki, kj :: 0 <= ki < kj < |s| && s[ki] == a && s[kj] == b
  }

  /** Every pair of positions of a subsequence, in order, comes from its
      source in the same order. */
  lemma SubsequenceBefore<T>(sub: seq<T>, s: seq<T>)
    requires Subsequence(sub, s)
    ensures forall i, j :: 0 <= i < j < |sub| ==> Before(s, sub[i], sub[j])
  {
    forall i, j | 0 <= i < j < |sub| ensures Before(s, sub[i], sub[j]) {
      SubsequenceOrder(sub, s, i, j);
    }
  }

  /** Two positions of a subsequence come from two positions of its
      source, in the same order. */
  lemma {:induction false} SubsequenceOrder<T>(sub: seq<T>, s: seq<T>, i: nat, j: nat)
    requires Subsequence(sub, s) && i < j < |sub|
    ensures Before(s, sub[i], sub[j])
    decreases |s|
  {
    if Subsequence(sub, s[1..]) {
      SubsequenceOrder(sub, s[1..], i, j);
      var ki, kj :| 0 <= ki < kj < |s[1..]| && s[1..][ki] == sub[i] && s[1..][kj] == sub[j];
      assert s[ki + 1] == sub[i] && s[kj + 1] == sub[j];
    } else if i == 0 {
      assert sub[1..][j - 1] == sub[j];
      SubsequenceIn(sub[1..], s[1..], j - 1);
      var kj :| 0 <= kj < |s[1..]| && s[1..][kj] == sub[j];
      assert s[0] == sub[0] && s[kj + 1] == sub[j];
    } else {
      assert sub[1..][i - 1] == sub[i] && sub[1..][j - 1] == sub[j];
      SubsequenceOrder(sub[1..], s[1..], i - 1, j - 1);
      var ki, kj :| 0 <= ki < kj < |s[1..]| && s[1..][ki] == sub[i] && s[1..][kj] == sub[j];
      assert s[ki + 1] == sub[i] && s[kj + 1] == sub[j];
    }
  }

  /** The partner of `IsFilter`: it pins the result down, so any two
      filters of the same sequence by the same test are equal. */
  lemma {:induction false} FilterUnique<T(!new)>(r1: seq<T>, r2: seq<T>, s: seq<T>, keep: T -> bool)
    requires IsFilter(r1, s, keep) && IsFilter(r2, s, keep)
    ensures r1 == r2
    decreases |s|
  {
    if |s| > 0 {
      var x := s[0];
      assert s == [x] + s[1..];
      FilterTail(r1, s, keep);
      FilterTail(r2, s, keep);
      if keep(x) {
        FilterUnique(r1[1..], r2[1..], s[1..], keep);
        assert r1 == [x] + r1[1..] && r2 == [x] + r2[1..];
      } else {
        FilterUnique(r1, r2, s[1..], keep);
      }
    }
  }

  /** Peeling the first element off a filter. */
  lemma FilterTail<T(!new)>(r: seq<T>, s: seq<T>, keep: T -> bool)
    requires |s| > 0 && IsFilter(r, s, keep)
    ensures keep(s[0]) ==> |r| > 0 && r[0] == s[0] && IsFilter(r[1..], s[1..], keep)
    ensures !keep(s[0]) ==> IsFilter(r, s[1..], keep)
  {
    var x := s[0];
    assert s == [x] + s[1..];
    if keep(x) {
      assert multiset(r)[x] == multiset(s)[x] > 0;
      if |r| > 0 && r[0] == x && Subsequence(r[1..], s[1..]) {
        assert r == [x] + r[1..];
      } else {
        assert Subsequence(r, s[1..]);
        SubsequenceMultiset(r, s[1..]);
        assert false;
      }
    }
  }
}

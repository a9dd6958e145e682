/**
 * The array operations the components use on their props: `filter` and
 * `slice(0, n)`, with the facts about them that the component models rely on.
 */
module Seqs {

  /** `s` can be obtained from `t` by deleting elements; the order is kept. */
  predicate IsSubsequence<T(==)>(s: seq<T>, t: seq<T>)
    decreases |t|
  {
    if s == [] then true
    else if t == [] then false
    else if s[0] == t[0] then IsSubsequence(s[1..], t[1..])
    else IsSubsequence(s, t[1..])
  }

  /** `s` is strictly increasing under `key`. */
  predicate StrictlyIncreasing<T>(s: seq<T>, key: T -> int) {
    forall j, k :: 0 <= j < k < |s| ==> key(s[j]) < key(s[k])
  }

  /**
   * `Array.prototype.filter`: the elements of `s` that satisfy `p`, in their
   * original order and with their original multiplicity.
   */
  function Filter<T(==,!new)>(p: T -> bool, s: seq<T>): (r: seq<T>)
    ensures |r| <= |s|
    ensures forall x :: x in r <==> x in s && p(x)
    ensures IsSubsequence(r, s)
  {
    if s == [] then []
    else
      var rest := Filter(p, s[1..]);
      assert s == [s[0]] + s[1..];
      if p(s[0]) then [s[0]] + rest else rest
  }

  /** `Array.prototype.slice(0, n)`: the first `n` elements, or all of them when fewer. */
  function Take<T>(s: seq<T>, n: nat): (r: seq<T>)
    ensures |r| <= n && |r| <= |s|
    ensures |r| == n || r == s
    ensures r == s[..|r|]
  {
    if |s| <= n then s else s[..n]
  }

  lemma {:induction false} SubsequenceMembers<T>(s: seq<T>, t: seq<T>)
    requires IsSubsequence(s, t)
    ensures forall x :: x in s ==> x in t
    decreases |t|
  {
    if s != [] {
      if s[0] == t[0] {
        SubsequenceMembers(s[1..], t[1..]);
        assert forall x :: x in s ==> x == t[0] || x in s[1..];
      } else {
        SubsequenceMembers(s, t[1..]);
      }
    }
  }

  /** Deleting elements from a strictly increasing sequence leaves it strictly increasing. */
  lemma {:induction false} SubsequenceKeepsOrder<T>(s: seq<T>, t: seq<T>, key: T -> int)
    requires IsSubsequence(s, t)
    requires StrictlyIncreasing(t, key)
    ensures StrictlyIncreasing(s, key)
    decreases |t|
  {
    if s != [] {
      assert StrictlyIncreasing(t[1..], key);
      if s[0] == t[0] {
        SubsequenceKeepsOrder(s[1..], t[1..], key);
        SubsequenceMembers(s[1..], t[1..]);
        forall k | 0 < k < |s| ensures key(s[0]) < key(s[k]) {
          assert s[k] == s[1..][k - 1];
          assert s[k] in s[1..];
          assert s[k] in t[1..];
          var i :| 0 <= i < |t[1..]| && t[1..][i] == s[k];
          assert t[i + 1] == s[k];
        }
      } else {
        SubsequenceKeepsOrder(s, t[1..], key);
      }
    }
  }

  lemma {:induction false} FilterConcat<T(!new)>(p: T -> bool, a: seq<T>, b: seq<T>)
    ensures Filter(p, a + b) == Filter(p, a) + Filter(p, b)
  {
    if a != [] {
      var ab := a + b;
      assert ab[0] == a[0] && ab[1..] == a[1..] + b;
      FilterConcat(p, a[1..], b);
      var rest := Filter(p, a[1..]) + Filter(p, b);
      assert Filter(p, ab) == if p(a[0]) then [a[0]] + rest else rest;
      assert Filter(p, a) == if p(a[0]) then [a[0]] + Filter(p, a[1..]) else Filter(p, a[1..]);
    } else {
      assert a + b == b;
    }
  }

  /** The filter keeps every occurrence of a kept element and no occurrence of another. */
  lemma {:induction false} FilterMultiplicity<T(!new)>(p: T -> bool, s: seq<T>, x: T)
    ensures multiset(Filter(p, s))[x] == if p(x) then multiset(s)[x] else 0
  {
    if s != [] {
      FilterMultiplicity(p, s[1..], x);
      assert s == [s[0]] + s[1..];
    }
  }

  /** When no element satisfies `p`, the filter returns nothing. */
  lemma {:induction false} FilterDropsAll<T(!new)>(p: T -> bool, s: seq<T>)
    requires forall x :: x in s ==> !p(x)
    ensures Filter(p, s) == []
  {
    if s != [] {
      FilterDropsAll(p, s[1..]);
    }
  }

  /** When every element satisfies `p`, the filter returns its input unchanged. */
  lemma {:induction false} FilterKeepsAll<T(!new)>(p: T -> bool, s: seq<T>)
    requires forall x :: x in s ==> p(x)
    ensures Filter(p, s) == s
  {
    if s != [] {
      FilterKeepsAll(p, s[1..]);
    }
  }
}

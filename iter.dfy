/** The iterator adapters the list command chains: `filter` (order-preserving) and `truncate`. */
module Iter {

  /** `iter().filter(p).collect()`: the elements satisfying `p`, in their original order. */
  function Filter<T(!new)>(s: seq<T>, p: T -> bool): (r: seq<T>)
    ensures |r| <= |s|
  {
    if |s| == 0 then []
    else
      var init := s[..|s| - 1];
      var last := s[|s| - 1];
      assert s == init + [last];
      Filter(init, p) + (if p(last) then [last] else [])
  }

  /** The kept elements are exactly the elements satisfying `p`. */
  lemma {:induction false} FilterMembers<T(!new)>(s: seq<T>, p: T -> bool)
    ensures forall x :: x in Filter(s, p) <==> x in s && p(x)
  {
    if |s| > 0 {
      var init, last := s[..|s| - 1], s[|s| - 1];
      assert s == init + [last];
      FilterMembers(init, p);
    }
  }

  /** Each element is kept exactly as many times as it occurs, when it satisfies `p`, and dropped otherwise. */
  lemma {:induction false} FilterCounts<T(!new)>(s: seq<T>, p: T -> bool, x: T)
    ensures multiset(Filter(s, p))[x] == if p(x) then multiset(s)[x] else 0
  {
    if |s| > 0 {
      var init, last := s[..|s| - 1], s[|s| - 1];
      assert s == init + [last];
      FilterCounts(init, p, x);
    }
  }

  /** Filtering commutes with concatenation, so the kept elements keep their relative order. */
  lemma {:induction false} FilterConcat<T(!new)>(a: seq<T>, b: seq<T>, p: T -> bool)
    ensures Filter(a + b, p) == Filter(a, p) + Filter(b, p)
  {
    if |b| > 0 {
      var init, last := b[..|b| - 1], b[|b| - 1];
      var ab := a + b;
      var kept := if p(last) then [last] else [];
      assert ab[..|ab| - 1] == a + init && ab[|ab| - 1] == last;
      assert Filter(ab, p) == Filter(a + init, p) + kept;
      FilterConcat(a, init, p);
      assert Filter(b, p) == Filter(init, p) + kept;
    } else {
      assert a + b == a;
    }
  }

  /** `Vec::truncate(n)`: the first `n` elements, or all of them when there are fewer. */
  function Truncate<T(!new)>(s: seq<T>, n: nat): (r: seq<T>)
    ensures |r| == if n < |s| then n else |s|
    ensures r <= s
    ensures forall x :: x in r ==> x in s
  {
    if n < |s| then s[..n] else s
  }

  /** Two appended pieces of which one is empty can be appended in either order. */
  lemma SwapPastEmpty<T>(a: seq<T>, b: seq<T>, c: seq<T>)
    requires b == [] || c == []
    ensures (a + b) + c == (a + c) + b
  {
    if b == [] {
      assert a + b == a;
    } else {
      assert a + c == a;
    }
  }
}

/** Sequence operations that mirror JavaScript's array methods (`filter`, `map`, `slice`),
    with the facts about them that the components rely on. */
module Seqs {

  /** `s.filter(p)`: the elements of `s` that satisfy `p`, in their original order. */
  function Filter<T(!new)>(s: seq<T>, p: T -> bool): (r: seq<T>)
    ensures |r| <= |s|
    ensures forall x :: x in r <==> x in s && p(x)
    ensures forall i :: 0 <= i < |r| ==> p(r[i])
  {
    if |s| == 0 then []
    else if p(s[0]) then [s[0]] + Filter(s[1..], p)
    else Filter(s[1..], p)
  }

  /** `s.map(f)`. */
  function Map<A, B>(s: seq<A>, f: A -> B): (r: seq<B>)
    ensures |r| == |s|
    ensures forall i :: 0 <= i < |s| ==> r[i] == f(s[i])
  {
    if |s| == 0 then [] else [f(s[0])] + Map(s[1..], f)
  }

  /** `s.slice(-n)` for n > 0: the last `n` elements, or all of `s` when it is shorter. */
  function LastN<T>(s: seq<T>, n: nat): (r: seq<T>)
    ensures |r| == if |s| <= n then |s| else n
    ensures s == s[..|s| - |r|] + r
  {
    if |s| <= n then s else s[|s| - n..]
  }

  /** The first `n` elements, as a database `take: n` returns them. */
  function Take<T>(s: seq<T>, n: nat): (r: seq<T>)
    ensures |r| <= n && |r| <= |s|
    ensures s == r + s[|r|..]
    ensures |s| <= n ==> r == s
    ensures |s| > n ==> |r| == n
  {
    if |s| <= n then s else s[..n]
  }

  /** Number of elements of `s` that satisfy `p`. */
  function Count<T(!new)>(s: seq<T>, p: T -> bool): nat
  {
    |Filter(s, p)|
  }

  /** Nothing passes the filter exactly when no element satisfies the test. */
  lemma FilterNone<T(!new)>(s: seq<T>, p: T -> bool)
    ensures Filter(s, p) == [] <==> forall i :: 0 <= i < |s| ==> !p(s[i])
  {
    var r := Filter(s, p);
    if r != [] {
      assert r[0] in r;
    }
  }

  /** Filtering distributes over concatenation: the kept elements keep their relative order. */
  lemma {:induction false} FilterAppend<T(!new)>(a: seq<T>, b: seq<T>, p: T -> bool)
    ensures Filter(a + b, p) == Filter(a, p) + Filter(b, p)
  {
    if |a| == 0 {
      assert a + b == b;
    } else {
      assert (a + b)[0] == a[0];
      assert (a + b)[1..] == a[1..] + b;
      FilterAppend(a[1..], b, p);
    }
  }

  /** When every element passes, filtering changes nothing. */
  lemma {:induction false} FilterAll<T(!new)>(s: seq<T>, p: T -> bool)
    requires forall i :: 0 <= i < |s| ==> p(s[i])
    ensures Filter(s, p) == s
  {
    if |s| > 0 {
      FilterAll(s[1..], p);
    }
  }

  /** Filtering twice is filtering once by the conjunction. */
  lemma {:induction false} FilterFilter<T(!new)>(s: seq<T>, p: T -> bool, q: T -> bool, both: T -> bool)
    requires forall x :: both(x) == (p(x) && q(x))
    ensures Filter(Filter(s, p), q) == Filter(s, both)
  {
    if |s| > 0 {
      FilterFilter(s[1..], p, q, both);
      if p(s[0]) {
        var f := [s[0]] + Filter(s[1..], p);
        assert f[0] == s[0] && f[1..] == Filter(s[1..], p);
      }
    }
  }

  /** Filtering by `p` and by its negation splits `s` into two parts that together hold
      exactly the elements of `s`. */
  lemma {:induction false} FilterPartition<T(!new)>(s: seq<T>, p: T -> bool, notP: T -> bool)
    requires forall x :: notP(x) == !p(x)
    ensures |Filter(s, p)| + |Filter(s, notP)| == |s|
    ensures multiset(Filter(s, p)) + multiset(Filter(s, notP)) == multiset(s)
  {
    if |s| > 0 {
      FilterPartition(s[1..], p, notP);
      assert s == [s[0]] + s[1..];
    }
  }

  /** Counting is additive over a predicate that is the disjoint union of two others. */
  lemma {:induction false} CountDisjointUnion<T(!new)>(s: seq<T>, p: T -> bool, q: T -> bool, either: T -> bool)
    requires forall x :: either(x) == (p(x) || q(x))
    requires forall x :: !(p(x) && q(x))
    ensures Count(s, either) == Count(s, p) + Count(s, q)
  {
    if |s| > 0 {
      CountDisjointUnion(s[1..], p, q, either);
    }
  }

  /** `s.reduce((sum, x) => sum + w(x), 0)`. */
  function Sum<T>(s: seq<T>, w: T -> int): int
  {
    if |s| == 0 then 0 else w(s[0]) + Sum(s[1..], w)
  }

  /** The total of `w` over the elements of `s` that satisfy `p`. */
  function SumWhere<T>(s: seq<T>, p: T -> bool, w: T -> int): int
  {
    if |s| == 0 then 0 else (if p(s[0]) then w(s[0]) else 0) + SumWhere(s[1..], p, w)
  }

  /** Reducing the filtered list gives the total over the elements that pass the filter. */
  lemma {:induction false} SumOfFilter<T(!new)>(s: seq<T>, p: T -> bool, w: T -> int)
    ensures Sum(Filter(s, p), w) == SumWhere(s, p, w)
  {
    if |s| > 0 {
      SumOfFilter(s[1..], p, w);
      if p(s[0]) {
        assert ([s[0]] + Filter(s[1..], p))[1..] == Filter(s[1..], p);
      }
    }
  }

  /** No element passes, so the total is zero. */
  lemma {:induction false} SumWhereNone<T>(s: seq<T>, p: T -> bool, w: T -> int)
    requires forall i :: 0 <= i < |s| ==> !p(s[i])
    ensures SumWhere(s, p, w) == 0
  {
    if |s| > 0 {
      SumWhereNone(s[1..], p, w);
    }
  }

  /** Totals over a disjoint union of two tests add up. */
  lemma {:induction false} SumWhereDisjointUnion<T>(s: seq<T>, p: T -> bool, q: T -> bool, either: T -> bool, w: T -> int)
    requires forall x :: either(x) == (p(x) || q(x))
    requires forall x :: !(p(x) && q(x))
    ensures SumWhere(s, either, w) == SumWhere(s, p, w) + SumWhere(s, q, w)
  {
    if |s| > 0 {
      SumWhereDisjointUnion(s[1..], p, q, either, w);
    }
  }

  /** Counting by a predicate that implies another never exceeds the other's count. */
  lemma {:induction false} CountMonotone<T(!new)>(s: seq<T>, p: T -> bool, q: T -> bool)
    requires forall x :: p(x) ==> q(x)
    ensures Count(s, p) <= Count(s, q)
  {
    if |s| > 0 {
      CountMonotone(s[1..], p, q);
    }
  }

  /** Keeping the last element of the last two and appending `x` is keeping the last two
      of the extended sequence: `[...s.slice(-2).slice(-1), x]` equals `[...s, x].slice(-2)`. */
  lemma LastTwoWindow<T>(s: seq<T>, x: T)
    ensures LastN(LastN(s, 2), 1) + [x] == LastN(s + [x], 2)
  {
    var t := s + [x];
    if |s| == 0 {
      assert LastN(t, 2) == t == [x];
    } else {
      var last := s[|s| - 1];
      assert LastN(LastN(s, 2), 1) == [last];
      assert t[|t| - 2..] == [last, x];
      assert LastN(t, 2) == [last, x];
    }
  }
}

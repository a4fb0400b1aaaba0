/** The array operations the pages build their lists with: `filter`,
    `find`, a filter-count, and the distinct values of `[...new Set(xs)]`. */
module Seqs {
  import opened Wrappers

  /** `s.filter(p)`. */
  function Filter<T(!new)>(s: seq<T>, p: T -> bool): (r: seq<T>)
    ensures |r| <= |s|
    ensures forall x {:trigger x in r} :: x in r <==> x in s && p(x)
    ensures forall i :: 0 <= i < |r| ==> p(r[i])
  {
    if |s| == 0 then []
    else
      var rest := Filter(s[1..], p);
      assert forall x :: x in s <==> x == s[0] || x in s[1..];
      if p(s[0]) then [s[0]] + rest else rest
  }

  /** `a` is `b` with some elements left out and the rest in their order. */
  predicate IsSubsequence<T(==)>(a: seq<T>, b: seq<T>)
    decreases |b|
  {
    |a| == 0 || (|b| > 0 && if a[0] == b[0] then IsSubsequence(a[1..], b[1..]) else IsSubsequence(a, b[1..]))
  }

  lemma {:induction false} FilterIsSubsequence<T(!new)>(s: seq<T>, p: T -> bool)
    ensures IsSubsequence(Filter(s, p), s)
    decreases |s|
  {
    if |s| > 0 {
      FilterIsSubsequence(s[1..], p);
    }
  }

  /** Filtering with a predicate every element passes changes nothing. */
  lemma {:induction false} FilterAll<T(!new)>(s: seq<T>, p: T -> bool)
    requires forall i :: 0 <= i < |s| ==> p(s[i])
    ensures Filter(s, p) == s
    decreases |s|
  {
    if |s| > 0 {
      FilterAll(s[1..], p);
    }
  }

  /** Two predicates that agree on the elements give the same filter. */
  lemma {:induction false} FilterExt<T(!new)>(s: seq<T>, p: T -> bool, q: T -> bool)
    requires forall i :: 0 <= i < |s| ==> p(s[i]) == q(s[i])
    ensures Filter(s, p) == Filter(s, q)
    decreases |s|
  {
    if |s| > 0 {
      FilterExt(s[1..], p, q);
    }
  }

  /** Successive filters are one filter by the conjunction `both`. */
  lemma {:induction false} FilterFilter<T(!new)>(s: seq<T>, p: T -> bool, q: T -> bool, both: T -> bool)
    requires forall i :: 0 <= i < |s| ==> both(s[i]) == (p(s[i]) && q(s[i]))
    ensures Filter(Filter(s, p), q) == Filter(s, both)
    decreases |s|
  {
    if |s| > 0 {
      FilterFilter(s[1..], p, q, both);
    }
  }

  /** `if (on) s = s.filter(p)`: a filter applied only when its control is
      set. */
  function FilterIf<T(!new)>(s: seq<T>, on: bool, p: T -> bool): (r: seq<T>)
    ensures forall x {:trigger x in r} :: x in r <==> x in s && (!on || p(x))
  {
    if on then Filter(s, p) else s
  }

  /** A guarded filter after a filter by `prior` is one filter by `both`. */
  lemma FilterIfAfter<T(!new)>(s: seq<T>, prior: T -> bool, on: bool, p: T -> bool, both: T -> bool)
    requires forall i :: 0 <= i < |s| ==> both(s[i]) == (prior(s[i]) && (!on || p(s[i])))
    ensures FilterIf(Filter(s, prior), on, p) == Filter(s, both)
  {
    if on {
      FilterFilter(s, prior, p, both);
    } else {
      FilterExt(s, prior, both);
    }
  }

  /** A guarded filter is a filter by `q`. */
  lemma FilterIfIsFilter<T(!new)>(s: seq<T>, on: bool, p: T -> bool, q: T -> bool)
    requires forall i :: 0 <= i < |s| ==> q(s[i]) == (!on || p(s[i]))
    ensures FilterIf(s, on, p) == Filter(s, q)
  {
    if on {
      FilterExt(s, p, q);
    } else {
      FilterAll(s, q);
    }
  }

  /** Filtering a list extended by one element. */
  lemma {:induction false} FilterAppend<T(!new)>(s: seq<T>, x: T, p: T -> bool)
    ensures Filter(s + [x], p) == Filter(s, p) + if p(x) then [x] else []
    decreases |s|
  {
    if |s| == 0 {
      assert s + [x] == [x];
    } else {
      assert (s + [x])[1..] == s[1..] + [x];
      FilterAppend(s[1..], x, p);
    }
  }

  /** Re-filtering a filtered list changes nothing. */
  lemma {:induction false} FilterIdempotent<T(!new)>(s: seq<T>, p: T -> bool)
    ensures Filter(Filter(s, p), p) == Filter(s, p)
  {
    FilterAll(Filter(s, p), p);
  }

  /** The positions of `s` whose element passes `p`. */
  ghost function Passing<T>(s: seq<T>, p: T -> bool): set<nat> {
    set i: nat | i < |s| && p(s[i])
  }

  /** `s.filter(p).length`: how many positions of `s` pass `p`. */
  function Count<T(!new)>(s: seq<T>, p: T -> bool): (n: nat)
    ensures n <= |s|
    ensures n == |Passing(s, p)|
  {
    FilterCount(s, p);
    |Filter(s, p)|
  }

  /** A filter keeps one element per passing position. */
  lemma {:induction false} FilterCount<T(!new)>(s: seq<T>, p: T -> bool)
    ensures |Filter(s, p)| == |Passing(s, p)|
    decreases |s|
  {
    if |s| > 0 {
      var init, last := s[..|s| - 1], s[|s| - 1];
      assert s == init + [last];
      FilterAppend(init, last, p);
      FilterCount(init, p);
      assert |init| !in Passing(init, p);
      assert Passing(s, p) == Passing(init, p) + if p(last) then {|init|} else {};
    } else {
      assert Passing(s, p) == {};
    }
  }

  /** The index `s.findIndex(p)` reports, if any. */
  function FindIndex<T>(s: seq<T>, p: T -> bool): (r: Option<nat>)
    ensures r.None? <==> forall i :: 0 <= i < |s| ==> !p(s[i])
    ensures r.Some? ==> r.value < |s| && p(s[r.value]) && forall j :: 0 <= j < r.value ==> !p(s[j])
  {
    if |s| == 0 then None
    else if p(s[0]) then Some(0)
    else match FindIndex(s[1..], p)
      case None => None
      case Some(i) => Some(i + 1)
  }

  /** `s.find(p)`: the first element that passes, if any. */
  function Find<T>(s: seq<T>, p: T -> bool): (r: Option<T>)
    ensures r.None? <==> forall i :: 0 <= i < |s| ==> !p(s[i])
    ensures r.Some? ==> r.value in s && p(r.value)
    ensures forall k :: 0 <= k < |s| && p(s[k]) && (forall j :: 0 <= j < k ==> !p(s[j])) ==> r == Some(s[k])
  {
    match FindIndex(s, p)
    case None => None
    case Some(i) => Some(s[i])
  }

  /** The values of `[...new Set(s)]`: each value once, at its first
      occurrence. */
  function Distinct<T(==,!new)>(s: seq<T>): (r: seq<T>)
    ensures |r| <= |s|
    ensures forall x {:trigger x in r} :: x in r <==> x in s
    ensures forall i, j :: 0 <= i < j < |r| ==> r[i] != r[j]
    decreases |s|
  {
    if |s| == 0 then []
    else
      var init := s[..|s| - 1];
      var last := s[|s| - 1];
      assert s == init + [last];
      var d := Distinct(init);
      if last in init then d else assert last !in d; d + [last]
  }

  lemma {:induction false} DistinctIsSubsequence<T(!new)>(s: seq<T>)
    ensures IsSubsequence(Distinct(s), s)
    decreases |s|
  {
    if |s| > 0 {
      var init := s[..|s| - 1];
      assert s == init + [s[|s| - 1]];
      DistinctIsSubsequence(init);
      if s[|s| - 1] in init {
        SubsequenceAppend(Distinct(init), init, [], [s[|s| - 1]]);
        assert Distinct(init) + [] == Distinct(init);
      } else {
        SubsequenceAppend(Distinct(init), init, [s[|s| - 1]], [s[|s| - 1]]);
      }
    }
  }

  /** The first position of `x` in `s`, as `s.indexOf(x)` reports it. */
  function IndexOf<T(==)>(s: seq<T>, x: T): (i: nat)
    requires x in s
    ensures i < |s| && s[i] == x
    ensures forall j :: 0 <= j < i ==> s[j] != x
  {
    if s[0] == x then 0 else IndexOf(s[1..], x) + 1
  }

  lemma {:induction false} IndexOfExtended<T>(s: seq<T>, t: seq<T>, x: T)
    requires x in s
    ensures x in s + t && IndexOf(s + t, x) == IndexOf(s, x)
  {
    var i, k := IndexOf(s, x), IndexOf(s + t, x);
    assert (s + t)[i] == x;
    assert k <= i;
    assert s[k] == x;
  }

  /** `Distinct(s)` lists its values in the order of their first occurrence
      in `s`. */
  lemma {:induction false} DistinctInFirstOccurrenceOrder<T(!new)>(s: seq<T>)
    ensures forall i, j :: 0 <= i < j < |Distinct(s)| ==>
              Distinct(s)[i] in Distinct(s) && Distinct(s)[j] in Distinct(s) &&
              IndexOf(s, Distinct(s)[i]) < IndexOf(s, Distinct(s)[j])
    decreases |s|
  {
    if |s| > 0 {
      var init, last := s[..|s| - 1], s[|s| - 1];
      assert s == init + [last];
      var d := Distinct(init);
      DistinctInFirstOccurrenceOrder(init);
      forall x | x in init
        ensures IndexOf(s, x) == IndexOf(init, x) < |s| - 1
      {
        IndexOfExtended(init, [last], x);
      }
      if last !in init {
        assert IndexOf(s, last) == |s| - 1;
        assert Distinct(s) == d + [last];
        forall i, j | 0 <= i < j < |Distinct(s)|
          ensures Distinct(s)[i] in Distinct(s) && Distinct(s)[j] in Distinct(s)
          ensures IndexOf(s, Distinct(s)[i]) < IndexOf(s, Distinct(s)[j])
        {
          assert Distinct(s)[i] == d[i] && d[i] in d && d[i] in init;
          if j < |d| {
            assert Distinct(s)[j] == d[j] && d[j] in d && d[j] in init;
          }
        }
      } else {
        forall i, j | 0 <= i < j < |Distinct(s)|
          ensures Distinct(s)[i] in Distinct(s) && Distinct(s)[j] in Distinct(s)
          ensures IndexOf(s, Distinct(s)[i]) < IndexOf(s, Distinct(s)[j])
        {
          assert d[i] in d && d[j] in d;
        }
      }
    }
  }

  /** Subsequences can be joined end to end. */
  lemma {:induction false} SubsequenceAppend<T>(a: seq<T>, b: seq<T>, c: seq<T>, d: seq<T>)
    requires IsSubsequence(a, b) && IsSubsequence(c, d)
    ensures IsSubsequence(a + c, b + d)
    decreases |b|
  {
    if |a| == 0 {
      assert a + c == c;
      SubsequenceOfLonger(c, b, d);
    } else {
      assert |b| > 0;
      assert (a + c)[0] == a[0] && (b + d)[0] == b[0];
      assert (b + d)[1..] == b[1..] + d;
      if a[0] == b[0] {
        assert (a + c)[1..] == a[1..] + c;
        SubsequenceAppend(a[1..], b[1..], c, d);
      } else {
        SubsequenceAppend(a, b[1..], c, d);
      }
    }
  }

  /** A subsequence of `d` is a subsequence of `b + d`. */
  lemma {:induction false} SubsequenceOfLonger<T>(c: seq<T>, b: seq<T>, d: seq<T>)
    requires IsSubsequence(c, d)
    ensures IsSubsequence(c, b + d)
    decreases |b|
  {
    if |b| == 0 {
      assert b + d == d;
    } else {
      assert (b + d)[1..] == b[1..] + d;
      SubsequenceOfLonger(c, b[1..], d);
      SubsequenceTail(c, b + d);
    }
  }

  /** Dropping the first element of a subsequence keeps it a subsequence. */
  lemma {:induction false} SubsequenceDropFirst<T>(c: seq<T>, e: seq<T>)
    requires |c| > 0 && IsSubsequence(c, e)
    ensures IsSubsequence(c[1..], e)
    decreases |e|, 1
  {
    if c[0] != e[0] {
      SubsequenceDropFirst(c, e[1..]);
    }
    SubsequenceTail(c[1..], e);
  }

  /** A subsequence of the tail is a subsequence of the whole. */
  lemma {:induction false} SubsequenceTail<T>(c: seq<T>, e: seq<T>)
    requires |e| > 0 && IsSubsequence(c, e[1..])
    ensures IsSubsequence(c, e)
    decreases |e|, 0
  {
    if |c| > 0 && c[0] == e[0] {
      SubsequenceDropFirst(c, e[1..]);
    }
  }
}

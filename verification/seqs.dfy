/** Sequence operations the components use through JavaScript's
    `Array.prototype.filter` and `slice().reverse()`, each with the
    characterisation the callers rely on. */
module Seqs {

  /** `a` can be obtained from `b` by deleting elements: the elements of
      `a` occur in `b` in the same order. */
  ghost predicate IsSubsequence<T>(a: seq<T>, b: seq<T>)
    decreases |b|
  {
    |a| == 0 ||
    (|b| > 0 && if a[0] == b[0] then IsSubsequence(a[1..], b[1..]) else IsSubsequence(a, b[1..]))
  }

  /** `s.filter(keep)`: the elements `keep` accepts, in their original order,
      each with its original multiplicity. */
  function Filter<T(!new)>(keep: T -> bool, s: seq<T>): (r: seq<T>)
    ensures |r| <= |s|
    ensures forall x :: x in r <==> x in s && keep(x)
    ensures forall x :: multiset(r)[x] == if keep(x) then multiset(s)[x] else 0
    ensures IsSubsequence(r, s)
  {
    if |s| == 0 then []
    else
      var tail := Filter(keep, s[1..]);
      assert s == [s[0]] + s[1..];
      if keep(s[0]) then
        assert ([s[0]] + tail)[1..] == tail;
        [s[0]] + tail
      else
        assert |tail| > 0 ==> tail[0] != s[0] by {
          if |tail| > 0 {
            assert tail[0] in tail;
          }
        }
        tail
  }

  /** Filtering with the same test a second time changes nothing. */
  lemma {:induction false} FilterIdempotent<T(!new)>(keep: T -> bool, s: seq<T>)
    ensures Filter(keep, Filter(keep, s)) == Filter(keep, s)
  {
    if |s| > 0 {
      FilterIdempotent(keep, s[1..]);
      var tail := Filter(keep, s[1..]);
      if keep(s[0]) {
        assert ([s[0]] + tail)[1..] == tail;
      }
    }
  }

  /** When every element passes, filtering returns the input unchanged. */
  lemma {:induction false} FilterKeepsAll<T(!new)>(keep: T -> bool, s: seq<T>)
    requires forall i :: 0 <= i < |s| ==> keep(s[i])
    ensures Filter(keep, s) == s
  {
    if |s| > 0 {
      FilterKeepsAll(keep, s[1..]);
      assert s == [s[0]] + s[1..];
    }
  }

  /** When no element passes, filtering returns the empty sequence. */
  lemma {:induction false} FilterDropsAll<T(!new)>(keep: T -> bool, s: seq<T>)
    requires forall i :: 0 <= i < |s| ==> !keep(s[i])
    ensures Filter(keep, s) == []
  {
    if |s| > 0 {
      FilterDropsAll(keep, s[1..]);
    }
  }

  /** Filtering distributes over concatenation. */
  lemma {:induction false} FilterAppend<T(!new)>(keep: T -> bool, a: seq<T>, b: seq<T>)
    ensures Filter(keep, a + b) == Filter(keep, a) + Filter(keep, b)
  {
    if |a| > 0 {
      assert (a + b)[1..] == a[1..] + b;
      FilterAppend(keep, a[1..], b);
    } else {
      assert a + b == b;
    }
  }

  /** Two filters in a row keep what passes both. */
  lemma {:induction false} FilterFilter<T(!new)>(first: T -> bool, second: T -> bool, both: T -> bool, s: seq<T>)
    requires forall i :: 0 <= i < |s| ==> both(s[i]) == (first(s[i]) && second(s[i]))
    ensures Filter(second, Filter(first, s)) == Filter(both, s)
  {
    if |s| > 0 {
      FilterFilter(first, second, both, s[1..]);
      var tail := Filter(first, s[1..]);
      if first(s[0]) {
        assert ([s[0]] + tail)[1..] == tail;
      }
    }
  }

  /** Tests that agree on every element filter alike. */
  lemma {:induction false} FilterAgree<T(!new)>(a: T -> bool, b: T -> bool, s: seq<T>)
    requires forall i :: 0 <= i < |s| ==> a(s[i]) == b(s[i])
    ensures Filter(a, s) == Filter(b, s)
  {
    if |s| > 0 {
      FilterAgree(a, b, s[1..]);
    }
  }

  /** `s.slice().reverse()`: a new sequence holding the same elements last
      first; the input itself is a value and is never changed. */
  function Reverse<T>(s: seq<T>): (r: seq<T>)
    ensures |r| == |s|
    ensures forall i :: 0 <= i < |s| ==> r[i] == s[|s| - 1 - i]
  {
    if |s| == 0 then [] else Reverse(s[1..]) + [s[0]]
  }

  /** The last element comes first. */
  lemma {:induction false} ReverseSnoc<T>(s: seq<T>)
    requires |s| > 0
    ensures Reverse(s) == [s[|s| - 1]] + Reverse(s[..|s| - 1])
    decreases |s|
  {
    var n := |s| - 1;
    if n > 0 {
      ReverseSnoc(s[1..]);
      assert s[1..][..n - 1] == s[..n][1..];
      assert s[1..][n - 1] == s[n];
      assert s[..n][0] == s[0];
    } else {
      assert s[..n] == [];
    }
  }

  lemma ReverseInvolution<T>(s: seq<T>)
    ensures Reverse(Reverse(s)) == s
  {
  }
}

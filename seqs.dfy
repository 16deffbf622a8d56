/** Order-preserving selection from a sequence (`filter`), and the
    subsequence relation that describes it. */
module Seqs {

  /** `a` is `b` with some elements left out, the rest in their order. */
  predicate IsSubsequence<T(==)>(a: seq<T>, b: seq<T>)
    decreases |b|
  {
    if a == [] then true
    else if b == [] then false
    else if a[0] == b[0] then IsSubsequence(a[1..], b[1..])
    else IsSubsequence(a, b[1..])
  }

  lemma {:induction false} SubsequenceOfTail<T>(a: seq<T>, x: T, b: seq<T>)
    requires IsSubsequence(a, b)
    ensures IsSubsequence(a, [x] + b)
    decreases |a| + |b| + 1
  {
    var xb := [x] + b;
    assert xb[1..] == b;
    if a != [] && a[0] == x {
      assert b != [];
      SubsequenceDropHead(a, b);
    }
  }

  /** Dropping the first element of `a` keeps it a subsequence. */
  lemma {:induction false} SubsequenceDropHead<T>(a: seq<T>, b: seq<T>)
    requires a != [] && IsSubsequence(a, b)
    ensures IsSubsequence(a[1..], b)
    decreases |a| + |b|
  {
    assert b != [];
    if a[0] == b[0] {
      SubsequenceOfTail(a[1..], b[0], b[1..]);
      assert [b[0]] + b[1..] == b;
    } else {
      SubsequenceDropHead(a, b[1..]);
      SubsequenceOfTail(a[1..], b[0], b[1..]);
      assert [b[0]] + b[1..] == b;
    }
  }

  lemma {:induction false} SubsequenceLength<T>(a: seq<T>, b: seq<T>)
    requires IsSubsequence(a, b)
    ensures |a| <= |b|
    decreases |b|
  {
    if a != [] {
      if a[0] == b[0] {
        SubsequenceLength(a[1..], b[1..]);
      } else {
        SubsequenceLength(a, b[1..]);
      }
    }
  }

  /** The elements of `s` that satisfy `keep`, in their order. */
  function Filter<T>(keep: T -> bool, s: seq<T>): (r: seq<T>)
    ensures |r| <= |s|
  {
    if s == [] then []
    else if keep(s[0]) then [s[0]] + Filter(keep, s[1..])
    else Filter(keep, s[1..])
  }

  /** Each value occurs in the result as often as in `s` when it passes,
      and not at all otherwise, so duplicates are kept one for one. */
  lemma {:induction false} FilterCounts<T>(keep: T -> bool, s: seq<T>, x: T)
    ensures multiset(Filter(keep, s))[x] == if keep(x) then multiset(s)[x] else 0
  {
    if s != [] {
      FilterCounts(keep, s[1..], x);
      assert s == [s[0]] + s[1..];
    }
  }

  /** Everything kept is an element that passes, and every element that
      passes is kept. */
  lemma {:induction false} FilterMembers<T>(keep: T -> bool, s: seq<T>)
    ensures forall i :: 0 <= i < |Filter(keep, s)| ==> Filter(keep, s)[i] in s && keep(Filter(keep, s)[i])
    ensures forall i :: 0 <= i < |s| && keep(s[i]) ==> s[i] in Filter(keep, s)
  {
    if s != [] {
      FilterMembers(keep, s[1..]);
      var r := Filter(keep, s);
      var rest := Filter(keep, s[1..]);
      forall i | 0 <= i < |r| ensures r[i] in s && keep(r[i]) {
        if keep(s[0]) && i > 0 {
          assert r[i] == rest[i - 1];
        }
      }
      forall i | 0 <= i < |s| && keep(s[i]) ensures s[i] in r {
        if i > 0 {
          assert s[i] == s[1..][i - 1];
        }
      }
    }
  }

  lemma {:induction false} FilterIsSubsequence<T>(keep: T -> bool, s: seq<T>)
    ensures IsSubsequence(Filter(keep, s), s)
  {
    if s != [] {
      FilterIsSubsequence(keep, s[1..]);
      var r := Filter(keep, s);
      if keep(s[0]) {
        assert r[0] == s[0] && r[1..] == Filter(keep, s[1..]);
      } else {
        SubsequenceOfTail(r, s[0], s[1..]);
        assert [s[0]] + s[1..] == s;
      }
    }
  }

  /** Keeping everything changes nothing. */
  lemma {:induction false} FilterAll<T>(keep: T -> bool, s: seq<T>)
    requires forall i :: 0 <= i < |s| ==> keep(s[i])
    ensures Filter(keep, s) == s
  {
    if s != [] {
      FilterAll(keep, s[1..]);
      assert [s[0]] + s[1..] == s;
    }
  }

  lemma {:induction false} FilterConcat<T>(keep: T -> bool, a: seq<T>, b: seq<T>)
    ensures Filter(keep, a + b) == Filter(keep, a) + Filter(keep, b)
  {
    if a == [] {
      assert a + b == b;
    } else {
      assert (a + b)[0] == a[0] && (a + b)[1..] == a[1..] + b;
      FilterConcat(keep, a[1..], b);
    }
  }

  /** Filtering twice is filtering once by both conditions. */
  lemma {:induction false} FilterFilter<T>(first: T -> bool, second: T -> bool, both: T -> bool, s: seq<T>)
    requires forall x :: both(x) == (first(x) && second(x))
    ensures Filter(second, Filter(first, s)) == Filter(both, s)
  {
    if s != [] {
      FilterFilter(first, second, both, s[1..]);
    }
  }

  /** Filtering out a single element removes exactly its position. */
  lemma FilterDropsOne<T>(keep: T -> bool, s: seq<T>, i: nat)
    requires i < |s| && !keep(s[i])
    requires forall k :: 0 <= k < |s| && k != i ==> keep(s[k])
    ensures Filter(keep, s) == s[..i] + s[i + 1..]
  {
    var before, after := s[..i], s[i + 1..];
    forall k | 0 <= k < |before| ensures keep(before[k]) {
      assert before[k] == s[k];
    }
    FilterAll(keep, before);
    forall k | 0 <= k < |after| ensures keep(after[k]) {
      assert after[k] == s[i + 1 + k];
    }
    FilterAll(keep, after);
    FilterAroundOne(keep, s, i);
  }

  lemma FilterAroundOne<T>(keep: T -> bool, s: seq<T>, i: nat)
    requires i < |s| && !keep(s[i])
    requires Filter(keep, s[..i]) == s[..i] && Filter(keep, s[i + 1..]) == s[i + 1..]
    ensures Filter(keep, s) == s[..i] + s[i + 1..]
  {
    SplitAt(s, i);
    FilterSkips(keep, s[..i], s[i], s[i + 1..]);
  }

  lemma SplitAt<T>(s: seq<T>, i: nat)
    requires i < |s|
    ensures s == s[..i] + ([s[i]] + s[i + 1..])
  {
  }

  lemma FilterSkips<T>(keep: T -> bool, a: seq<T>, x: T, b: seq<T>)
    requires !keep(x) && Filter(keep, a) == a && Filter(keep, b) == b
    ensures Filter(keep, a + ([x] + b)) == a + b
  {
    assert ([x] + b)[0] == x && ([x] + b)[1..] == b;
    FilterConcat(keep, a, [x] + b);
  }
}

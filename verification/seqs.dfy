/** The array operations the dashboard code uses on lists: `Array.prototype.filter`,
    removal at an index (`splice(i, 1)` or `filter((_, j) => j !== i)`), and the
    subsequence relation that states what a filter keeps. */
module Seqs {

  /** `a` is `b` with some elements left out and the rest in their original order. */
  predicate Subseq<T(==)>(a: seq<T>, b: seq<T>)
    decreases |b|
  {
    if |a| == 0 then true
    else if |b| == 0 then false
    else (a[0] == b[0] && Subseq(a[1..], b[1..])) || Subseq(a, b[1..])
  }

  /** Every list is a subsequence of itself. */
  lemma {:induction false} SubseqRefl<T>(s: seq<T>)
    ensures Subseq(s, s)
    decreases |s|
  {
    if |s| > 0 {
      SubseqRefl(s[1..]);
    }
  }

  /** `s.filter((y) => y !== x)`: every occurrence of `x` removed, the rest in order. */
  function RemoveAll<T(==,!new)>(s: seq<T>, x: T): (r: seq<T>)
    ensures forall y :: y in r <==> y in s && y != x
    ensures forall y :: multiset(r)[y] == if y == x then 0 else multiset(s)[y]
    ensures Subseq(r, s)
  {
    Filter(s, y => y != x)
  }

  /** Removing a value that was appended to a list without it gives the list back. */
  lemma {:induction false} RemoveAllAppend<T(!new)>(s: seq<T>, x: T)
    requires x !in s
    ensures RemoveAll(s + [x], x) == s
    decreases |s|
  {
    if |s| > 0 {
      assert (s + [x])[1..] == s[1..] + [x];
      RemoveAllAppend(s[1..], x);
      assert s == [s[0]] + s[1..];
    } else {
      assert [x][1..] == [];
    }
  }

  /** `s.filter(p)`: keeps exactly the elements satisfying `p`, each as often as it occurs
      in `s`, in order. */
  function Filter<T(==,!new)>(s: seq<T>, p: T -> bool): (r: seq<T>)
    ensures |r| <= |s|
    ensures forall x :: x in r <==> x in s && p(x)
    ensures forall x :: multiset(r)[x] == if p(x) then multiset(s)[x] else 0
    ensures Subseq(r, s)
    ensures (forall i :: 0 <= i < |s| ==> p(s[i])) ==> r == s
  {
    if |s| == 0 then []
    else
      var rest := Filter(s[1..], p);
      assert s == [s[0]] + s[1..];
      assert multiset(s) == multiset{s[0]} + multiset(s[1..]);
      if p(s[0]) then
        var r := [s[0]] + rest;
        assert r[0] == s[0] && r[1..] == rest;
        assert multiset(r) == multiset{s[0]} + multiset(rest);
        r
      else
        rest
  }

  /** Filtering distributes over concatenation. */
  lemma {:induction false} FilterAppend<T(!new)>(a: seq<T>, b: seq<T>, p: T -> bool)
    ensures Filter(a + b, p) == Filter(a, p) + Filter(b, p)
  {
    if |a| > 0 {
      assert (a + b)[1..] == a[1..] + b;
      FilterAppend(a[1..], b, p);
    } else {
      assert a + b == b;
    }
  }

  /** Filtering twice with the same predicate is filtering once. */
  lemma {:induction false} FilterIdempotent<T(!new)>(s: seq<T>, p: T -> bool)
    ensures Filter(Filter(s, p), p) == Filter(s, p)
  {
    if |s| > 0 {
      FilterIdempotent(s[1..], p);
    }
  }

  /** The list without its element at index `i`. */
  function RemoveAt<T>(s: seq<T>, i: nat): (r: seq<T>)
    requires i < |s|
    ensures |r| == |s| - 1
    ensures forall j :: 0 <= j < i ==> r[j] == s[j]
    ensures forall j :: i <= j < |r| ==> r[j] == s[j + 1]
  {
    s[..i] + s[i + 1..]
  }

  /** Every element occurs at most once. */
  predicate NoDup<T(==)>(s: seq<T>) {
    forall i, j :: 0 <= i < j < |s| ==> s[i] != s[j]
  }

  /** A subsequence of a duplicate-free list is duplicate-free. */
  lemma {:induction false} SubseqNoDup<T(!new)>(a: seq<T>, b: seq<T>)
    requires Subseq(a, b) && NoDup(b)
    ensures NoDup(a)
    decreases |b|
  {
    if |a| > 0 {
      assert NoDup(b[1..]);
      if a[0] == b[0] && Subseq(a[1..], b[1..]) {
        SubseqNoDup(a[1..], b[1..]);
        SubseqElements(a[1..], b[1..]);
        assert b[0] !in b[1..];
        forall i, j | 0 <= i < j < |a| ensures a[i] != a[j] {
          assert a[j] == a[1..][j - 1];
          if i > 0 {
            assert a[i] == a[1..][i - 1];
          } else {
            assert a[j] in b[1..];
          }
        }
      } else {
        SubseqNoDup(a, b[1..]);
      }
    }
  }

  /** Every element of a subsequence is an element of the list. */
  lemma {:induction false} SubseqElements<T(!new)>(a: seq<T>, b: seq<T>)
    requires Subseq(a, b)
    ensures forall x :: x in a ==> x in b
    decreases |b|
  {
    if |a| > 0 {
      if a[0] == b[0] && Subseq(a[1..], b[1..]) {
        SubseqElements(a[1..], b[1..]);
        assert a == [a[0]] + a[1..];
      } else {
        SubseqElements(a, b[1..]);
      }
    }
  }

  /** When every element the predicate rejects equals `x`, filtering removes at most the
      occurrences of `x`. */
  lemma {:induction false} FilterDropsOnly<T(!new)>(s: seq<T>, p: T -> bool, x: T)
    requires forall i :: 0 <= i < |s| && !p(s[i]) ==> s[i] == x
    ensures |Filter(s, p)| >= |s| - multiset(s)[x]
  {
    if |s| > 0 {
      var t := s[1..];
      assert forall i :: 0 <= i < |t| ==> t[i] == s[i + 1];
      FilterDropsOnly(t, p, x);
      assert s == [s[0]] + t;
      assert multiset(s) == multiset{s[0]} + multiset(t);
      if p(s[0]) {
        assert Filter(s, p) == [s[0]] + Filter(t, p);
      } else {
        assert s[0] == x;
        assert Filter(s, p) == Filter(t, p);
      }
    }
  }
}

/** Sequence helpers shared by the card game and the sketchpad experiment:
    integer ranges (`_.range`), element-wise maps, distinctness, and the
    multiset facts that let a shuffle (an arbitrary permutation) be reasoned
    about. */
module SeqUtil {

  /** `_.range(lo, hi)`: lo, lo+1, ..., hi-1, empty when hi <= lo. */
  function Range(lo: int, hi: int): (r: seq<int>)
    ensures |r| == if hi > lo then hi - lo else 0
    ensures forall i :: 0 <= i < |r| ==> r[i] == lo + i
  {
    seq(if hi > lo then hi - lo else 0, i => lo + i)
  }

  lemma InRange(lo: int, hi: int, x: int)
    ensures x in Range(lo, hi) <==> lo <= x < hi
  {
    if lo <= x < hi {
      assert Range(lo, hi)[x - lo] == x;
    }
  }

  lemma RangeDistinct(lo: int, hi: int)
    ensures Distinct(Range(lo, hi))
  {
    var r := Range(lo, hi);
    forall i, j | 0 <= i < j < |r| ensures r[i] != r[j] {
      assert r[i] == lo + i && r[j] == lo + j;
    }
  }

  lemma PermutationSameLength<T>(s: seq<T>, t: seq<T>)
    requires IsPermutationOf(s, t)
    ensures |s| == |t|
  {
    assert |s| == |multiset(s)| == |multiset(t)| == |t|;
  }

  /** A rearrangement of 0..n-1 holds exactly the values 0..n-1. */
  lemma RangePermutationMembers(s: seq<int>, n: int)
    requires IsPermutationOf(s, Range(0, n))
    ensures forall x :: x in s <==> 0 <= x < n
  {
    forall x ensures x in s <==> 0 <= x < n {
      assert x in s <==> x in multiset(Range(0, n));
      InRange(0, n, x);
    }
  }

  /** Element-wise map (`Array.prototype.map`, `_.map`). */
  function Apply<T, U>(s: seq<T>, f: T -> U): (r: seq<U>)
    ensures |r| == |s|
    ensures forall i :: 0 <= i < |s| ==> r[i] == f(s[i])
  {
    seq(|s|, i requires 0 <= i < |s| => f(s[i]))
  }

  lemma ApplyConcat<T, U>(a: seq<T>, b: seq<T>, f: T -> U)
    ensures Apply(a + b, f) == Apply(a, f) + Apply(b, f)
  {
  }

  /** No element occurs twice. */
  predicate Distinct<T(==)>(s: seq<T>)
  {
    forall i, j :: 0 <= i < j < |s| ==> s[i] != s[j]
  }

  /** `s` is a rearrangement of `t`, as every shuffle result is. */
  predicate IsPermutationOf<T(==)>(s: seq<T>, t: seq<T>)
  {
    multiset(s) == multiset(t)
  }

  lemma {:induction false} DistinctMultiplicity<T>(s: seq<T>, x: T)
    requires Distinct(s)
    ensures multiset(s)[x] <= 1
  {
    if s != [] {
      assert s == [s[0]] + s[1..];
      DistinctMultiplicity(s[1..], x);
      if x == s[0] {
        assert x !in s[1..];
      }
    }
  }

  lemma RepeatedMultiplicity<T>(s: seq<T>, i: int, j: int)
    requires 0 <= i < j < |s| && s[i] == s[j]
    ensures multiset(s)[s[i]] >= 2
  {
    assert s == s[..j] + [s[j]] + s[j + 1..];
    assert s[..j][i] == s[i];
    assert s[i] in multiset(s[..j]);
  }

  /** A rearrangement of a sequence without repetitions has none either. */
  lemma PermutationKeepsDistinct<T>(s: seq<T>, t: seq<T>)
    requires IsPermutationOf(s, t) && Distinct(t)
    ensures Distinct(s)
  {
    forall i, j | 0 <= i < j < |s|
      ensures s[i] != s[j]
    {
      if s[i] == s[j] {
        RepeatedMultiplicity(s, i, j);
        DistinctMultiplicity(t, s[i]);
        assert false;
      }
    }
  }

  /** No element of `a` equals an element of `b`. */
  predicate Disjoint<T(==)>(a: seq<T>, b: seq<T>)
  {
    forall i, j :: 0 <= i < |a| && 0 <= j < |b| ==> a[i] != b[j]
  }

  /** The two halves of a sequence without repetitions have no repetitions
      and share no element. */
  lemma DistinctHalves<T>(a: seq<T>, b: seq<T>)
    requires Distinct(a + b)
    ensures Distinct(a) && Distinct(b) && Disjoint(a, b)
  {
    var s := a + b;
    forall i, j | 0 <= i < j < |a| ensures a[i] != a[j] {
      assert s[i] == a[i] && s[j] == a[j];
    }
    forall i, j | 0 <= i < j < |b| ensures b[i] != b[j] {
      assert s[|a| + i] == b[i] && s[|a| + j] == b[j];
    }
    forall i, j | 0 <= i < |a| && 0 <= j < |b| ensures a[i] != b[j] {
      assert s[i] == a[i] && s[|a| + j] == b[j];
    }
  }

  lemma MultisetRemove<T>(b: seq<T>, i: int)
    requires 0 <= i < |b|
    ensures multiset(b) == multiset(b[..i] + b[i + 1..]) + multiset{b[i]}
  {
    assert b == b[..i] + [b[i]] + b[i + 1..];
  }

  /** Removing position `i` before or after mapping gives the same multiset. */
  lemma ApplyRemove<T, U>(b: seq<T>, i: int, f: T -> U)
    requires 0 <= i < |b|
    ensures multiset(Apply(b, f)) == multiset(Apply(b[..i] + b[i + 1..], f)) + multiset{f(b[i])}
  {
    var fb := Apply(b, f);
    MultisetRemove(fb, i);
    assert fb[..i] + fb[i + 1..] == Apply(b[..i] + b[i + 1..], f);
  }

  /** Two rearrangements of each other, each with one occurrence of `a[0]`
      taken out, are still rearrangements of each other. */
  lemma RemoveBoth<T>(a: seq<T>, b: seq<T>) returns (j: int)
    requires IsPermutationOf(a, b) && |a| > 0
    ensures 0 <= j < |b| && b[j] == a[0]
    ensures IsPermutationOf(a[1..], b[..j] + b[j + 1..])
  {
    var x := a[0];
    assert x in multiset(b);
    j :| 0 <= j < |b| && b[j] == x;
    MultisetRemove(b, j);
    assert a == [x] + a[1..];
    assert multiset(a[1..]) == multiset(a) - multiset{x};
  }

  /** Mapping two rearrangements of each other gives rearrangements of each other. */
  lemma {:induction false} ApplyKeepsPermutation<T, U>(a: seq<T>, b: seq<T>, f: T -> U)
    requires IsPermutationOf(a, b)
    ensures IsPermutationOf(Apply(a, f), Apply(b, f))
    decreases |a|
  {
    if a == [] {
      assert |b| == |multiset(b)| == 0;
    } else {
      var j := RemoveBoth(a, b);
      var rest := b[..j] + b[j + 1..];
      ApplyKeepsPermutation(a[1..], rest, f);
      ApplyRemove(b, j, f);
      var fa := Apply(a, f);
      assert fa == [f(a[0])] + Apply(a[1..], f);
    }
  }

  /** The entries of an index permutation of 0..n-1 are valid indices. */
  lemma IndexPermutationInBounds(order: seq<int>, n: int)
    requires IsPermutationOf(order, Range(0, n))
    ensures forall j :: 0 <= j < |order| ==> 0 <= order[j] < n
  {
    forall j | 0 <= j < |order|
      ensures 0 <= order[j] < n
    {
      assert order[j] in multiset(Range(0, n));
      InRange(0, n, order[j]);
    }
  }

  /** `s` read through the index sequence `order`. */
  function Permute<T>(s: seq<T>, order: seq<int>): (r: seq<T>)
    requires forall j :: 0 <= j < |order| ==> 0 <= order[j] < |s|
    ensures |r| == |order|
    ensures forall j :: 0 <= j < |order| ==> r[j] == s[order[j]]
  {
    seq(|order|, j requires 0 <= j < |order| => s[order[j]])
  }

  /** Indexing into `s` as a total function, `d` outside the bounds. */
  function Lookup<T>(s: seq<T>, d: T): int -> T
  {
    k => if 0 <= k < |s| then s[k] else d
  }

  lemma LookupRange<T>(s: seq<T>, d: T)
    ensures Apply(Range(0, |s|), Lookup(s, d)) == s
  {
    var whole := Apply(Range(0, |s|), Lookup(s, d));
    forall k | 0 <= k < |s| ensures whole[k] == s[k] {
      assert Range(0, |s|)[k] == k;
    }
  }

  lemma LookupPermute<T>(s: seq<T>, d: T, order: seq<int>)
    requires forall j :: 0 <= j < |order| ==> 0 <= order[j] < |s|
    ensures Apply(order, Lookup(s, d)) == Permute(s, order)
  {
  }

  /** Reading `s` through an index permutation of 0..|s|-1 (how a shuffle of
      `s` is given here) rearranges `s`. */
  lemma PermuteRearranges<T>(s: seq<T>, order: seq<int>)
    requires IsPermutationOf(order, Range(0, |s|))
    ensures forall j :: 0 <= j < |order| ==> 0 <= order[j] < |s|
    ensures IsPermutationOf(Permute(s, order), s)
  {
    IndexPermutationInBounds(order, |s|);
    if |s| == 0 {
      assert |order| == |multiset(order)| == 0;
    } else {
      ApplyKeepsPermutation(order, Range(0, |s|), Lookup(s, s[0]));
      LookupRange(s, s[0]);
      LookupPermute(s, s[0], order);
    }
  }

  /** How many elements satisfy `p`. */
  function CountWhere<T>(s: seq<T>, p: T -> bool): (n: nat)
    ensures n <= |s|
  {
    if s == [] then 0 else (if p(s[0]) then 1 else 0) + CountWhere(s[1..], p)
  }

  lemma {:induction false} CountWhereConcat<T>(a: seq<T>, b: seq<T>, p: T -> bool)
    ensures CountWhere(a + b, p) == CountWhere(a, p) + CountWhere(b, p)
  {
    if a != [] {
      assert (a + b)[0] == a[0];
      assert (a + b)[1..] == a[1..] + b;
      CountWhereConcat(a[1..], b, p);
    } else {
      assert a + b == b;
    }
  }

  lemma CountWhereRemove<T>(b: seq<T>, i: int, p: T -> bool)
    requires 0 <= i < |b|
    ensures CountWhere(b, p) == CountWhere(b[..i] + b[i + 1..], p) + (if p(b[i]) then 1 else 0)
  {
    var pre, tail, post := b[..i], b[i..], b[i + 1..];
    assert b == pre + tail;
    CountWhereConcat(pre, tail, p);
    assert tail[0] == b[i] && tail[1..] == post;
    CountWhereConcat(pre, post, p);
  }

  lemma {:induction false} CountWherePermutation<T>(a: seq<T>, b: seq<T>, p: T -> bool)
    requires IsPermutationOf(a, b)
    ensures CountWhere(a, p) == CountWhere(b, p)
    decreases |a|
  {
    if a == [] {
      assert |b| == |multiset(b)| == 0;
    } else {
      var j := RemoveBoth(a, b);
      CountWherePermutation(a[1..], b[..j] + b[j + 1..], p);
      CountWhereRemove(b, j, p);
    }
  }
}

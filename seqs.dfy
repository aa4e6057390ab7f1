/**
 * The array operations the pages rely on: `Array.prototype.filter`, the
 * first-occurrence de-duplication of `Array.from(new Set(xs))`, and the
 * notions used to state what they produce (subsequence, no duplicates,
 * first occurrence).
 */
module Seqs {

  /** `s.filter(p)`: the elements satisfying `p`, in their original order. */
  function Filter<T>(s: seq<T>, p: T -> bool): (r: seq<T>)
    ensures |r| <= |s|
    ensures forall x :: x in r ==> x in s && p(x)
  {
    if s == [] then []
    else (if p(s[0]) then [s[0]] else []) + Filter(s[1..], p)
  }

  lemma {:induction false} FilterConcat<T>(a: seq<T>, b: seq<T>, p: T -> bool)
    ensures Filter(a + b, p) == Filter(a, p) + Filter(b, p)
  {
    if a != [] {
      assert (a + b)[0] == a[0];
      assert (a + b)[1..] == a[1..] + b;
      FilterConcat(a[1..], b, p);
      calc {
        Filter(a + b, p);
        (if p(a[0]) then [a[0]] else []) + Filter(a[1..] + b, p);
        (if p(a[0]) then [a[0]] else []) + (Filter(a[1..], p) + Filter(b, p));
      }
    } else {
      assert a + b == b;
    }
  }

  /** Each occurrence is kept exactly when it satisfies the predicate. */
  lemma {:induction false} FilterCount<T>(s: seq<T>, p: T -> bool, x: T)
    ensures multiset(Filter(s, p))[x] == if p(x) then multiset(s)[x] else 0
  {
    if s != [] {
      FilterCount(s[1..], p, x);
      assert s == [s[0]] + s[1..];
    }
  }

  lemma FilterCounts<T>(s: seq<T>, p: T -> bool)
    ensures forall x :: multiset(Filter(s, p))[x] == if p(x) then multiset(s)[x] else 0
  {
    forall x
      ensures multiset(Filter(s, p))[x] == if p(x) then multiset(s)[x] else 0
    {
      FilterCount(s, p, x);
    }
  }

  /** A filter whose predicate holds of every element returns its input. */
  lemma {:induction false} FilterAll<T>(s: seq<T>, p: T -> bool)
    requires forall x :: x in s ==> p(x)
    ensures Filter(s, p) == s
  {
    if s != [] {
      FilterAll(s[1..], p);
      assert s == [s[0]] + s[1..];
    }
  }

  /** Two predicates that agree on every element filter alike. */
  lemma {:induction false} FilterAgree<T>(s: seq<T>, p: T -> bool, q: T -> bool)
    requires forall x :: x in s ==> p(x) == q(x)
    ensures Filter(s, p) == Filter(s, q)
  {
    if s != [] {
      FilterAgree(s[1..], p, q);
    }
  }

  /** `t` is `s` with some elements removed: it is picked out of `s` by
      strictly increasing positions. */
  ghost predicate SubsequenceOf<T>(t: seq<T>, s: seq<T>) {
    exists idx: seq<nat> :: IsEmbedding(idx, t, s)
  }

  ghost predicate IsEmbedding<T>(idx: seq<nat>, t: seq<T>, s: seq<T>) {
    && |idx| == |t|
    && (forall i :: 0 <= i < |idx| ==> idx[i] < |s| && s[idx[i]] == t[i])
    && (forall i, j :: 0 <= i < j < |idx| ==> idx[i] < idx[j])
  }

  lemma {:induction false} FilterEmbedding<T>(s: seq<T>, p: T -> bool) returns (idx: seq<nat>)
    ensures IsEmbedding(idx, Filter(s, p), s)
  {
    if s == [] {
      idx := [];
    } else {
      var tail := Filter(s[1..], p);
      var rest := FilterEmbedding(s[1..], p);
      var shifted := ShiftEmbedding(rest, tail, s);
      if p(s[0]) {
        idx := [0] + shifted;
        assert Filter(s, p) == [s[0]] + tail;
        ConsEmbedding(shifted, tail, s);
      } else {
        idx := shifted;
        assert Filter(s, p) == tail;
      }
    }
  }

  /** An embedding into the tail of `s`, moved one place on, embeds into `s`. */
  lemma ShiftEmbedding<T>(idx: seq<nat>, t: seq<T>, s: seq<T>) returns (shifted: seq<nat>)
    requires s != [] && IsEmbedding(idx, t, s[1..])
    ensures IsEmbedding(shifted, t, s)
    ensures forall i :: 0 <= i < |shifted| ==> shifted[i] > 0
  {
    shifted := seq(|idx|, i requires 0 <= i < |idx| => idx[i] + 1);
    forall i | 0 <= i < |shifted|
      ensures shifted[i] < |s| && s[shifted[i]] == t[i]
    {
      assert s[1..][idx[i]] == t[i];
    }
  }

  /** Keeping the head of `s` in front of an embedding that avoids it. */
  lemma ConsEmbedding<T>(idx: seq<nat>, t: seq<T>, s: seq<T>)
    requires s != [] && IsEmbedding(idx, t, s)
    requires forall i :: 0 <= i < |idx| ==> idx[i] > 0
    ensures IsEmbedding([0] + idx, [s[0]] + t, s)
  {
    var idx', t' := [0] + idx, [s[0]] + t;
    forall i, j | 0 <= i < j < |idx'|
      ensures idx'[i] < idx'[j]
    {
      if i > 0 {
        assert idx'[i] == idx[i - 1] && idx'[j] == idx[j - 1];
      }
    }
    forall i | 0 <= i < |idx'|
      ensures idx'[i] < |s| && s[idx'[i]] == t'[i]
    {
      if i > 0 {
        assert idx'[i] == idx[i - 1] && t'[i] == t[i - 1];
      }
    }
  }

  lemma FilterIsSubsequence<T>(s: seq<T>, p: T -> bool)
    ensures SubsequenceOf(Filter(s, p), s)
  {
    var idx := FilterEmbedding(s, p);
  }

  predicate NoDuplicates<T(==)>(s: seq<T>) {
    forall i, j :: 0 <= i < j < |s| ==> s[i] != s[j]
  }

  /** Position of the first occurrence of `x` in `s`. */
  function FirstIndex<T(==)>(s: seq<T>, x: T): (k: nat)
    requires x in s
    ensures k < |s| && s[k] == x
    ensures forall j :: 0 <= j < k ==> s[j] != x
  {
    if s[0] == x then 0 else 1 + FirstIndex(s[1..], x)
  }

  lemma {:induction false} FirstIndexPrefix<T>(s: seq<T>, n: nat, x: T)
    requires n <= |s| && x in s[..n]
    ensures FirstIndex(s, x) == FirstIndex(s[..n], x)
  {
    var k, k' := FirstIndex(s, x), FirstIndex(s[..n], x);
    assert s[k'] == x;
    assert k <= k';
    assert s[..n][k] == x;
  }

  /** `Array.from(new Set(s))`: a Set iterates in insertion order, so each
      value appears once, at the place of its first occurrence. */
  function Distinct<T(==)>(s: seq<T>): (r: seq<T>)
    ensures NoDuplicates(r)
    ensures forall x :: x in r ==> x in s
    ensures forall x :: x in s ==> x in r
  {
    if s == [] then []
    else
      var prefix := Distinct(s[..|s| - 1]);
      var last := s[|s| - 1];
      assert s == s[..|s| - 1] + [last];
      if last in prefix then prefix else prefix + [last]
  }

  /** The values of `Distinct(s)` come in the order of their first occurrence in `s`. */
  lemma {:induction false} DistinctFirstOccurrenceOrder<T>(s: seq<T>)
    ensures forall i, j :: 0 <= i < j < |Distinct(s)| ==>
      FirstIndex(s, Distinct(s)[i]) < FirstIndex(s, Distinct(s)[j])
  {
    if s != [] {
      var n := |s| - 1;
      var init := s[..n];
      DistinctFirstOccurrenceOrder(init);
      var d, d' := Distinct(s), Distinct(init);
      forall i, j | 0 <= i < j < |d|
        ensures FirstIndex(s, d[i]) < FirstIndex(s, d[j])
      {
        assert d[i] == d'[i];
        FirstIndexPrefix(s, n, d[i]);
        if j < |d'| {
          assert d[j] == d'[j];
          FirstIndexPrefix(s, n, d[j]);
        } else {
          assert d[j] == s[n] && s[n] !in init;
          assert FirstIndex(s, d[j]) == n;
        }
      }
    }
  }
}

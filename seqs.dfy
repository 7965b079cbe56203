/**
 * Sequence helpers shared by the model: order-preserving filtering (the
 * Python list comprehensions), first-occurrence de-duplication (the
 * `processed_pairs` set, the `unique_matches` dict and `set(teams)`), and
 * distinctness.
 */
module Seqs {

  /** No element occurs twice. */
  predicate Distinct<T(==)>(s: seq<T>) {
    forall i, j :: 0 <= i < j < |s| ==> s[i] != s[j]
  }

  /**
   * Keeping the last element of a distinct sequence after a selection of
   * the elements before it keeps the result distinct.
   */
  lemma SelectionKeepsDistinct<T>(s: seq<T>, pre: seq<T>)
    requires |s| > 0
    requires forall y :: y in pre ==> y in s[..|s| - 1]
    requires Distinct(s[..|s| - 1]) ==> Distinct(pre)
    ensures Distinct(s) ==> Distinct(pre + [s[|s| - 1]])
  {
    if Distinct(s) {
      var x := s[|s| - 1];
      assert Distinct(s[..|s| - 1]);
      assert x !in s[..|s| - 1];
      assert x !in pre;
    }
  }

  lemma AppendAssociative<T>(a: seq<T>, b: seq<T>, c: seq<T>)
    ensures (a + b) + c == a + (b + c)
  {
  }

  /** A sequence around its k-th element. */
  lemma SplitAround<T>(m: seq<T>, k: nat)
    requires k < |m|
    ensures m == m[..k] + ([m[k]] + m[k + 1..])
  {
  }

  lemma UnionAssociative<T>(a: set<T>, b: set<T>, c: set<T>)
    ensures (a + b) + c == a + (b + c)
  {
  }

  /** Taking the middle part out of a concatenation of three, counted as multisets. */
  lemma MultisetMiddle<T>(a: seq<T>, b: seq<T>, c: seq<T>)
    ensures multiset((a + b) + c) == multiset(a + c) + multiset(b)
  {
  }

  /** Taking the middle part out of a union of three. */
  lemma UnionMiddle<T>(a: set<T>, b: set<T>, c: set<T>)
    ensures (a + b) + c == b + (a + c)
  {
  }

  /** `q` is obtained from `s` by deleting elements, keeping the order of the rest. */
  predicate IsSubsequence<T(==)>(q: seq<T>, s: seq<T>)
    decreases |s|
  {
    if |q| == 0 then true
    else if |s| == 0 then false
    else (q[|q| - 1] == s[|s| - 1] && IsSubsequence(q[..|q| - 1], s[..|s| - 1]))
         || IsSubsequence(q, s[..|s| - 1])
  }

  lemma {:induction false} SubsequenceMembers<T>(q: seq<T>, s: seq<T>)
    requires IsSubsequence(q, s)
    ensures forall x :: x in q ==> x in s
    decreases |s|
  {
    if |q| > 0 && |s| > 0 {
      var q', s' := q[..|q| - 1], s[..|s| - 1];
      if q[|q| - 1] == s[|s| - 1] && IsSubsequence(q', s') {
        SubsequenceMembers(q', s');
        assert q == q' + [q[|q| - 1]];
      } else {
        SubsequenceMembers(q, s');
      }
      assert s == s' + [s[|s| - 1]];
    }
  }

  /** The elements of `s` that satisfy `p`, in the order of `s`. */
  function Filter<T(!new)>(s: seq<T>, p: T -> bool): (r: seq<T>)
    ensures forall x :: x in r <==> x in s && p(x)
    ensures forall x :: p(x) ==> multiset(r)[x] == multiset(s)[x]
    ensures IsSubsequence(r, s)
    ensures |r| <= |s|
    decreases |s|
  {
    if |s| == 0 then []
    else
      var pre, x := Filter(s[..|s| - 1], p), s[|s| - 1];
      assert s == s[..|s| - 1] + [x];
      if p(x) then pre + [x] else pre
  }

  /** `f` applied to each element of `s`, in order. */
  function Map<A, B>(f: A -> B, s: seq<A>): (r: seq<B>)
    ensures |r| == |s|
    decreases |s|
  {
    if |s| == 0 then [] else Map(f, s[..|s| - 1]) + [f(s[|s| - 1])]
  }

  lemma {:induction false} MapAt<A, B>(f: A -> B, s: seq<A>, i: nat)
    requires i < |s|
    ensures Map(f, s)[i] == f(s[i])
    decreases |s|
  {
    var n := |s| - 1;
    if i < n {
      MapAt(f, s[..n], i);
    }
  }

  lemma MapPush<A, B>(f: A -> B, s: seq<A>, i: nat)
    requires i < |s|
    ensures Map(f, s[..i + 1]) == Map(f, s[..i]) + [f(s[i])]
  {
    assert s[..i + 1][..i] == s[..i];
  }

  /** Mapping a concatenation maps each part. */
  lemma {:induction false} MapConcat<A, B>(f: A -> B, a: seq<A>, b: seq<A>)
    ensures Map(f, a + b) == Map(f, a) + Map(f, b)
    decreases |b|
  {
    if |b| > 0 {
      var b', x := b[..|b| - 1], b[|b| - 1];
      assert (a + b)[..|a + b| - 1] == a + b';
      MapConcat(f, a, b');
    } else {
      assert a + b == a;
    }
  }

  /** The set of keys of the elements of `s`. */
  function KeysOf<T(==), K(==)>(s: seq<T>, key: T -> K): set<K> {
    set x | x in s :: key(x)
  }

  lemma KeysOfAppend<T, K>(s: seq<T>, x: T, key: T -> K)
    ensures KeysOf(s + [x], key) == KeysOf(s, key) + {key(x)}
  {
    assert forall y :: y in s + [x] <==> y in s || y == x;
  }

  /**
   * The first element of `s` for every key, in the order of `s`: what a
   * loop keeps that skips an element whose key it has already seen.
   */
  function DedupBy<T(==), K(==)>(s: seq<T>, key: T -> K): (r: seq<T>)
    ensures IsSubsequence(r, s)
    ensures forall i, j :: 0 <= i < j < |r| ==> key(r[i]) != key(r[j])
    ensures KeysOf(r, key) == KeysOf(s, key)
    decreases |s|
  {
    if |s| == 0 then []
    else
      var pre, x := DedupBy(s[..|s| - 1], key), s[|s| - 1];
      assert s == s[..|s| - 1] + [x];
      SubsequenceMembers(pre, s[..|s| - 1]);
      KeysOfAppend(pre, x, key);
      KeysOfAppend(s[..|s| - 1], x, key);
      if key(x) in KeysOf(s[..|s| - 1], key) then pre else pre + [x]
  }

  /** Appending one element: it is kept exactly when its key is new. */
  lemma DedupByAppend<T, K>(s: seq<T>, x: T, key: T -> K)
    ensures DedupBy(s + [x], key) == DedupBy(s, key) + (if key(x) in KeysOf(s, key) then [] else [x])
    ensures KeysOf(s + [x], key) == KeysOf(s, key) + {key(x)}
  {
    assert (s + [x])[..|s|] == s;
    KeysOfAppend(s, x, key);
  }

  /**
   * One step of a de-duplicating loop over the state (kept, seen keys):
   * `x` is kept, and its key recorded, unless its key was seen before.
   */
  function DedupPush<T, K>(state: (seq<T>, set<K>), x: T, key: T -> K): (seq<T>, set<K>) {
    if key(x) in state.1 then state else (state.0 + [x], state.1 + {key(x)})
  }

  /** Splitting off the last element of the second part of a concatenation. */
  lemma AppendLast<T>(s: seq<T>, xs: seq<T>)
    requires |xs| > 0
    ensures (s + xs[..|xs| - 1]) + [xs[|xs| - 1]] == s + xs
  {
    assert xs == xs[..|xs| - 1] + [xs[|xs| - 1]];
  }

  /** One push keeps the state equal to the de-duplication of what has been read, and its keys. */
  lemma DedupPushStep<T, K>(s: seq<T>, x: T, key: T -> K)
    ensures DedupPush((DedupBy(s, key), KeysOf(s, key)), x, key) == (DedupBy(s + [x], key), KeysOf(s + [x], key))
  {
    DedupByAppend(s, x, key);
  }

  /** The state after pushing every element of `xs`, in order. */
  function DedupPushAll<T, K>(state: (seq<T>, set<K>), xs: seq<T>, key: T -> K): (seq<T>, set<K>)
    decreases |xs|
  {
    if |xs| == 0 then state else DedupPush(DedupPushAll(state, xs[..|xs| - 1], key), xs[|xs| - 1], key)
  }

  /** Pushing `xs` and then `ys` is pushing `xs + ys`. */
  lemma {:induction false} DedupPushAllAppend<T, K>(state: (seq<T>, set<K>), xs: seq<T>, ys: seq<T>, key: T -> K)
    ensures DedupPushAll(state, xs + ys, key) == DedupPushAll(DedupPushAll(state, xs, key), ys, key)
    decreases |ys|
  {
    if |ys| == 0 {
      assert xs + ys == xs;
    } else {
      var ys' := ys[..|ys| - 1];
      assert (xs + ys)[..|xs + ys| - 1] == xs + ys';
      DedupPushAllAppend(state, xs, ys', key);
    }
  }

  /** A loop that has pushed the first i elements pushes element i next. */
  lemma DedupPushAllPrefix<T, K>(state: (seq<T>, set<K>), xs: seq<T>, i: nat, key: T -> K)
    requires i < |xs|
    ensures DedupPushAll(state, xs[..i + 1], key) == DedupPush(DedupPushAll(state, xs[..i], key), xs[i], key)
  {
    assert xs[..i + 1][..i] == xs[..i];
  }

  /**
   * The de-duplicating loop is correct: from the state of `s`, pushing
   * `xs` gives the first element per key of `s + xs`, and the keys of `s + xs`.
   */
  lemma {:induction false} DedupPushAllSpec<T, K>(s: seq<T>, xs: seq<T>, key: T -> K)
    ensures DedupPushAll((DedupBy(s, key), KeysOf(s, key)), xs, key) == (DedupBy(s + xs, key), KeysOf(s + xs, key))
    decreases |xs|
  {
    if |xs| == 0 {
      assert s + xs == s;
    } else {
      var xs', x := xs[..|xs| - 1], xs[|xs| - 1];
      DedupPushAllSpec(s, xs', key);
      DedupPushStep(s + xs', x, key);
      AppendLast(s, xs);
    }
  }

  /** From the empty state, pushing `xs` gives its de-duplication and its keys. */
  lemma DedupPushAllFromEmpty<T, K>(xs: seq<T>, key: T -> K)
    ensures DedupPushAll(([], {}), xs, key) == (DedupBy(xs, key), KeysOf(xs, key))
  {
    assert KeysOf([], key) == {};
    DedupPushAllSpec([], xs, key);
    assert [] + xs == xs;
  }

  /** Pushing copies of one element: only the first can change the state. */
  lemma {:induction false} DedupPushAllCopies<T, K>(state: (seq<T>, set<K>), t: seq<T>, x: T, key: T -> K)
    requires forall i :: 0 <= i < |t| ==> t[i] == x
    ensures DedupPushAll(state, t, key) == if |t| > 0 then DedupPush(state, x, key) else state
    decreases |t|
  {
    if |t| > 1 {
      DedupPushAllCopies(state, t[..|t| - 1], x, key);
    }
  }

  /** With pairwise different keys nothing is dropped. */
  lemma {:induction false} DedupByOfDistinctKeys<T, K>(s: seq<T>, key: T -> K)
    requires forall i, j :: 0 <= i < j < |s| ==> key(s[i]) != key(s[j])
    ensures DedupBy(s, key) == s
    decreases |s|
  {
    if |s| > 0 {
      var s' := s[..|s| - 1];
      DedupByOfDistinctKeys(s', key);
      assert key(s[|s| - 1]) !in KeysOf(s', key);
    }
  }

  /** A subsequence of a sequence with pairwise different keys has pairwise different keys. */
  lemma {:induction false} SubsequenceKeysDistinct<T, K>(q: seq<T>, s: seq<T>, key: T -> K)
    requires IsSubsequence(q, s)
    requires forall i, j :: 0 <= i < j < |s| ==> key(s[i]) != key(s[j])
    ensures forall i, j :: 0 <= i < j < |q| ==> key(q[i]) != key(q[j])
    decreases |s|
  {
    if |q| > 0 {
      var q', s' := q[..|q| - 1], s[..|s| - 1];
      if q[|q| - 1] == s[|s| - 1] && IsSubsequence(q', s') {
        SubsequenceKeysDistinct(q', s', key);
        SubsequenceMembers(q', s');
        forall i | 0 <= i < |q'|
          ensures key(q'[i]) != key(q[|q| - 1])
        {
          assert q'[i] in s';
        }
      } else {
        SubsequenceKeysDistinct(q, s', key);
      }
    }
  }

  /** `set(s)` in a fixed order: the first occurrence of every element. */
  function Dedup<T(==,!new)>(s: seq<T>): (r: seq<T>)
    ensures Distinct(r)
    ensures forall x :: x in r <==> x in s
    ensures IsSubsequence(r, s)
    ensures Distinct(s) ==> r == s
  {
    var r := DedupBy(s, x => x);
    SubsequenceMembers(r, s);
    assert forall x :: x in s ==> x in KeysOf(s, x => x);
    if Distinct(s) then DedupOfDistinct(s); r else r
  }

  lemma {:induction false} DedupOfDistinct<T(!new)>(s: seq<T>)
    requires Distinct(s)
    ensures DedupBy(s, x => x) == s
    decreases |s|
  {
    if |s| > 0 {
      var s' := s[..|s| - 1];
      DedupOfDistinct(s');
      assert s[|s| - 1] !in s';
    }
  }

  lemma {:induction false} DistinctCount<T>(s: seq<T>, x: T)
    requires Distinct(s) && x in s
    ensures multiset(s)[x] == 1
    decreases |s|
  {
    var s' := s[..|s| - 1];
    assert s == s' + [s[|s| - 1]];
    if x == s[|s| - 1] {
      assert x !in s';
    } else {
      DistinctCount(s', x);
    }
  }
}

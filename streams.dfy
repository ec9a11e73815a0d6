/**
 * Specification of the operators as functions on finite sequences.
 *
 * Each lazy operator is a generator looping over its parent; the functions
 * below give the values such a generator still yields, from a given state of
 * its loop, when its parent has `s` left to produce. Each eager operator is a
 * loop over the iterator; the functions below give its final answer.
 * The lemmas characterise these functions independently of the loops:
 * suffix, prefix, sub-sequence, element-wise image, concatenation, left fold.
 */
module Streams {
  import opened Results

  // ---------------------------------------------------------------------------
  // drop(limit): the first `limit` parent values are pulled and discarded, the rest passed on

  /** How many more parent values drop(limit) suppresses once its counter is `i`. */
  function ToSkip(limit: nat, i: nat): nat
  {
    if i < limit then limit - i else 0
  }

  /** Values drop(limit) still yields from counter `i` when the parent has `s` left. */
  function DropFrom<T>(s: seq<T>, limit: nat, i: nat): (r: seq<T>)
    ensures |r| <= |s|
    decreases |s|
  {
    if s == [] then []
    else if i < limit then DropFrom(s[1..], limit, i + 1)
    else [s[0]] + DropFrom(s[1..], limit, i + 1)
  }

  /** From any counter state, drop yields a suffix of what the parent has left. */
  lemma {:induction false} DropFromIsSuffix<T>(s: seq<T>, limit: nat, i: nat)
    ensures DropFrom(s, limit, i) == s[Min(ToSkip(limit, i), |s|)..]
    decreases |s|
  {
    if s != [] {
      DropFromIsSuffix(s[1..], limit, i + 1);
      if i < limit {
        assert s[1..][Min(ToSkip(limit, i + 1), |s| - 1)..] == s[Min(ToSkip(limit, i), |s|)..];
      } else {
        assert [s[0]] + s[1..] == s;
      }
    }
  }

  /** drop(n) over a fresh parent yields exactly S[n..], or nothing when n >= |S|. */
  lemma DropYieldsSuffix<T>(s: seq<T>, n: nat)
    ensures DropFrom(s, n, 0) == if n >= |s| then [] else s[n..]
  {
    DropFromIsSuffix(s, n, 0);
  }

  /** drop(0) passes everything through. */
  lemma DropZeroIsIdentity<T>(s: seq<T>)
    ensures DropFrom(s, 0, 0) == s
  {
    DropYieldsSuffix(s, 0);
  }

  // ---------------------------------------------------------------------------
  // take(count): each pulled value is passed on while the counter is below `count`;
  // the first value pulled at or past it ends the generator

  /** How many more values take(count) lets through once its counter is `i`. */
  function ToTake(count: nat, i: nat): nat
  {
    if i < count then count - i else 0
  }

  /** Values take(count) still yields from counter `i` when the parent has `s` left. */
  function TakeFrom<T>(s: seq<T>, count: nat, i: nat): (r: seq<T>)
    ensures |r| <= |s| && |r| <= ToTake(count, i)
    decreases |s|
  {
    if s == [] || i >= count then []
    else [s[0]] + TakeFrom(s[1..], count, i + 1)
  }

  /** From any counter state, take yields a prefix of what the parent has left. */
  lemma {:induction false} TakeFromIsPrefix<T>(s: seq<T>, count: nat, i: nat)
    ensures TakeFrom(s, count, i) == s[..Min(ToTake(count, i), |s|)]
    decreases |s|
  {
    if s != [] && i < count {
      TakeFromIsPrefix(s[1..], count, i + 1);
      assert [s[0]] + s[1..][..Min(ToTake(count, i + 1), |s| - 1)] == s[..Min(ToTake(count, i), |s|)];
    }
  }

  /** take(n) over a fresh parent yields S[..min(n, |S|)], never more than n values. */
  lemma TakeYieldsPrefix<T>(s: seq<T>, n: nat)
    ensures TakeFrom(s, n, 0) == s[..Min(n, |s|)]
    ensures |TakeFrom(s, n, 0)| <= n
    ensures n == 0 ==> TakeFrom(s, n, 0) == []
  {
    TakeFromIsPrefix(s, n, 0);
  }

  /** drop(n) followed by take(k) yields the slice S[n..n+k], cut short by the end of S. */
  lemma DropThenTake<T>(s: seq<T>, n: nat, k: nat)
    ensures TakeFrom(DropFrom(s, n, 0), k, 0) == s[Min(n, |s|)..Min(n + k, |s|)]
  {
    DropYieldsSuffix(s, n);
    var d := DropFrom(s, n, 0);
    TakeYieldsPrefix(d, k);
    assert d == s[Min(n, |s|)..];
    assert d[..Min(k, |d|)] == s[Min(n, |s|)..Min(n + k, |s|)];
  }

  // ---------------------------------------------------------------------------
  // filter(predicate)

  /** The elements of `s` that satisfy `p`, in their original order. */
  function Filtered<T>(s: seq<T>, p: T -> bool): (r: seq<T>)
    ensures |r| <= |s|
    ensures forall k :: 0 <= k < |r| ==> p(r[k])
    decreases |s|
  {
    if s == [] then []
    else if p(s[0]) then [s[0]] + Filtered(s[1..], p)
    else Filtered(s[1..], p)
  }

  /** Filtering distributes over concatenation: order is kept, nothing is mixed. */
  lemma {:induction false} FilteredConcat<T>(a: seq<T>, b: seq<T>, p: T -> bool)
    ensures Filtered(a + b, p) == Filtered(a, p) + Filtered(b, p)
    decreases |a|
  {
    if a != [] {
      assert (a + b)[0] == a[0] && (a + b)[1..] == a[1..] + b;
      FilteredConcat(a[1..], b, p);
    } else {
      assert a + b == b;
    }
  }

  /** A value is yielded by filter exactly when it is in the source and passes `p`. */
  lemma {:induction false} FilteredMembership<T>(s: seq<T>, p: T -> bool, x: T)
    ensures x in Filtered(s, p) <==> x in s && p(x)
    decreases |s|
  {
    if s != [] {
      FilteredMembership(s[1..], p, x);
      assert s == [s[0]] + s[1..];
    }
  }

  // ---------------------------------------------------------------------------
  // map(mapper) and forEach(callback)

  /** `f` applied to every element, in order. */
  function Mapped<T, U>(s: seq<T>, f: T -> U): (r: seq<U>)
    ensures |r| == |s|
    decreases |s|
  {
    if s == [] then [] else [f(s[0])] + Mapped(s[1..], f)
  }

  /** map keeps the length and yields f(S[k]) at position k. */
  lemma {:induction false} MappedAt<T, U>(s: seq<T>, f: T -> U)
    ensures |Mapped(s, f)| == |s|
    ensures forall k :: 0 <= k < |s| ==> Mapped(s, f)[k] == f(s[k])
    decreases |s|
  {
    if s != [] {
      MappedAt(s[1..], f);
    }
  }

  // ---------------------------------------------------------------------------
  // flatMap(mapper): every sub-sequence drained before the next parent value

  /** The concatenation g(s[0]) + g(s[1]) + ... */
  function Flattened<T, U>(s: seq<T>, g: T -> seq<U>): seq<U>
    decreases |s|
  {
    if s == [] then [] else g(s[0]) + Flattened(s[1..], g)
  }

  /** flatMap distributes over concatenation of its source. */
  lemma {:induction false} FlattenedConcat<T, U>(a: seq<T>, b: seq<T>, g: T -> seq<U>)
    ensures Flattened(a + b, g) == Flattened(a, g) + Flattened(b, g)
    decreases |a|
  {
    if a != [] {
      assert (a + b)[0] == a[0] && (a + b)[1..] == a[1..] + b;
      FlattenedConcat(a[1..], b, g);
    } else {
      assert a + b == b;
    }
  }

  /** A flatMap whose sub-sequences are singletons is a map. */
  lemma {:induction false} FlattenedSingletons<T, U>(s: seq<T>, f: T -> U, g: T -> seq<U>)
    requires forall x :: g(x) == [f(x)]
    ensures Flattened(s, g) == Mapped(s, f)
    decreases |s|
  {
    if s != [] {
      FlattenedSingletons(s[1..], f, g);
    }
  }

  /** flatMap(v => [v, v]) over [1, 2] yields [1, 1, 2, 2]. */
  lemma FlattenedDuplicates()
    ensures Flattened([1, 2], (v: int) => [v, v]) == [1, 1, 2, 2]
  {
  }

  // ---------------------------------------------------------------------------
  // find, some, every: the first position whose element passes a test

  /** The index of the first element of `s` satisfying `p`, if there is one. */
  function FirstMatch<T>(s: seq<T>, p: T -> bool): (r: Option<nat>)
    ensures r.Some? ==> r.value < |s| && p(s[r.value])
    ensures r.Some? ==> forall j :: 0 <= j < r.value ==> !p(s[j])
    ensures r.None? <==> forall j :: 0 <= j < |s| ==> !p(s[j])
    decreases |s|
  {
    if s == [] then None
    else if p(s[0]) then Some(0)
    else match FirstMatch(s[1..], p)
      case None => None
      case Some(k) => Some(k + 1)
  }

  /** A position holding the first match is what FirstMatch returns. */
  lemma FirstMatchAt<T>(s: seq<T>, p: T -> bool, k: nat)
    requires k < |s| && p(s[k])
    requires forall j :: 0 <= j < k ==> !p(s[j])
    ensures FirstMatch(s, p) == Some(k)
  {
  }

  /** The predicate every() tests for: its failure is the negation of `p`. */
  function Negate<T>(p: T -> bool): T -> bool
  {
    x => !p(x)
  }

  /** every(p) answers true exactly when some(not p) answers false. */
  lemma EveryIsNotSomeFailure<T>(s: seq<T>, p: T -> bool)
    ensures FirstMatch(s, Negate(p)).None? <==> forall j :: 0 <= j < |s| ==> p(s[j])
  {
  }

  // ---------------------------------------------------------------------------
  // reduce(reducer, initialValue) and toArray()

  /** Left fold of `r` over `s`, passing each element its zero-based index. */
  function FoldIndexed<A, T>(r: (A, T, nat) -> A, acc: A, s: seq<T>, index: nat): A
    decreases |s|
  {
    if s == [] then acc else FoldIndexed(r, r(acc, s[0], index), s[1..], index + 1)
  }

  /** Folding a concatenation folds the first part, then the second from index + |a|. */
  lemma {:induction false} FoldSplit<A, T>(r: (A, T, nat) -> A, acc: A, a: seq<T>, b: seq<T>, index: nat)
    ensures FoldIndexed(r, acc, a + b, index)
         == FoldIndexed(r, FoldIndexed(r, acc, a, index), b, index + |a|)
    decreases |a|
  {
    if a != [] {
      assert (a + b)[0] == a[0] && (a + b)[1..] == a[1..] + b;
      FoldSplit(r, r(acc, a[0], index), a[1..], b, index + 1);
    } else {
      assert a + b == b;
    }
  }

  /** reduce over S + [x] applies the reducer once more, to x with index |S|. */
  lemma {:induction false} FoldLast<A, T>(r: (A, T, nat) -> A, init: A, s: seq<T>, x: T)
    ensures FoldIndexed(r, init, s + [x], 0) == r(FoldIndexed(r, init, s, 0), x, |s|)
    ensures FoldIndexed(r, init, [], 0) == init
  {
    var before := FoldIndexed(r, init, s, 0);
    FoldSplit(r, init, s, [x], 0);
    assert FoldIndexed(r, init, s + [x], 0) == FoldIndexed(r, before, [x], |s|);
    FoldSingle(r, before, x, |s|);
  }

  /** Reducing a single value calls the reducer once. */
  lemma FoldSingle<A, T>(r: (A, T, nat) -> A, acc: A, x: T, index: nat)
    ensures FoldIndexed(r, acc, [x], index) == r(acc, x, index)
  {
  }

  /** The reducer toArray hands to reduce: push the value onto the accumulator. */
  function Push<T>(acc: seq<T>, v: T, index: nat): seq<T>
  {
    acc + [v]
  }

  /** Reducing with Push appends the source, unchanged and in order. */
  lemma {:induction false} FoldPushAppends<T>(acc: seq<T>, s: seq<T>, index: nat)
    ensures FoldIndexed(Push, acc, s, index) == acc + s
    decreases |s|
  {
    if s != [] {
      FoldPushAppends(acc + [s[0]], s[1..], index + 1);
      assert acc + [s[0]] + s[1..] == acc + s;
    }
  }

  /** reduce((acc, v, i) => acc + v * i, 0) over [10, 20, 30] is 80. */
  lemma ReduceWithIndex()
    ensures FoldIndexed((acc: int, v: int, i: nat) => acc + v * i, 0, [10, 20, 30], 0) == 80
  {
  }
}

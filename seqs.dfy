/** List operations the scripts rely on: comprehension filters, counting, batching
    into consecutive slices, first-appearance de-duplication, and Python's stable sort. */
module Seqs {

  /** `[x for x in s if p(x)]`. */
  function Filter<T>(s: seq<T>, p: T -> bool): (r: seq<T>)
    ensures |r| <= |s|
    ensures forall i :: 0 <= i < |r| ==> r[i] in s && p(r[i])
    ensures forall i :: 0 <= i < |s| && p(s[i]) ==> s[i] in r
    decreases |s|
  {
    if s == [] then [] else Filter(s[..|s| - 1], p) + (if p(s[|s| - 1]) then [s[|s| - 1]] else [])
  }

  /** Filtering distributes over concatenation, so it keeps the order of `s`. */
  lemma {:induction false} FilterConcat<T>(a: seq<T>, b: seq<T>, p: T -> bool)
    ensures Filter(a + b, p) == Filter(a, p) + Filter(b, p)
    decreases |b|
  {
    if b != [] {
      var b' := b[..|b| - 1];
      FilterConcat(a, b', p);
      assert (a + b)[..|a + b| - 1] == a + b';
      assert (a + b)[|a + b| - 1] == b[|b| - 1];
      var tail := if p(b[|b| - 1]) then [b[|b| - 1]] else [];
      assert Filter(b, p) == Filter(b', p) + tail;
      assert Filter(a + b, p) == Filter(a + b', p) + tail;
      assert Filter(a, p) + Filter(b', p) + tail == Filter(a, p) + (Filter(b', p) + tail);
    } else {
      assert a + b == a;
    }
  }

  /** `sum(1 for x in s if p(x))`. */
  function Count<T>(s: seq<T>, p: T -> bool): (n: nat)
    ensures n <= |s|
    decreases |s|
  {
    if s == [] then 0 else Count(s[..|s| - 1], p) + (if p(s[|s| - 1]) then 1 else 0)
  }

  lemma {:induction false} CountFilter<T>(s: seq<T>, p: T -> bool)
    ensures Count(s, p) == |Filter(s, p)|
    decreases |s|
  {
    if s != [] { CountFilter(s[..|s| - 1], p); }
  }

  /** Counting from the front: the first element counts once if it satisfies `p`. */
  lemma {:induction false} CountCons<T>(x: T, s: seq<T>, p: T -> bool)
    ensures Count([x] + s, p) == (if p(x) then 1 else 0) + Count(s, p)
    decreases |s|
  {
    if s != [] {
      assert ([x] + s)[..|s|] == [x] + s[..|s| - 1];
      CountCons(x, s[..|s| - 1], p);
    }
  }

  /** The number of times `x` occurs in `s`. */
  function Occurrences<T(==)>(s: seq<T>, x: T): (n: nat)
    ensures n <= |s|
    ensures n == 0 <==> x !in s
    decreases |s|
  {
    if s == [] then 0
    else
      assert s == s[..|s| - 1] + [s[|s| - 1]];
      Occurrences(s[..|s| - 1], x) + (if s[|s| - 1] == x then 1 else 0)
  }

  /** No element occurs twice. */
  predicate NoDup<T(==)>(s: seq<T>) {
    forall i, j :: 0 <= i < j < |s| ==> s[i] != s[j]
  }

  /** The distinct elements of `s` in order of first appearance. */
  function Distinct<T(==)>(s: seq<T>): seq<T>
    decreases |s|
  {
    if s == [] then []
    else
      var d := Distinct(s[..|s| - 1]);
      if s[|s| - 1] in d then d else d + [s[|s| - 1]]
  }

  /** `Distinct(s)` holds the elements of `s`, each once. */
  lemma {:induction false} DistinctCorrect<T>(s: seq<T>)
    ensures forall x :: x in Distinct(s) <==> x in s
    ensures NoDup(Distinct(s))
    decreases |s|
  {
    if s != [] {
      var init := s[..|s| - 1];
      DistinctCorrect(init);
      assert s == init + [s[|s| - 1]];
    }
  }

  lemma DistinctSnoc<T>(xs: seq<T>, x: T)
    ensures Distinct(xs + [x]) == if x in Distinct(xs) then Distinct(xs) else Distinct(xs) + [x]
  {
    assert (xs + [x])[..|xs + [x]| - 1] == xs;
  }

  /** `sum(f(x) for x in xs)`. */
  function SumOf<T>(xs: seq<T>, f: T -> int): int
    decreases |xs|
  {
    if xs == [] then 0 else SumOf(xs[..|xs| - 1], f) + f(xs[|xs| - 1])
  }

  /** `[f(x) for x in s]`. */
  function Map<T, U>(s: seq<T>, f: T -> U): (r: seq<U>)
    ensures |r| == |s|
    decreases |s|
  {
    if s == [] then [] else Map(s[..|s| - 1], f) + [f(s[|s| - 1])]
  }

  lemma MapSnoc<T, U>(s: seq<T>, x: T, f: T -> U)
    ensures Map(s + [x], f) == Map(s, f) + [f(x)]
  {
    assert (s + [x])[..|s|] == s;
  }

  lemma {:induction false} MapAt<T, U>(s: seq<T>, f: T -> U, k: nat)
    requires k < |s|
    ensures Map(s, f)[k] == f(s[k])
    decreases |s|
  {
    if k < |s| - 1 {
      MapAt(s[..|s| - 1], f, k);
    }
  }

  /** `[f(x) for x in s if keep(x)]`. */
  function MapIf<T, U>(s: seq<T>, keep: T -> bool, f: T -> U): (r: seq<U>)
    ensures |r| <= |s|
    decreases |s|
  {
    if s == [] then [] else MapIf(s[..|s| - 1], keep, f) + (if keep(s[|s| - 1]) then [f(s[|s| - 1])] else [])
  }

  /** When every element is kept, element `k` of the result is `f(s[k])`. */
  lemma {:induction false} MapIfAll<T, U>(s: seq<T>, keep: T -> bool, f: T -> U)
    requires forall i :: 0 <= i < |s| ==> keep(s[i])
    ensures |MapIf(s, keep, f)| == |s|
    ensures forall k :: 0 <= k < |s| ==> MapIf(s, keep, f)[k] == f(s[k])
    decreases |s|
  {
    if s != [] {
      MapIfAll(s[..|s| - 1], keep, f);
    }
  }

  /** The results are the images of the kept elements, and only those. */
  lemma {:induction false} MapIfMembers<T, U>(s: seq<T>, keep: T -> bool, f: T -> U)
    ensures forall y :: y in MapIf(s, keep, f) <==> exists i :: 0 <= i < |s| && keep(s[i]) && y == f(s[i])
    decreases |s|
  {
    if s != [] {
      var init := s[..|s| - 1];
      MapIfMembers(init, keep, f);
      forall i | 0 <= i < |init| ensures init[i] == s[i] { }
    }
  }

  /** Concatenation of a list of lists. */
  function Flatten<T>(ss: seq<seq<T>>): seq<T>
    decreases |ss|
  {
    if ss == [] then [] else ss[0] + Flatten(ss[1..])
  }

  /** `[s[i:i+n] for i in range(0, len(s), n)]`. */
  function Batches<T>(s: seq<T>, n: nat): seq<seq<T>>
    requires n > 0
    decreases |s|
  {
    if s == [] then [] else if |s| <= n then [s] else [s[..n]] + Batches(s[n..], n)
  }

  /** `s[i:]` for any `i >= 0` (empty past the end). */
  function Drop<T>(s: seq<T>, i: nat): seq<T> {
    if i <= |s| then s[i..] else []
  }

  /** `s[i:i+n]` for `0 <= i`. */
  function Slice<T>(s: seq<T>, i: nat, n: nat): seq<T> {
    if i + n <= |s| then s[i..i + n] else Drop(s, i)
  }

  /** A loop `for i in range(0, len(s), n)` that takes `s[i:i+n]` visits the batches
      in order: the one at `i` comes first among those of `s[i:]`. */
  lemma BatchesStep<T>(s: seq<T>, i: nat, n: nat)
    requires n > 0 && i < |s|
    ensures Batches(Drop(s, i), n) == [Slice(s, i, n)] + Batches(Drop(s, i + n), n)
  {
    var d := s[i..];
    if |d| > n {
      assert d[..n] == s[i..i + n];
      assert d[n..] == s[i + n..];
    } else {
      assert Drop(s, i + n) == [];
      assert Slice(s, i, n) == d;
      assert Batches(Drop(s, i), n) == [d];
    }
  }

  /** The batches, concatenated in order, are `s`. */
  lemma {:induction false} BatchesFlatten<T>(s: seq<T>, n: nat)
    requires n > 0
    ensures Flatten(Batches(s, n)) == s
    decreases |s|
  {
    if |s| > n {
      var rest := Batches(s[n..], n);
      BatchesFlatten(s[n..], n);
      assert Batches(s, n) == [s[..n]] + rest;
      assert ([s[..n]] + rest)[1..] == rest;
      assert Flatten(Batches(s, n)) == s[..n] + Flatten(rest);
      assert s == s[..n] + s[n..];
    } else if s != [] {
      assert Batches(s, n) == [s];
      assert [s][1..] == [];
      assert Flatten(Batches(s, n)) == s + Flatten([]);
    }
  }

  /** Every batch holds between 1 and `n` items, and all but the last exactly `n`. */
  lemma {:induction false} BatchesSizes<T>(s: seq<T>, n: nat)
    requires n > 0
    ensures forall i :: 0 <= i < |Batches(s, n)| ==> 0 < |Batches(s, n)[i]| <= n
    ensures forall i :: 0 <= i < |Batches(s, n)| - 1 ==> |Batches(s, n)[i]| == n
    decreases |s|
  {
    if |s| > n {
      BatchesSizes(s[n..], n);
      var bs := Batches(s, n);
      assert forall i :: 1 <= i < |bs| ==> bs[i] == Batches(s[n..], n)[i - 1];
    }
  }

  /* ---------- Python's stable sort ---------- */

  /** `lt` is a strict total order on sort keys. */
  ghost predicate StrictTotalOrder<K(!new)>(lt: (K, K) -> bool) {
    && (forall a :: !lt(a, a))
    && (forall a, b, c :: lt(a, b) && lt(b, c) ==> lt(a, c))
    && (forall a, b :: a != b ==> lt(a, b) || lt(b, a))
  }

  /** No element is strictly smaller, by key, than an element before it. */
  ghost predicate SortedBy<T, K>(s: seq<T>, key: T -> K, lt: (K, K) -> bool) {
    forall i, j :: 0 <= i < j < |s| ==> !lt(key(s[j]), key(s[i]))
  }

  /** The elements of `s` whose key is `k`, in order. */
  function WithKey<T, K(==)>(s: seq<T>, key: T -> K, k: K): seq<T>
    decreases |s|
  {
    if s == [] then [] else (if key(s[0]) == k then [s[0]] else []) + WithKey(s[1..], key, k)
  }

  /** Insert `x` before the first element whose key is not smaller than `x`'s. */
  function InsertBy<T, K>(x: T, s: seq<T>, key: T -> K, lt: (K, K) -> bool): (r: seq<T>)
    ensures multiset(r) == multiset(s) + multiset{x}
    decreases |s|
  {
    if s == [] then [x]
    else if lt(key(s[0]), key(x)) then
      assert s == [s[0]] + s[1..];
      [s[0]] + InsertBy(x, s[1..], key, lt)
    else [x] + s
  }

  /** `sorted(s, key=key)`: a stable insertion sort. */
  function SortBy<T, K>(s: seq<T>, key: T -> K, lt: (K, K) -> bool): (r: seq<T>)
    ensures multiset(r) == multiset(s)
    decreases |s|
  {
    if s == [] then []
    else
      assert s == [s[0]] + s[1..];
      InsertBy(s[0], SortBy(s[1..], key, lt), key, lt)
  }

  lemma {:induction false} InsertSorted<T, K(!new)>(x: T, s: seq<T>, key: T -> K, lt: (K, K) -> bool)
    requires StrictTotalOrder(lt) && SortedBy(s, key, lt)
    ensures SortedBy(InsertBy(x, s, key, lt), key, lt)
    decreases |s|
  {
    if s != [] {
      var r := InsertBy(x, s, key, lt);
      if lt(key(s[0]), key(x)) {
        var tail := InsertBy(x, s[1..], key, lt);
        assert SortedBy(s[1..], key, lt) by {
          forall i, j | 0 <= i < j < |s[1..]| ensures !lt(key(s[1..][j]), key(s[1..][i])) {
            assert s[1..][j] == s[j + 1] && s[1..][i] == s[i + 1];
          }
        }
        InsertSorted(x, s[1..], key, lt);
        forall j | 0 <= j < |tail| ensures !lt(key(tail[j]), key(s[0])) {
          assert tail[j] in multiset(tail);
          if tail[j] != x {
            assert tail[j] in multiset(s[1..]);
            var m :| 0 <= m < |s[1..]| && s[1..][m] == tail[j];
            assert s[m + 1] == tail[j];
          }
        }
        assert r == [s[0]] + tail;
      } else {
        forall j | 0 <= j < |s| ensures !lt(key(s[j]), key(x)) {
          if j > 0 {
            assert !lt(key(s[j]), key(s[0]));
            if key(s[0]) != key(x) { assert lt(key(x), key(s[0])); }
          }
        }
        assert r == [x] + s;
      }
    }
  }

  /** Inserting `x` keeps, for every key, the elements with that key in the order of
      `[x] + s`. */
  lemma {:induction false} InsertStable<T, K(!new)>(x: T, s: seq<T>, key: T -> K, lt: (K, K) -> bool, k: K)
    requires forall a :: !lt(a, a)
    ensures WithKey(InsertBy(x, s, key, lt), key, k) == WithKey([x] + s, key, k)
    decreases |s|
  {
    if s != [] && lt(key(s[0]), key(x)) {
      var tail := InsertBy(x, s[1..], key, lt);
      InsertStable(x, s[1..], key, lt, k);
      var p0 := if key(s[0]) == k then [s[0]] else [];
      var px := if key(x) == k then [x] else [];
      assert key(s[0]) != key(x);
      assert p0 + px == px + p0;
      calc {
        WithKey(InsertBy(x, s, key, lt), key, k);
        { assert InsertBy(x, s, key, lt) == [s[0]] + tail; WithKeyCons(s[0], tail, key, k); }
        p0 + WithKey(tail, key, k);
        { WithKeyCons(x, s[1..], key, k); }
        p0 + (px + WithKey(s[1..], key, k));
        px + (p0 + WithKey(s[1..], key, k));
        { assert s == [s[0]] + s[1..]; WithKeyCons(s[0], s[1..], key, k); }
        px + WithKey(s, key, k);
        { WithKeyCons(x, s, key, k); }
        WithKey([x] + s, key, k);
      }
    } else {
      assert InsertBy(x, s, key, lt) == [x] + s;
    }
  }

  lemma WithKeyCons<T, K>(x: T, s: seq<T>, key: T -> K, k: K)
    ensures WithKey([x] + s, key, k) == (if key(x) == k then [x] else []) + WithKey(s, key, k)
  {
    assert ([x] + s)[1..] == s;
  }

  /** `SortBy` returns a permutation of `s`, sorted by key, in which the elements
      with equal keys keep their order from `s` (the sort is stable). */
  lemma {:induction false} SortByCorrect<T, K(!new)>(s: seq<T>, key: T -> K, lt: (K, K) -> bool)
    requires StrictTotalOrder(lt)
    ensures multiset(SortBy(s, key, lt)) == multiset(s)
    ensures SortedBy(SortBy(s, key, lt), key, lt)
    ensures forall k :: WithKey(SortBy(s, key, lt), key, k) == WithKey(s, key, k)
    decreases |s|
  {
    if s != [] {
      SortByCorrect(s[1..], key, lt);
      var t := SortBy(s[1..], key, lt);
      InsertSorted(s[0], t, key, lt);
      forall k ensures WithKey(SortBy(s, key, lt), key, k) == WithKey(s, key, k) {
        InsertStable(s[0], t, key, lt, k);
        assert ([s[0]] + t)[1..] == t;
        assert s == [s[0]] + s[1..];
      }
    }
  }
}

/** Python dictionaries as association lists: the entries in insertion order, where
    assigning to an existing key replaces its value and keeps its position. */
module Dicts {
  import opened Py
  import Seqs

  type Dict<K, V> = seq<(K, V)>

  /** `list(d.keys())`. */
  function Keys<K, V>(d: Dict<K, V>): (ks: seq<K>)
    ensures |ks| == |d|
    decreases |d|
  {
    if d == [] then [] else [d[0].0] + Keys(d[1..])
  }

  lemma {:induction false} KeysAt<K, V>(d: Dict<K, V>, i: int)
    requires 0 <= i < |d|
    ensures Keys(d)[i] == d[i].0
    decreases |d|
  {
    if i > 0 { KeysAt(d[1..], i - 1); }
  }

  /** Every key occurs once, as in a real dictionary. */
  predicate Valid<K(==), V>(d: Dict<K, V>) {
    Seqs.NoDup(Keys(d))
  }

  /** `d.get(k)`. */
  function Get<K(==), V>(d: Dict<K, V>, k: K): Option<V>
    decreases |d|
  {
    if d == [] then None else if d[0].0 == k then Some(d[0].1) else Get(d[1..], k)
  }

  /** A key is found exactly when it is one of the keys. */
  lemma {:induction false} GetNone<K, V>(d: Dict<K, V>, k: K)
    ensures Get(d, k).None? <==> k !in Keys(d)
    decreases |d|
  {
    if d != [] { GetNone(d[1..], k); }
  }

  /** `d[k] = v`. */
  function Put<K(==), V>(d: Dict<K, V>, k: K, v: V): Dict<K, V>
    decreases |d|
  {
    if d == [] then [(k, v)] else if d[0].0 == k then [(k, v)] + d[1..] else [d[0]] + Put(d[1..], k, v)
  }

  /** Assigning an existing key keeps the keys and their order; a new key is
      appended. */
  lemma {:induction false} PutKeys<K, V>(d: Dict<K, V>, k: K, v: V)
    ensures k in Keys(d) ==> Keys(Put(d, k, v)) == Keys(d)
    ensures k !in Keys(d) ==> Put(d, k, v) == d + [(k, v)]
    decreases |d|
  {
    if d != [] && d[0].0 != k {
      PutKeys(d[1..], k, v);
      assert Keys(d) == [d[0].0] + Keys(d[1..]);
      assert Keys([d[0]] + Put(d[1..], k, v)) == [d[0].0] + Keys(Put(d[1..], k, v));
      if k !in Keys(d) {
        assert d == [d[0]] + d[1..];
      }
    } else if d != [] {
      assert Keys([(k, v)] + d[1..]) == [k] + Keys(d[1..]);
    }
  }

  /** Reading back what was written, and nothing else moves. */
  lemma {:induction false} PutGet<K, V>(d: Dict<K, V>, k: K, v: V, k': K)
    ensures Get(Put(d, k, v), k') == if k' == k then Some(v) else Get(d, k')
    decreases |d|
  {
    if d != [] && d[0].0 != k {
      PutGet(d[1..], k, v, k');
      assert Put(d, k, v) == [d[0]] + Put(d[1..], k, v);
    } else if d != [] && d[0].0 == k && k' != k {
      assert Put(d, k, v)[1..] == d[1..];
    }
  }

  /** Assignment keeps every key unique. */
  lemma PutValid<K, V>(d: Dict<K, V>, k: K, v: V)
    requires Valid(d)
    ensures Valid(Put(d, k, v))
  {
    PutKeys(d, k, v);
    if k !in Keys(d) {
      KeysSnoc(d, (k, v));
    }
  }

  lemma {:induction false} KeysSnoc<K, V>(d: Dict<K, V>, e: (K, V))
    ensures Keys(d + [e]) == Keys(d) + [e.0]
    decreases |d|
  {
    if d != [] {
      KeysSnoc(d[1..], e);
      assert (d + [e])[1..] == d[1..] + [e];
    }
  }

  /** Every entry after an assignment was there before or is the one assigned. */
  lemma {:induction false} PutEntries<K, V>(d: Dict<K, V>, k: K, v: V)
    ensures forall e :: e in Put(d, k, v) ==> e in d || e == (k, v)
    decreases |d|
  {
    if d != [] && d[0].0 != k {
      PutEntries(d[1..], k, v);
      assert forall e :: e in d[1..] ==> e in d;
    } else if d != [] {
      assert forall e :: e in d[1..] ==> e in d;
    }
  }
}

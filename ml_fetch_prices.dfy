/** The price fetcher: reads the marketplace price, original price and condition
    of every active item of the map file, in multiget batches of 20, and writes
    them into the map entries. */
module MlFetchPrices {
  import opened Py
  import Seqs
  import Dicts
  import opened Catalog

  /** The map file `ml_products_map.json`. */
  type MapFile = Dicts.Dict<string, MapEntry>

  /* ---------- the items to fetch ---------- */

  /** Reading `ml_id` of an active entry does not raise. */
  predicate FetchSafe(m: MapFile) {
    forall i :: 0 <= i < |m| ==> Active(m[i].1) ==> !m[i].1.mlId.Null?
  }

  /** An entry whose item is fetched: active, with an id that is not empty once the
      dashes are gone. */
  predicate Wanted(e: MapEntry) {
    Active(e) && !e.mlId.Null? && EntryId(e) != ""
  }

  /** The map entry `x` is fetched. */
  predicate WantedPair(x: (string, MapEntry)) {
    Wanted(x.1)
  }

  /** The (sku, dash-free id) pair of the map entry `x`. */
  function PairOf(x: (string, MapEntry)): (string, string) {
    (x.0, if x.1.mlId.Null? then "" else EntryId(x.1))
  }

  /** `items_to_fetch`: (sku, dash-free id) of the wanted entries, in map order. */
  function ItemsToFetch(m: MapFile): seq<(string, string)> {
    Seqs.MapIf(m, WantedPair, PairOf)
  }

  /** The collecting loop of `main`. */
  method CollectItems(m: MapFile) returns (items: seq<(string, string)>)
    requires FetchSafe(m)
    ensures items == ItemsToFetch(m)
  {
    items := [];
    var i := 0;
    while i < |m|
      invariant 0 <= i <= |m|
      invariant items == ItemsToFetch(m[..i])
    {
      var (sku, data) := m[i];
      assert m[..i + 1][..i] == m[..i];
      if Active(data) {
        var mlId := EntryId(data);
        if mlId != "" {
          items := items + [(sku, mlId)];
        }
      }
      i := i + 1;
    }
    assert m[..i] == m;
  }

  /** No id fetched is empty or holds a dash, and there is at most one item per
      entry. */
  lemma ItemsToFetchShape(m: MapFile)
    ensures forall x :: x in ItemsToFetch(m) ==> x.1 != "" && '-' !in x.1
    ensures |ItemsToFetch(m)| <= |m|
  {
    Seqs.MapIfMembers(m, WantedPair, PairOf);
  }

  /** The items fetched are exactly the wanted entries, each paired with its own
      sku. */
  lemma ItemsToFetchExactly(m: MapFile)
    ensures forall x :: x in ItemsToFetch(m) <==>
      exists i :: 0 <= i < |m| && Wanted(m[i].1) && x == (m[i].0, EntryId(m[i].1))
  {
    forall x ensures x in ItemsToFetch(m) <==>
      exists i :: 0 <= i < |m| && Wanted(m[i].1) && x == (m[i].0, EntryId(m[i].1))
    {
      ItemFetched(m, x);
    }
  }

  /** One pair is fetched exactly when some wanted entry gives it. */
  lemma ItemFetched(m: MapFile, x: (string, string))
    ensures x in ItemsToFetch(m) ==> exists i :: 0 <= i < |m| && Wanted(m[i].1) && x == (m[i].0, EntryId(m[i].1))
    ensures (exists i :: 0 <= i < |m| && Wanted(m[i].1) && x == (m[i].0, EntryId(m[i].1))) ==> x in ItemsToFetch(m)
  {
    Seqs.MapIfMembers(m, WantedPair, PairOf);
    if x in ItemsToFetch(m) {
      var i :| 0 <= i < |m| && WantedPair(m[i]) && x == PairOf(m[i]);
      assert Wanted(m[i].1) && x == (m[i].0, EntryId(m[i].1));
    }
    if exists i :: 0 <= i < |m| && Wanted(m[i].1) && x == (m[i].0, EntryId(m[i].1)) {
      var i :| 0 <= i < |m| && Wanted(m[i].1) && x == (m[i].0, EntryId(m[i].1));
      assert WantedPair(m[i]) && x == PairOf(m[i]);
    }
  }

  /* ---------- matching results ---------- */

  /** `','.join([item[1] for item in batch])`, as the list of ids it joins; a helper of
      `RequestsIds`. */
  function IdsOf(batch: seq<(string, string)>): (ids: seq<string>)
    ensures |ids| == |batch|
    ensures forall k :: 0 <= k < |batch| ==> ids[k] == batch[k].1
  {
    seq(|batch|, k requires 0 <= k < |batch| => batch[k].1)
  }

  /** Pair `k` is the first of `batch` with id `itemId`. */
  predicate FirstAt(batch: seq<(string, string)>, k: int, itemId: string) {
    0 <= k < |batch| && batch[k].1 == itemId && forall j :: 0 <= j < k ==> batch[j].1 != itemId
  }

  /** The sku of the first pair of `batch` whose id is `itemId`. */
  function FirstMatch(batch: seq<(string, string)>, itemId: string): (sku: Option<string>)
    ensures sku.None? <==> forall k :: 0 <= k < |batch| ==> batch[k].1 != itemId
    ensures sku.Some? ==> exists k :: FirstAt(batch, k, itemId) && batch[k].0 == sku.value
    decreases |batch|
  {
    if batch == [] then None
    else if batch[0].1 == itemId then Some(batch[0].0)
    else
      var r := FirstMatch(batch[1..], itemId);
      assert forall k :: 1 <= k < |batch| ==> batch[k] == batch[1..][k - 1];
      if r.Some? then
        var k :| FirstAt(batch[1..], k, itemId) && batch[1..][k].0 == r.value;
        assert FirstAt(batch, k + 1, itemId);
        r
      else r
  }

  /** `item.get(key)` written back into a dict: a missing key becomes `null`. */
  function Stored<T>(f: Field<T>): (r: Field<T>)
    ensures !r.Absent?
    ensures f.Val? ==> r == f
    ensures !f.Val? ==> r == Null
  {
    if f.Absent? then Null else f
  }

  /** The three writes into the entry of the matched sku. */
  function UpdateEntry(e: MapEntry, item: MlItem): MapEntry {
    e.(price := Stored(item.price), originalPrice := Stored(item.originalPrice),
       condition := GetOr(item.condition, Val("new")))
  }

  /** An entry changes at most in its price, original price and condition. */
  predicate SameButPrices(a: MapEntry, b: MapEntry) {
    a.(price := b.price, originalPrice := b.originalPrice, condition := b.condition) == b
  }

  /** `ml_map[sku][...] = ...`: the sku always names an entry of the map. */
  function Update(m: MapFile, sku: string, item: MlItem): MapFile {
    var e := Dicts.Get(m, sku);
    if e.Some? then Dicts.Put(m, sku, UpdateEntry(e.value, item)) else m
  }

  const EmptyItem: MlItem := MlItem(Absent, Absent, Absent, Absent, Absent)

  /** A result that raises: code 200 with a `null` body, or a body with a `null` id. */
  predicate Raises(r: MultigetEntry) {
    r.code == Val(200) && (r.body.Null? || (r.body.Val? && r.body.value.id.Null?))
  }

  /** The body read from a code-200 result that does not raise (`{}` when missing). */
  function BodyOf(r: MultigetEntry): MlItem {
    if r.body.Val? then r.body.value else EmptyItem
  }

  /** `item.get('id', '').replace('-', '')`. */
  function ItemIdOf(item: MlItem): string
    requires !item.id.Null?
  {
    Undash(if item.id.Val? then item.id.value else "")
  }

  /** Whether the entry is a code-200 result that matches a sku of the batch. */
  predicate Matches(batch: seq<(string, string)>, r: MultigetEntry) {
    r.code == Val(200) && !Raises(r) && FirstMatch(batch, ItemIdOf(BodyOf(r))).Some?
  }

  /** The results of one answer, in order, from the map `m` and the count `n`: each
      code-200 result updates the first sku of the batch with its id and counts one;
      a result that raises ends the batch, keeping what was done before it. */
  function ResultsInto(m: MapFile, n: nat, batch: seq<(string, string)>, rs: seq<MultigetEntry>): (MapFile, nat)
    decreases |rs|
  {
    if rs == [] then (m, n)
    else if rs[0].code != Val(200) then ResultsInto(m, n, batch, rs[1..])
    else if Raises(rs[0]) then (m, n)
    else
      var item := BodyOf(rs[0]);
      var sku := FirstMatch(batch, ItemIdOf(item));
      if sku.Some? then ResultsInto(Update(m, sku.value, item), n + 1, batch, rs[1..])
      else ResultsInto(m, n, batch, rs[1..])
  }

  /** One batch: only an answer with status 200 is read; a request that raised
      changes nothing. */
  function BatchInto(m: MapFile, n: nat, batch: seq<(string, string)>, reply: Reply): (MapFile, nat) {
    if reply.Answered? && reply.status == 200 then ResultsInto(m, n, batch, reply.entries) else (m, n)
  }

  /** Only results with code 200 update the map: any other result is passed over. */
  lemma OtherCodeIgnored(m: MapFile, n: nat, batch: seq<(string, string)>, r: MultigetEntry, rs: seq<MultigetEntry>)
    requires r.code != Val(200)
    ensures ResultsInto(m, n, batch, [r] + rs) == ResultsInto(m, n, batch, rs)
  {
    assert ([r] + rs)[1..] == rs;
  }

  /** A request that raised, or an answer with another status, leaves the map and the
      count as they were. */
  lemma FailedReplyIgnored(m: MapFile, n: nat, batch: seq<(string, string)>, reply: Reply)
    requires reply.Raised? || reply.status != 200
    ensures BatchInto(m, n, batch, reply) == (m, n)
  {
  }

  /** The batches, in order; `multiget` stands for one request. */
  function Run(m: MapFile, n: nat, batches: seq<seq<(string, string)>>, multiget: seq<string> -> Reply): (MapFile, nat)
    decreases |batches|
  {
    if batches == [] then (m, n)
    else
      var (m', n') := BatchInto(m, n, batches[0], multiget(IdsOf(batches[0])));
      Run(m', n', batches[1..], multiget)
  }

  /** The id lists of the requests, one per batch, in order. */
  function Requests(batches: seq<seq<(string, string)>>): seq<seq<string>>
    decreases |batches|
  {
    if batches == [] then [] else [IdsOf(batches[0])] + Requests(batches[1..])
  }

  /** Request `k` asks for the ids of batch `k`, each batch once. */
  lemma {:induction false} RequestsIds(batches: seq<seq<(string, string)>>)
    ensures |Requests(batches)| == |batches|
    ensures forall k :: 0 <= k < |batches| ==> Requests(batches)[k] == IdsOf(batches[k])
    decreases |batches|
  {
    if batches != [] {
      RequestsIds(batches[1..]);
    }
  }

  lemma RunStep(m: MapFile, n: nat, batch: seq<(string, string)>, rest: seq<seq<(string, string)>>,
                multiget: seq<string> -> Reply)
    ensures var (m', n') := BatchInto(m, n, batch, multiget(IdsOf(batch)));
      Run(m, n, [batch] + rest, multiget) == Run(m', n', rest, multiget)
    ensures Requests([batch] + rest) == [IdsOf(batch)] + Requests(rest)
  {
    assert ([batch] + rest)[1..] == rest;
  }

  /** The inner loop over one answer's results. */
  method ReadResults(m0: MapFile, n0: nat, batch: seq<(string, string)>, rs: seq<MultigetEntry>)
    returns (m: MapFile, n: nat)
    ensures (m, n) == ResultsInto(m0, n0, batch, rs)
  {
    m, n := m0, n0;
    var k := 0;
    var raised := false;
    while k < |rs| && !raised
      invariant 0 <= k <= |rs|
      invariant raised ==> (m, n) == ResultsInto(m0, n0, batch, rs)
      invariant !raised ==> ResultsInto(m, n, batch, rs[k..]) == ResultsInto(m0, n0, batch, rs)
    {
      var result := rs[k];
      assert rs[k..][1..] == rs[k + 1..];
      if result.code == Val(200) {
        if result.body.Null? || (result.body.Val? && result.body.value.id.Null?) {
          raised := true;
        } else {
          var item := if result.body.Val? then result.body.value else EmptyItem;
          var itemId := ItemIdOf(item);
          var j := 0;
          while j < |batch| && batch[j].1 != itemId
            invariant 0 <= j <= |batch|
            invariant forall i :: 0 <= i < j ==> batch[i].1 != itemId
          {
            j := j + 1;
          }
          if j < |batch| {
            assert FirstMatch(batch, itemId) == Some(batch[j].0);
            var sku := batch[j].0;
            var e := Dicts.Get(m, sku);
            if e.Some? {
              m := Dicts.Put(m, sku, UpdateEntry(e.value, item));
            }
            n := n + 1;
          }
        }
      }
      k := k + 1;
    }
  }

  /** The body of the `try` of one batch, once the request has returned. */
  method ReadBatch(m0: MapFile, n0: nat, batch: seq<(string, string)>, reply: Reply) returns (m: MapFile, n: nat)
    ensures (m, n) == BatchInto(m0, n0, batch, reply)
  {
    m, n := m0, n0;
    if reply.Answered? && reply.status == 200 {
      m, n := ReadResults(m, n, batch, reply.entries);
    }
  }

  /** `main` after the map is loaded: returns the map it saves, the `updated`
      count, and the id lists of the requests, in order. */
  method FetchPrices(m0: MapFile, multiget: seq<string> -> Reply)
    returns (m: MapFile, updated: nat, requests: seq<seq<string>>)
    requires FetchSafe(m0)
    ensures var batches := Seqs.Batches(ItemsToFetch(m0), BatchSize);
      && requests == Requests(batches)
      && (m, updated) == Run(m0, 0, batches, multiget)
      && updated == Matched(batches, multiget)
  {
    var items := CollectItems(m0);
    m, updated, requests := FetchBatches(m0, items, multiget);
    RunCounts(m0, 0, Seqs.Batches(ItemsToFetch(m0), BatchSize), multiget);
  }

  /** The batch loop of `main` over the collected `items`. */
  method FetchBatches(m0: MapFile, items: seq<(string, string)>, multiget: seq<string> -> Reply)
    returns (m: MapFile, updated: nat, requests: seq<seq<string>>)
    ensures var batches := Seqs.Batches(items, BatchSize);
      && requests == Requests(batches)
      && (m, updated) == Run(m0, 0, batches, multiget)
  {
    ghost var batches := Seqs.Batches(items, BatchSize);
    m, updated, requests := m0, 0, [];
    var i := 0;
    while i < |items|
      invariant requests + Requests(Seqs.Batches(Seqs.Drop(items, i), BatchSize)) == Requests(batches)
      invariant Run(m, updated, Seqs.Batches(Seqs.Drop(items, i), BatchSize), multiget) == Run(m0, 0, batches, multiget)
      decreases |items| - i
    {
      var batch := Seqs.Slice(items, i, BatchSize);
      Seqs.BatchesStep(items, i, BatchSize);
      var ids := IdsOf(batch);
      var reply := multiget(ids);
      RunStep(m, updated, batch, Seqs.Batches(Seqs.Drop(items, i + BatchSize), BatchSize), multiget);
      requests := requests + [ids];
      m, updated := ReadBatch(m, updated, batch, reply);
      i := i + BatchSize;
    }
    assert Seqs.Drop(items, i) == [];
  }

  /* ---------- properties ---------- */

  /** A result that raises ends its batch: the results after it are lost, the
      updates before it stay. */
  lemma {:induction false} ResultsStop(m: MapFile, n: nat, batch: seq<(string, string)>, rs: seq<MultigetEntry>,
                                       bad: MultigetEntry, rest: seq<MultigetEntry>)
    requires Raises(bad)
    ensures ResultsInto(m, n, batch, rs + [bad] + rest) == ResultsInto(m, n, batch, rs)
    decreases |rs|
  {
    if rs == [] {
      assert rs + [bad] + rest == [bad] + rest;
    } else {
      assert (rs + [bad] + rest)[1..] == rs[1..] + [bad] + rest;
      if rs[0].code != Val(200) {
        ResultsStop(m, n, batch, rs[1..], bad, rest);
      } else if !Raises(rs[0]) {
        var item := BodyOf(rs[0]);
        var sku := FirstMatch(batch, ItemIdOf(item));
        if sku.Some? {
          ResultsStop(Update(m, sku.value, item), n + 1, batch, rs[1..], bad, rest);
        } else {
          ResultsStop(m, n, batch, rs[1..], bad, rest);
        }
      }
    }
  }

  /** A matching result writes its price, original price and condition (default
      "new") into the entry of the first sku in the batch with its id. */
  lemma ResultUpdatesFirst(m: MapFile, n: nat, batch: seq<(string, string)>, r: MultigetEntry)
    requires r.code == Val(200) && r.body.Val? && !r.body.value.id.Null?
    ensures var item := r.body.value; var sku := FirstMatch(batch, ItemIdOf(item));
      && (sku.None? ==> ResultsInto(m, n, batch, [r]) == (m, n))
      && (sku.Some? && Dicts.Get(m, sku.value).Some? ==>
          var (m', n') := ResultsInto(m, n, batch, [r]);
          && n' == n + 1
          && Dicts.Get(m', sku.value) == Some(Dicts.Get(m, sku.value).value.(
               price := Stored(item.price), originalPrice := Stored(item.originalPrice),
               condition := GetOr(item.condition, Val("new")))))
  {
    var item := r.body.value;
    var sku := FirstMatch(batch, ItemIdOf(item));
    assert [r][1..] == [];
    if sku.Some? && Dicts.Get(m, sku.value).Some? {
      Dicts.PutGet(m, sku.value, UpdateEntry(Dicts.Get(m, sku.value).value, item), sku.value);
    }
  }

  /** One update keeps the keys and changes only the three fields of one entry. */
  lemma UpdateKeeps(m: MapFile, sku: string, item: MlItem, k: string)
    ensures Dicts.Keys(Update(m, sku, item)) == Dicts.Keys(m)
    ensures var before := Dicts.Get(m, k); var after := Dicts.Get(Update(m, sku, item), k);
      && (before.None? <==> after.None?)
      && (before.Some? ==> SameButPrices(before.value, after.value))
      && (k != sku ==> after == before)
  {
    var e := Dicts.Get(m, sku);
    if e.Some? {
      Dicts.GetNone(m, sku);
      Dicts.PutKeys(m, sku, UpdateEntry(e.value, item));
      Dicts.PutGet(m, sku, UpdateEntry(e.value, item), k);
    }
  }

  lemma {:induction false} ResultsKeep(m: MapFile, n: nat, batch: seq<(string, string)>, rs: seq<MultigetEntry>, k: string)
    ensures var (m', n') := ResultsInto(m, n, batch, rs);
      && Dicts.Keys(m') == Dicts.Keys(m)
      && n <= n' <= n + |rs|
      && var before := Dicts.Get(m, k); var after := Dicts.Get(m', k);
      (before.None? <==> after.None?) && (before.Some? ==> SameButPrices(before.value, after.value))
    decreases |rs|
  {
    if rs != [] && rs[0].code == Val(200) && !Raises(rs[0]) {
      var item := BodyOf(rs[0]);
      var sku := FirstMatch(batch, ItemIdOf(item));
      if sku.Some? {
        UpdateKeeps(m, sku.value, item, k);
        ResultsKeep(Update(m, sku.value, item), n + 1, batch, rs[1..], k);
      } else {
        ResultsKeep(m, n, batch, rs[1..], k);
      }
    } else if rs != [] && rs[0].code != Val(200) {
      ResultsKeep(m, n, batch, rs[1..], k);
    }
  }

  /** The number of entries in the answers with status 200. */
  function AnsweredEntries(batches: seq<seq<(string, string)>>, multiget: seq<string> -> Reply): nat
    decreases |batches|
  {
    if batches == [] then 0
    else
      var reply := multiget(IdsOf(batches[0]));
      (if reply.Answered? && reply.status == 200 then |reply.entries| else 0) + AnsweredEntries(batches[1..], multiget)
  }

  /** The results of one answer that are read: those before the first that raises. */
  function UntilRaise(rs: seq<MultigetEntry>): (read: seq<MultigetEntry>)
    ensures |read| <= |rs| && read == rs[..|read|]
    ensures forall i :: 0 <= i < |read| ==> !Raises(read[i])
    ensures |read| < |rs| ==> Raises(rs[|read|])
    decreases |rs|
  {
    if rs == [] || Raises(rs[0]) then [] else [rs[0]] + UntilRaise(rs[1..])
  }

  /** The `updated` count of one answer: its results read before the first that
      raises that match a sku of the batch. */
  lemma {:induction false} ResultsCount(m: MapFile, n: nat, batch: seq<(string, string)>, rs: seq<MultigetEntry>)
    ensures ResultsInto(m, n, batch, rs).1 == n + Seqs.Count(UntilRaise(rs), r => Matches(batch, r))
    decreases |rs|
  {
    if rs != [] && !Raises(rs[0]) {
      Seqs.CountCons(rs[0], UntilRaise(rs[1..]), r => Matches(batch, r));
      if rs[0].code != Val(200) {
        ResultsCount(m, n, batch, rs[1..]);
      } else {
        var item := BodyOf(rs[0]);
        var sku := FirstMatch(batch, ItemIdOf(item));
        if sku.Some? {
          ResultsCount(Update(m, sku.value, item), n + 1, batch, rs[1..]);
        } else {
          ResultsCount(m, n, batch, rs[1..]);
        }
      }
    }
  }

  /** The matching results read from the answers with status 200, over all batches. */
  function Matched(batches: seq<seq<(string, string)>>, multiget: seq<string> -> Reply): nat
    decreases |batches|
  {
    if batches == [] then 0
    else
      var reply := multiget(IdsOf(batches[0]));
      (if reply.Answered? && reply.status == 200
       then Seqs.Count(UntilRaise(reply.entries), r => Matches(batches[0], r)) else 0)
      + Matched(batches[1..], multiget)
  }

  /** `updated` counts exactly the matching results read: one per code-200 result,
      before the first result that raises in its answer, whose id is in its batch. */
  lemma {:induction false} RunCounts(m: MapFile, n: nat, batches: seq<seq<(string, string)>>, multiget: seq<string> -> Reply)
    ensures Run(m, n, batches, multiget).1 == n + Matched(batches, multiget)
    decreases |batches|
  {
    if batches != [] {
      var reply := multiget(IdsOf(batches[0]));
      var (m1, n1) := BatchInto(m, n, batches[0], reply);
      if reply.Answered? && reply.status == 200 {
        ResultsCount(m, n, batches[0], reply.entries);
      }
      RunCounts(m1, n1, batches[1..], multiget);
    }
  }

  /** The run keeps the map's keys, changes entries only in price, original price
      and condition, and counts at most one update per result received. */
  lemma {:induction false} RunKeeps(m: MapFile, n: nat, batches: seq<seq<(string, string)>>, multiget: seq<string> -> Reply, k: string)
    ensures var (m', n') := Run(m, n, batches, multiget);
      && Dicts.Keys(m') == Dicts.Keys(m)
      && n <= n' <= n + AnsweredEntries(batches, multiget)
      && var before := Dicts.Get(m, k); var after := Dicts.Get(m', k);
      (before.None? <==> after.None?) && (before.Some? ==> SameButPrices(before.value, after.value))
    decreases |batches|
  {
    if batches != [] {
      var reply := multiget(IdsOf(batches[0]));
      var (m1, n1) := BatchInto(m, n, batches[0], reply);
      if reply.Answered? && reply.status == 200 {
        ResultsKeep(m, n, batches[0], reply.entries, k);
      }
      RunKeeps(m1, n1, batches[1..], multiget, k);
    }
  }
}

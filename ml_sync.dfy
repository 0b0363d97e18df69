/** The price and stock synchronisation with the marketplace: the local products
    keyed by sku, the marketplace ids to fetch, the batched multiget, the updates
    planned from the comparison, and the updates applied to the marketplace and to
    the map file. Prices are integer cents. */
module MlSync {
  import opened Py
  import Text
  import Seqs
  import Dicts
  import opened Catalog

  /** A price difference up to this many cents is not worth an update. */
  const PriceTolerance: int := 100
  /** The quantity announced when a product comes back in stock. */
  const RestockQuantity: int := 10

  /** The map file `ml_products_map.json`: JSON keys are strings. */
  type MapFile = Dicts.Dict<string, MapEntry>

  /* ---------- load_products ---------- */

  /** The comprehension's condition `p.get('sku') or p.get('id')`. */
  predicate Keyed(p: Product) {
    Truthy(p.sku) || Truthy(p.id)
  }

  /** `{p.get('sku', p.get('id', '')): p for p in products if ...}`. */
  function LoadProducts(ps: seq<Product>): Dicts.Dict<Field<string>, Product>
    decreases |ps|
  {
    if ps == [] then []
    else
      var d := LoadProducts(ps[..|ps| - 1]);
      var p := ps[|ps| - 1];
      if Keyed(p) then Dicts.Put(d, SkuOrId(p), p) else d
  }

  /** No keyed product after `i` has the key of `ps[i]`. */
  predicate LastKeyed(ps: seq<Product>, i: int)
    requires 0 <= i < |ps|
  {
    forall j :: i < j < |ps| && Keyed(ps[j]) ==> SkuOrId(ps[j]) != SkuOrId(ps[i])
  }

  /** The keys are distinct and are exactly the keys of the keyed products. */
  lemma {:induction false} LoadProductsKeys(ps: seq<Product>)
    ensures Dicts.Valid(LoadProducts(ps))
    ensures forall k :: k in Dicts.Keys(LoadProducts(ps)) <==>
      exists i :: 0 <= i < |ps| && Keyed(ps[i]) && SkuOrId(ps[i]) == k
    decreases |ps|
  {
    if ps != [] {
      var init := ps[..|ps| - 1];
      var p := ps[|ps| - 1];
      var d := LoadProducts(init);
      LoadProductsKeys(init);
      forall i | 0 <= i < |init| ensures init[i] == ps[i] { }
      if Keyed(p) {
        Dicts.PutValid(d, SkuOrId(p), p);
        Dicts.PutKeys(d, SkuOrId(p), p);
        if SkuOrId(p) !in Dicts.Keys(d) {
          Dicts.KeysSnoc(d, (SkuOrId(p), p));
        }
        forall k | exists i :: 0 <= i < |ps| && Keyed(ps[i]) && SkuOrId(ps[i]) == k
          ensures k in Dicts.Keys(LoadProducts(ps))
        {
          var i :| 0 <= i < |ps| && Keyed(ps[i]) && SkuOrId(ps[i]) == k;
          if i < |init| {
            assert Keyed(init[i]) && SkuOrId(init[i]) == k;
          }
        }
      } else {
        forall k | exists i :: 0 <= i < |ps| && Keyed(ps[i]) && SkuOrId(ps[i]) == k
          ensures k in Dicts.Keys(LoadProducts(ps))
        {
          var i :| 0 <= i < |ps| && Keyed(ps[i]) && SkuOrId(ps[i]) == k;
          assert Keyed(init[i]) && SkuOrId(init[i]) == k;
        }
      }
    }
  }

  /** A later product with the same key overwrites an earlier one: each key holds
      the last keyed product carrying it. */
  lemma {:induction false} LoadProductsLast(ps: seq<Product>, i: int)
    requires 0 <= i < |ps| && Keyed(ps[i]) && LastKeyed(ps, i)
    ensures Dicts.Get(LoadProducts(ps), SkuOrId(ps[i])) == Some(ps[i])
    decreases |ps|
  {
    var init := ps[..|ps| - 1];
    var p := ps[|ps| - 1];
    if i == |ps| - 1 {
      Dicts.PutGet(LoadProducts(init), SkuOrId(p), p, SkuOrId(p));
    } else {
      assert init[i] == ps[i];
      assert LastKeyed(init, i) by {
        forall j | i < j < |init| && Keyed(init[j]) ensures SkuOrId(init[j]) != SkuOrId(init[i]) {
          assert init[j] == ps[j];
        }
      }
      LoadProductsLast(init, i);
      if Keyed(p) {
        Dicts.PutGet(LoadProducts(init), SkuOrId(p), p, SkuOrId(ps[i]));
      }
    }
  }

  /* ---------- the ids to fetch ---------- */

  /** An entry whose item is fetched: active, with a truthy `ml_id`. */
  predicate Fetchable(e: MapEntry) {
    Active(e) && Truthy(e.mlId)
  }

  /** `ml_ids_to_fetch`: the dash-free ids of the fetchable entries, in map order. */
  function FetchIds(m: MapFile): seq<string>
    decreases |m|
  {
    if m == [] then []
    else
      var e := m[|m| - 1].1;
      FetchIds(m[..|m| - 1]) + (if Fetchable(e) then [Undash(e.mlId.value)] else [])
  }

  /** `sku_to_ml_id`. */
  function SkuToId(m: MapFile): Dicts.Dict<string, string>
    decreases |m|
  {
    if m == [] then []
    else
      var e := m[|m| - 1].1;
      var d := SkuToId(m[..|m| - 1]);
      if Fetchable(e) then Dicts.Put(d, m[|m| - 1].0, Undash(e.mlId.value)) else d
  }

  /** The first loop of `sync_products`. */
  method CollectFetchIds(m: MapFile) returns (ids: seq<string>, skuToId: Dicts.Dict<string, string>)
    ensures ids == FetchIds(m)
    ensures skuToId == SkuToId(m)
  {
    ids, skuToId := [], [];
    var i := 0;
    while i < |m|
      invariant 0 <= i <= |m|
      invariant ids == FetchIds(m[..i])
      invariant skuToId == SkuToId(m[..i])
    {
      var (sku, data) := m[i];
      assert m[..i + 1][..i] == m[..i];
      if Active(data) && Truthy(data.mlId) {
        var mlId := Undash(data.mlId.value);
        ids := ids + [mlId];
        skuToId := Dicts.Put(skuToId, sku, mlId);
      }
      i := i + 1;
    }
    assert m[..i] == m;
  }

  /** Exactly the fetchable entries' ids are fetched, none with a dash. */
  lemma {:induction false} FetchIdsExactly(m: MapFile)
    ensures forall id :: id in FetchIds(m) <==>
      exists i :: 0 <= i < |m| && Fetchable(m[i].1) && id == Undash(m[i].1.mlId.value)
    ensures forall id :: id in FetchIds(m) ==> '-' !in id
    ensures |FetchIds(m)| <= |m|
    decreases |m|
  {
    if m != [] {
      var init := m[..|m| - 1];
      FetchIdsExactly(init);
      forall i | 0 <= i < |init| ensures init[i] == m[i] { }
      forall id | exists i :: 0 <= i < |m| && Fetchable(m[i].1) && id == Undash(m[i].1.mlId.value)
        ensures id in FetchIds(m)
      {
        var i :| 0 <= i < |m| && Fetchable(m[i].1) && id == Undash(m[i].1.mlId.value);
        if i < |init| {
          assert Fetchable(init[i].1) && id == Undash(init[i].1.mlId.value);
        }
      }
    }
  }

  /* ---------- fetch_ml_items ---------- */

  /** `results`: the item bodies keyed by their `id` (which may be `null`). */
  type Items = Dicts.Dict<Field<string>, MlItem>

  /** The entries of one answer, in order: a code-200 entry stores its body under
      the body's id; an entry whose body or id is missing raises, and the rest of the
      batch is lost. */
  function EntriesInto(results: Items, es: seq<MultigetEntry>): Items
    decreases |es|
  {
    if es == [] then results
    else if es[0].code != Val(200) then EntriesInto(results, es[1..])
    else if es[0].body.Val? && !es[0].body.value.id.Absent? then
      EntriesInto(Dicts.Put(results, es[0].body.value.id, es[0].body.value), es[1..])
    else results
  }

  /** One batch: only an answer with status 200 is read. */
  function BatchInto(results: Items, reply: Reply): Items {
    if reply.Answered? && reply.status == 200 then EntriesInto(results, reply.entries) else results
  }

  /** The batches, in order. */
  function FetchFrom(results: Items, batches: seq<seq<string>>, multiget: seq<string> -> Reply): Items
    decreases |batches|
  {
    if batches == [] then results
    else FetchFrom(BatchInto(results, multiget(batches[0])), batches[1..], multiget)
  }

  /** The items the multiget returns for `ids`. */
  function Fetched(ids: seq<string>, multiget: seq<string> -> Reply): Items {
    FetchFrom([], Seqs.Batches(ids, BatchSize), multiget)
  }

  /** The loop over one answer's entries. */
  method ReadEntries(results0: Items, es: seq<MultigetEntry>) returns (results: Items)
    ensures results == EntriesInto(results0, es)
  {
    results := results0;
    var k := 0;
    var raised := false;
    while k < |es| && !raised
      invariant 0 <= k <= |es|
      invariant raised ==> results == EntriesInto(results0, es)
      invariant !raised ==> EntriesInto(results, es[k..]) == EntriesInto(results0, es)
    {
      var item := es[k];
      assert es[k..][1..] == es[k + 1..];
      if item.code == Val(200) {
        if item.body.Val? && !item.body.value.id.Absent? {
          var body := item.body.value;
          results := Dicts.Put(results, body.id, body);
        } else {
          raised := true;
        }
      }
      k := k + 1;
    }
  }

  /** `fetch_ml_items(headers, item_ids)`: the requests are the consecutive batches
      of at most 20 ids, in order; `multiget` stands for one request. */
  method FetchMlItems(itemIds: seq<string>, multiget: seq<string> -> Reply) returns (results: Items, queried: seq<seq<string>>)
    ensures queried == Seqs.Batches(itemIds, BatchSize)
    ensures results == Fetched(itemIds, multiget)
  {
    if itemIds == [] {
      return [], [];
    }
    results, queried := [], [];
    var i := 0;
    while i < |itemIds|
      invariant Seqs.Batches(itemIds, BatchSize) == queried + Seqs.Batches(Seqs.Drop(itemIds, i), BatchSize)
      invariant FetchFrom(results, Seqs.Batches(Seqs.Drop(itemIds, i), BatchSize), multiget) == Fetched(itemIds, multiget)
      decreases |itemIds| - i
    {
      var batch := Seqs.Slice(itemIds, i, BatchSize);
      Seqs.BatchesStep(itemIds, i, BatchSize);
      FetchStep(results, batch, Seqs.Batches(Seqs.Drop(itemIds, i + BatchSize), BatchSize), multiget);
      var reply := multiget(batch);
      queried := queried + [batch];
      if reply.Answered? && reply.status == 200 {
        results := ReadEntries(results, reply.entries);
      }
      i := i + BatchSize;
    }
    assert Seqs.Drop(itemIds, i) == [];
  }

  /** The first batch of a run is read before the rest. */
  lemma FetchStep(results: Items, batch: seq<string>, rest: seq<seq<string>>, multiget: seq<string> -> Reply)
    ensures FetchFrom(results, [batch] + rest, multiget) == FetchFrom(BatchInto(results, multiget(batch)), rest, multiget)
  {
    assert ([batch] + rest)[1..] == rest;
  }

  /** The body `e.1` arrives in `entry` with code 200 and id `e.0`. */
  predicate Carries(entry: MultigetEntry, e: (Field<string>, MlItem)) {
    entry.code == Val(200) && entry.body == Val(e.1) && e.1.id == e.0
  }

  /** `reply` is an answer with status 200 that carries `e`. */
  predicate Serves(reply: Reply, e: (Field<string>, MlItem)) {
    reply.Answered? && reply.status == 200 && exists j :: 0 <= j < |reply.entries| && Carries(reply.entries[j], e)
  }

  lemma {:induction false} EntriesIntoFrom(results: Items, es: seq<MultigetEntry>)
    ensures forall e :: e in EntriesInto(results, es) ==> e in results || exists j :: 0 <= j < |es| && Carries(es[j], e)
    decreases |es|
  {
    if es != [] {
      var r' := if es[0].code == Val(200) && es[0].body.Val? && !es[0].body.value.id.Absent?
        then Dicts.Put(results, es[0].body.value.id, es[0].body.value) else results;
      EntriesIntoFrom(r', es[1..]);
      forall j | 0 <= j < |es[1..]| ensures es[1..][j] == es[j + 1] { }
      if r' != results {
        Dicts.PutEntries(results, es[0].body.value.id, es[0].body.value);
      }
    }
  }

  /** Every stored item comes from an entry with code 200 of an answer with status
      200 to one of the requests, and is stored under its own id. */
  lemma {:induction false} FetchedFromAnswers(results: Items, batches: seq<seq<string>>, multiget: seq<string> -> Reply)
    ensures forall e :: e in FetchFrom(results, batches, multiget) ==>
      e in results || exists b :: 0 <= b < |batches| && Serves(multiget(batches[b]), e)
    decreases |batches|
  {
    if batches != [] {
      var reply := multiget(batches[0]);
      var r' := BatchInto(results, reply);
      FetchedFromAnswers(r', batches[1..], multiget);
      if reply.Answered? && reply.status == 200 {
        EntriesIntoFrom(results, reply.entries);
      }
      forall b | 0 <= b < |batches[1..]| ensures batches[1..][b] == batches[b + 1] { }
    }
  }

  /** `results[body['id']] = body` runs for this entry: code 200 with a body that
      has an id. */
  predicate StoresAt(entry: MultigetEntry) {
    entry.code == Val(200) && entry.body.Val? && !entry.body.value.id.Absent?
  }

  /** This entry has code 200 but no body or no id, so reading it raises. */
  predicate RaisesAt(entry: MultigetEntry) {
    entry.code == Val(200) && !StoresAt(entry)
  }

  /** Reading an answer loses no key already stored. */
  lemma {:induction false} EntriesIntoKeeps(results: Items, es: seq<MultigetEntry>)
    ensures forall k :: k in Dicts.Keys(results) ==> k in Dicts.Keys(EntriesInto(results, es))
    decreases |es|
  {
    if es != [] && es[0].code == Val(200) && StoresAt(es[0]) {
      var body := es[0].body.value;
      PutKeeps(results, body.id, body);
      EntriesIntoKeeps(Dicts.Put(results, body.id, body), es[1..]);
    } else if es != [] && es[0].code != Val(200) {
      EntriesIntoKeeps(results, es[1..]);
    }
  }

  /** An assignment keeps the old keys and adds its own. */
  lemma PutKeeps(results: Items, k: Field<string>, v: MlItem)
    ensures k in Dicts.Keys(Dicts.Put(results, k, v))
    ensures forall k' :: k' in Dicts.Keys(results) ==> k' in Dicts.Keys(Dicts.Put(results, k, v))
  {
    Dicts.PutKeys(results, k, v);
    if k !in Dicts.Keys(results) {
      Dicts.KeysSnoc(results, (k, v));
    }
  }

  /** Every entry that stores, with no raising entry before it in its answer, leaves
      its id among the keys. */
  lemma {:induction false} EntriesIntoComplete(results: Items, es: seq<MultigetEntry>, j: nat)
    requires j < |es| && StoresAt(es[j])
    requires forall i :: 0 <= i < j ==> !RaisesAt(es[i])
    ensures es[j].body.value.id in Dicts.Keys(EntriesInto(results, es))
    decreases j
  {
    assert !RaisesAt(es[0]);
    if StoresAt(es[0]) {
      var body := es[0].body.value;
      PutKeeps(results, body.id, body);
      if j == 0 {
        EntriesIntoKeeps(Dicts.Put(results, body.id, body), es[1..]);
      } else {
        assert forall i :: 0 <= i < j - 1 ==> es[1..][i] == es[i + 1];
        EntriesIntoComplete(Dicts.Put(results, body.id, body), es[1..], j - 1);
      }
    } else {
      assert forall i :: 0 <= i < j - 1 ==> es[1..][i] == es[i + 1];
      EntriesIntoComplete(results, es[1..], j - 1);
    }
  }

  /** The batches lose no key already stored. */
  lemma {:induction false} FetchKeeps(results: Items, batches: seq<seq<string>>, multiget: seq<string> -> Reply)
    ensures forall k :: k in Dicts.Keys(results) ==> k in Dicts.Keys(FetchFrom(results, batches, multiget))
    decreases |batches|
  {
    if batches != [] {
      var reply := multiget(batches[0]);
      if reply.Answered? && reply.status == 200 {
        EntriesIntoKeeps(results, reply.entries);
      }
      FetchKeeps(BatchInto(results, reply), batches[1..], multiget);
    }
  }

  /** Entry `j` of the status-200 answer to batch `b` that stores, with no raising
      entry before it in that answer, leaves its id among the fetched keys. */
  lemma {:induction false} FetchedComplete(results: Items, batches: seq<seq<string>>, multiget: seq<string> -> Reply,
                                           b: nat, j: nat)
    requires b < |batches|
    requires var reply := multiget(batches[b]);
      && reply.Answered? && reply.status == 200 && j < |reply.entries| && StoresAt(reply.entries[j])
      && forall i :: 0 <= i < j ==> !RaisesAt(reply.entries[i])
    ensures multiget(batches[b]).entries[j].body.value.id in Dicts.Keys(FetchFrom(results, batches, multiget))
    decreases b
  {
    var reply := multiget(batches[0]);
    var r' := BatchInto(results, reply);
    if b == 0 {
      EntriesIntoComplete(results, reply.entries, j);
      FetchKeeps(r', batches[1..], multiget);
    } else {
      assert batches[1..][b - 1] == batches[b];
      FetchedComplete(r', batches[1..], multiget, b - 1, j);
    }
  }

  /* ---------- comparing and planning ---------- */

  /** `sku.replace('LV-', '').replace('SE-', '')`. */
  function StripPrefixes(sku: string): string {
    Text.ReplaceAll(Text.ReplaceAll(sku, "LV-", ""), "SE-", "")
  }

  /** `ml_map.get(sku)`, and when that is falsy, `ml_map.get(sku_clean)`. */
  function Lookup(m: MapFile, sku: string): Option<MapEntry> {
    var exact := Dicts.Get(m, sku);
    if exact.Some? && EntryTruthy(exact.value) then exact else Dicts.Get(m, StripPrefixes(sku))
  }

  /** A sku without either prefix is looked up only as itself. */
  lemma LookupPlain(m: MapFile, sku: string)
    requires !Text.Contains(sku, "LV-") && !Text.Contains(sku, "SE-")
    ensures StripPrefixes(sku) == sku
    ensures Lookup(m, sku) == Dicts.Get(m, sku)
  {
    Text.ReplaceAbsent(sku, "LV-", "");
    Text.ReplaceAbsent(sku, "SE-", "");
  }

  /** A truthy exact entry wins over whatever is stored under the stripped sku. */
  lemma LookupPrefersExact(m: MapFile, sku: string, e: MapEntry)
    requires StripPrefixes(sku) != sku
    requires Dicts.Get(m, sku).Some? && EntryTruthy(Dicts.Get(m, sku).value)
    ensures Lookup(Dicts.Put(m, StripPrefixes(sku), e), sku) == Lookup(m, sku) == Dicts.Get(m, sku)
  {
    Dicts.PutGet(m, StripPrefixes(sku), e, sku);
  }

  /** The fields `sync_products` may send for one item, in the order it adds them. */
  datatype Updates = Updates(price: Option<int>, quantity: Option<int>)

  /** One element of `updates_to_make`. */
  datatype PlannedUpdate = PlannedUpdate(mlId: string, sku: string, updates: Updates, oldPrice: int, newPrice: int)

  /** `abs(expected - current) > PRICE_TOLERANCE`. */
  predicate PriceDiffers(expected: int, current: int) {
    expected - current > PriceTolerance || current - expected > PriceTolerance
  }

  /** `local_product.get('inStock', True)`: a missing key reads as in stock. */
  predicate LocalInStock(p: Product) {
    p.inStock.Absent? || BoolTruthy(p.inStock)
  }

  /** The quantity update: restock a product in stock that the marketplace shows
      with quantity 0, zero a product out of stock that it shows with a positive
      one. A quantity of `null` raises for a product out of stock. */
  function StockUpdate(inStock: bool, quantity: Field<int>): Option<int>
    requires !inStock ==> !quantity.Null?
  {
    var q := GetOr(quantity, Val(0));
    if inStock && q == Val(0) then Some(RestockQuantity)
    else if !inStock && q.value > 0 then Some(0)
    else None
  }

  /** The stock rule and what it leaves on the marketplace: a product in stock never
      stays at quantity 0, and one out of stock never keeps a positive quantity. */
  lemma StockRule(inStock: bool, quantity: Field<int>)
    requires !inStock ==> !quantity.Null?
    ensures var u := StockUpdate(inStock, quantity); var q := GetOr(quantity, Val(0));
      && (u == Some(RestockQuantity) <==> inStock && q == Val(0))
      && (u == Some(0) <==> !inStock && q.value > 0)
      && (u.Some? ==> u == Some(RestockQuantity) || u == Some(0))
      && (var after := if u.Some? then Val(u.value) else q;
          (inStock ==> after != Val(0)) && (!inStock ==> after.value <= 0))
  {
  }

  /** The entry the comparison uses for a product, when it is active. */
  function ActiveEntry(m: MapFile, sku: string): Option<MapEntry> {
    var data := Lookup(m, sku);
    if data.Some? && Active(data.value) then data else None
  }

  /** The comparison does not raise for this product: the active entry's id is not
      `null`; once its item is found, the local price is not `null`; once a price
      is expected, the item's price is not `null`, nor, for a product out of stock,
      its quantity. */
  predicate PlanSafe(sku: string, local: Product, m: MapFile, items: Items, mlPrice: int -> int) {
    var data := ActiveEntry(m, sku);
    data.Some? ==>
      && !data.value.mlId.Null?
      && var item := Dicts.Get(items, Val(EntryId(data.value)));
      item.Some? ==>
        && !local.price.Null?
        && var cost := GetOr(local.price, Val(0)).value;
        cost > 0 && mlPrice(cost) != 0 ==>
          !item.value.price.Null? && (LocalInStock(local) || !item.value.availableQuantity.Null?)
  }

  /** What the comparison plans for one product: nothing when it has no active
      entry, its item was not fetched, no price is expected (`mlPrice` stands for
      the price rule on the cost), or nothing changed; otherwise the price (when it
      differs by more than the tolerance) and the quantity fixes. */
  function PlanFor(sku: string, local: Product, m: MapFile, items: Items, mlPrice: int -> int): Option<PlannedUpdate>
    requires PlanSafe(sku, local, m, items, mlPrice)
  {
    var data := ActiveEntry(m, sku);
    if data.None? then None
    else
      var mlId := EntryId(data.value);
      var item := Dicts.Get(items, Val(mlId));
      if item.None? then None
      else
        var cost := GetOr(local.price, Val(0)).value;
        if cost <= 0 || mlPrice(cost) == 0 then None
        else
          var expected := mlPrice(cost);
          var current := GetOr(item.value.price, Val(0)).value;
          var u := Updates(if PriceDiffers(expected, current) then Some(expected) else None,
                           StockUpdate(LocalInStock(local), item.value.availableQuantity));
          if u.price.Some? || u.quantity.Some? then Some(PlannedUpdate(mlId, sku, u, current, expected)) else None
  }

  /** The products dictionary holds only string keys, and no comparison raises. */
  predicate PlansSafe(products: Dicts.Dict<Field<string>, Product>, m: MapFile, items: Items, mlPrice: int -> int) {
    forall i :: 0 <= i < |products| ==>
      products[i].0.Val? && PlanSafe(products[i].0.value, products[i].1, m, items, mlPrice)
  }

  /** `updates_to_make`: the planned updates, in product order. */
  function Plan(products: Dicts.Dict<Field<string>, Product>, m: MapFile, items: Items, mlPrice: int -> int): seq<PlannedUpdate>
    requires PlansSafe(products, m, items, mlPrice)
    decreases |products|
  {
    if products == [] then []
    else
      var (sku, local) := products[|products| - 1];
      var u := PlanFor(sku.value, local, m, items, mlPrice);
      Plan(products[..|products| - 1], m, items, mlPrice) + (if u.Some? then [u.value] else [])
  }

  predicate HasPrice(u: PlannedUpdate) {
    u.updates.price.Some?
  }

  predicate HasQuantity(u: PlannedUpdate) {
    u.updates.quantity.Some?
  }

  /** What a planned update holds: something to change, a price only when it
      differs from the marketplace's by more than the tolerance, and the entry's
      dash-free id. */
  lemma PlanForShape(sku: string, local: Product, m: MapFile, items: Items, mlPrice: int -> int)
    requires PlanSafe(sku, local, m, items, mlPrice)
    ensures var u := PlanFor(sku, local, m, items, mlPrice);
      u.Some? ==>
        && ActiveEntry(m, sku).Some? && u.value.mlId == EntryId(ActiveEntry(m, sku).value)
        && Dicts.Get(items, Val(u.value.mlId)).Some?
        && '-' !in u.value.mlId && u.value.sku == sku
        && (u.value.updates.price.Some? || u.value.updates.quantity.Some?)
        && (u.value.updates.price.Some? <==> PriceDiffers(u.value.newPrice, u.value.oldPrice))
        && (u.value.updates.price.Some? ==> u.value.updates.price.value == u.value.newPrice)
  {
  }

  /** Per-run counters; `skipped` is never incremented. */
  datatype SyncStats = SyncStats(priceUpdates: nat, stockUpdates: nat, errors: nat, skipped: nat)

  lemma PlanStep(products: Dicts.Dict<Field<string>, Product>, i: nat, m: MapFile, items: Items, mlPrice: int -> int)
    requires PlansSafe(products, m, items, mlPrice) && i < |products|
    ensures PlansSafe(products[..i], m, items, mlPrice) && PlansSafe(products[..i + 1], m, items, mlPrice)
    ensures products[i].0.Val? && PlanSafe(products[i].0.value, products[i].1, m, items, mlPrice)
    ensures var u := PlanFor(products[i].0.value, products[i].1, m, items, mlPrice);
      Plan(products[..i + 1], m, items, mlPrice) == Plan(products[..i], m, items, mlPrice) + (if u.Some? then [u.value] else [])
  {
    assert products[..i + 1][..i] == products[..i];
  }

  /** One comparison's outcome joins the plan, and its counters move with it. */
  method AddPlanned(plan: seq<PlannedUpdate>, priceUpdates: nat, stockUpdates: nat, u: Option<PlannedUpdate>)
    returns (plan': seq<PlannedUpdate>, priceUpdates': nat, stockUpdates': nat)
    requires priceUpdates == Seqs.Count(plan, HasPrice) && stockUpdates == Seqs.Count(plan, HasQuantity)
    ensures plan' == plan + (if u.Some? then [u.value] else [])
    ensures priceUpdates' == Seqs.Count(plan', HasPrice) && stockUpdates' == Seqs.Count(plan', HasQuantity)
  {
    plan', priceUpdates', stockUpdates' := plan, priceUpdates, stockUpdates;
    if u.Some? {
      assert (plan + [u.value])[..|plan|] == plan;
      plan' := plan + [u.value];
      if u.value.updates.price.Some? {
        priceUpdates' := priceUpdates + 1;
      }
      if u.value.updates.quantity.Some? {
        stockUpdates' := stockUpdates + 1;
      }
    }
  }

  /** The comparison loop of `sync_products`, with its price and stock counters. */
  method PlanUpdates(products: Dicts.Dict<Field<string>, Product>, m: MapFile, items: Items, mlPrice: int -> int)
    returns (plan: seq<PlannedUpdate>, priceUpdates: nat, stockUpdates: nat)
    requires PlansSafe(products, m, items, mlPrice)
    ensures plan == Plan(products, m, items, mlPrice)
    ensures priceUpdates == Seqs.Count(plan, HasPrice)
    ensures stockUpdates == Seqs.Count(plan, HasQuantity)
  {
    plan, priceUpdates, stockUpdates := [], 0, 0;
    var i := 0;
    while i < |products|
      invariant 0 <= i <= |products|
      invariant PlansSafe(products[..i], m, items, mlPrice)
      invariant plan == Plan(products[..i], m, items, mlPrice)
      invariant priceUpdates == Seqs.Count(plan, HasPrice)
      invariant stockUpdates == Seqs.Count(plan, HasQuantity)
    {
      var (sku, local) := products[i];
      PlanStep(products, i, m, items, mlPrice);
      var u := PlanFor(sku.value, local, m, items, mlPrice);
      plan, priceUpdates, stockUpdates := AddPlanned(plan, priceUpdates, stockUpdates, u);
      i := i + 1;
    }
    assert products[..i] == products;
  }

  /* ---------- applying ---------- */

  /** `ml_map[k]['price'] = price` when `k` is in the map. */
  function SetPrice(m: MapFile, k: string, price: int): MapFile {
    var e := Dicts.Get(m, k);
    if e.Some? then Dicts.Put(m, k, e.value.(price := Val(price))) else m
  }

  /** The map after a successful update: a price update is written under the sku
      and under the stripped sku. */
  function AfterSuccess(m: MapFile, u: PlannedUpdate): MapFile {
    if u.updates.price.Some? then SetPrice(SetPrice(m, u.sku, u.newPrice), StripPrefixes(u.sku), u.newPrice)
    else m
  }

  /** The map and the error count after the updates `plan`, where `put` says whether
      the marketplace accepted an update. */
  function ApplyAll(m: MapFile, plan: seq<PlannedUpdate>, put: (string, Updates) -> bool): (MapFile, nat)
    decreases |plan|
  {
    if plan == [] then (m, 0)
    else
      var (m', errors) := ApplyAll(m, plan[..|plan| - 1], put);
      var u := plan[|plan| - 1];
      if put(u.mlId, u.updates) then (AfterSuccess(m', u), errors) else (m', errors + 1)
  }

  predicate Fails(put: (string, Updates) -> bool, u: PlannedUpdate) {
    !put(u.mlId, u.updates)
  }

  /** The requests the updates send, in order. */
  function CallsOf(plan: seq<PlannedUpdate>): (calls: seq<(string, Updates)>)
    ensures |calls| == |plan|
    ensures forall k :: 0 <= k < |plan| ==> calls[k] == (plan[k].mlId, plan[k].updates)
    decreases |plan|
  {
    if plan == [] then [] else CallsOf(plan[..|plan| - 1]) + [(plan[|plan| - 1].mlId, plan[|plan| - 1].updates)]
  }

  /** The update loop of `sync_products`; a dry run sends nothing. */
  method ApplyUpdates(plan: seq<PlannedUpdate>, m0: MapFile, dryRun: bool, put: (string, Updates) -> bool)
    returns (m: MapFile, errors: nat, calls: seq<(string, Updates)>)
    ensures dryRun ==> m == m0 && errors == 0 && calls == []
    ensures !dryRun ==> (m, errors) == ApplyAll(m0, plan, put) && calls == CallsOf(plan)
  {
    m, errors, calls := m0, 0, [];
    if plan == [] || dryRun {
      return;
    }
    var i := 0;
    while i < |plan|
      invariant 0 <= i <= |plan|
      invariant (m, errors) == ApplyAll(m0, plan[..i], put)
      invariant calls == CallsOf(plan[..i])
    {
      var u := plan[i];
      assert plan[..i + 1][..i] == plan[..i];
      var success := put(u.mlId, u.updates);
      calls := calls + [(u.mlId, u.updates)];
      if success {
        if u.updates.price.Some? {
          var skus := [u.sku, StripPrefixes(u.sku)];
          var k := 0;
          while k < 2
            invariant 0 <= k <= 2
            invariant m == if k == 0 then ApplyAll(m0, plan[..i], put).0
              else if k == 1 then SetPrice(ApplyAll(m0, plan[..i], put).0, u.sku, u.newPrice)
              else AfterSuccess(ApplyAll(m0, plan[..i], put).0, u)
          {
            var mapSku := skus[k];
            var e := Dicts.Get(m, mapSku);
            if e.Some? {
              m := Dicts.Put(m, mapSku, e.value.(price := Val(u.newPrice)));
            }
            k := k + 1;
          }
        }
      } else {
        errors := errors + 1;
      }
      i := i + 1;
    }
    assert plan[..i] == plan;
  }

  /** The error count is the number of updates the marketplace refused. */
  lemma {:induction false} ApplyErrors(m: MapFile, plan: seq<PlannedUpdate>, put: (string, Updates) -> bool)
    ensures ApplyAll(m, plan, put).1 == Seqs.Count(plan, u => Fails(put, u))
    ensures ApplyAll(m, plan, put).1 == 0 <==> forall i :: 0 <= i < |plan| ==> put(plan[i].mlId, plan[i].updates)
    decreases |plan|
  {
    if plan != [] {
      var init := plan[..|plan| - 1];
      ApplyErrors(m, init, put);
      forall i | 0 <= i < |init| ensures init[i] == plan[i] { }
    }
  }

  /** An entry changes at most in its price. */
  predicate SameButPrice(a: MapEntry, b: MapEntry) {
    a.(price := b.price) == b
  }

  /** One price write keeps the keys, sets the price under `k` when present, and
      leaves every other entry as it was. */
  lemma SetPriceEffect(m: MapFile, k: string, price: int, k': string)
    ensures Dicts.Keys(SetPrice(m, k, price)) == Dicts.Keys(m)
    ensures var before := Dicts.Get(m, k'); var after := Dicts.Get(SetPrice(m, k, price), k');
      && (before.None? <==> after.None?)
      && (before.Some? ==> SameButPrice(before.value, after.value))
      && (k' == k && before.Some? ==> after.value.price == Val(price))
      && (k' != k ==> after == before)
  {
    var e := Dicts.Get(m, k);
    if e.Some? {
      Dicts.GetNone(m, k);
      Dicts.PutKeys(m, k, e.value.(price := Val(price)));
      Dicts.PutGet(m, k, e.value.(price := Val(price)), k');
    }
  }

  /** A successful price update sets the map price under the sku and under the
      stripped sku wherever present, and touches no other entry or field. */
  lemma AfterSuccessEffect(m: MapFile, u: PlannedUpdate, k: string)
    requires u.updates.price.Some?
    ensures Dicts.Keys(AfterSuccess(m, u)) == Dicts.Keys(m)
    ensures var before := Dicts.Get(m, k); var after := Dicts.Get(AfterSuccess(m, u), k);
      && (before.None? <==> after.None?)
      && (before.Some? ==> SameButPrice(before.value, after.value))
      && ((k == u.sku || k == StripPrefixes(u.sku)) && before.Some? ==> after.value.price == Val(u.newPrice))
      && (k != u.sku && k != StripPrefixes(u.sku) ==> after == before)
  {
    var m1 := SetPrice(m, u.sku, u.newPrice);
    SetPriceEffect(m, u.sku, u.newPrice, k);
    SetPriceEffect(m1, StripPrefixes(u.sku), u.newPrice, k);
  }

  /** Applying the updates keeps the map's keys and changes entries only in their
      price. */
  lemma {:induction false} ApplyKeeps(m: MapFile, plan: seq<PlannedUpdate>, put: (string, Updates) -> bool, k: string)
    ensures Dicts.Keys(ApplyAll(m, plan, put).0) == Dicts.Keys(m)
    ensures var before := Dicts.Get(m, k); var after := Dicts.Get(ApplyAll(m, plan, put).0, k);
      (before.None? <==> after.None?) && (before.Some? ==> SameButPrice(before.value, after.value))
    decreases |plan|
  {
    if plan != [] {
      var init := plan[..|plan| - 1];
      ApplyKeeps(m, init, put, k);
      var u := plan[|plan| - 1];
      if put(u.mlId, u.updates) && u.updates.price.Some? {
        AfterSuccessEffect(ApplyAll(m, init, put).0, u, k);
      }
    }
  }

  /* ---------- sync_products ---------- */

  /** The run does not raise: the products dictionary has only string keys and no
      comparison raises against the fetched items. */
  predicate SyncSafe(productList: seq<Product>, m: MapFile, multiget: seq<string> -> Reply, mlPrice: int -> int) {
    PlansSafe(LoadProducts(productList), m, Fetched(FetchIds(m), multiget), mlPrice)
  }

  /** `sync_products(dry_run)` after the token check, on the products of
      `products.json` and the map file `m0`: returns whether no update failed, the
      counters, the map it saves, the multiget batches and the update requests. */
  method SyncProducts(productList: seq<Product>, m0: MapFile, dryRun: bool,
                      multiget: seq<string> -> Reply, put: (string, Updates) -> bool, mlPrice: int -> int)
    returns (ok: bool, stats: SyncStats, m: MapFile, queried: seq<seq<string>>, calls: seq<(string, Updates)>)
    requires SyncSafe(productList, m0, multiget, mlPrice)
    ensures queried == Seqs.Batches(FetchIds(m0), BatchSize)
    ensures var plan := Plan(LoadProducts(productList), m0, Fetched(FetchIds(m0), multiget), mlPrice);
      && stats.priceUpdates == Seqs.Count(plan, HasPrice)
      && stats.stockUpdates == Seqs.Count(plan, HasQuantity)
      && stats.skipped == 0
      && ok == (stats.errors == 0)
      && (dryRun ==> ok && m == m0 && calls == [])
      && (!dryRun ==> (m, stats.errors) == ApplyAll(m0, plan, put) && calls == CallsOf(plan))
  {
    var products := LoadProducts(productList);
    var ids, skuToId := CollectFetchIds(m0);
    var items;
    items, queried := FetchMlItems(ids, multiget);
    var plan, priceUpdates, stockUpdates := PlanUpdates(products, m0, items, mlPrice);
    var errors;
    m, errors, calls := ApplyUpdates(plan, m0, dryRun, put);
    stats := SyncStats(priceUpdates, stockUpdates, errors, 0);
    ok := errors == 0;
  }
}

/** The supplier scraper: fetching with retries, the sequential scraping loop with
    its price filter and incremental saves, the sitemap URL filter, the category
    list, and the change report written with `products.json`. */
module Scraper {
  import opened Py
  import Text
  import Seqs
  import Dicts
  import opened Catalog

  const BaseUrl: string := "https://www.proesi.com.br"
  const SourceName: string := "proesi"
  /** The default number of attempts of `fetch`. */
  const DefaultRetries: int := 3

  /* ---------- BaseScraper.fetch ---------- */

  function NonNeg(n: int): nat {
    if n < 0 then 0 else n
  }

  /** `fetch(url, retries)`: attempt `k` returns `attempt(k)`, where `None` is a request
      that raised or answered with an error status. The first body is returned; after a
      failed attempt `k` the scraper sleeps `delay * (k + 1)` seconds, but only when another
      attempt remains. `tries` counts the requests made, `waits` lists the sleeps. */
  method Fetch(retries: int, delay: real, attempt: nat -> Option<string>)
    returns (body: Option<string>, tries: nat, waits: seq<real>)
    ensures tries <= NonNeg(retries)
    ensures forall k :: 0 <= k < tries - 1 ==> attempt(k).None?
    ensures body.Some? ==> 0 < tries && body == attempt(tries - 1)
    ensures body.None? ==> tries == NonNeg(retries) && forall k :: 0 <= k < tries ==> attempt(k).None?
    ensures |waits| == if tries == 0 then 0 else tries - 1
    ensures forall k :: 0 <= k < |waits| ==> waits[k] == delay * (k + 1) as real
  {
    body := None;
    tries := 0;
    waits := [];
    while tries < retries
      invariant tries <= NonNeg(retries)
      invariant forall k :: 0 <= k < tries ==> attempt(k).None?
      invariant |waits| == if tries < retries || tries == 0 then tries else tries - 1
      invariant forall k :: 0 <= k < |waits| ==> waits[k] == delay * (k + 1) as real
    {
      var response := attempt(tries);
      tries := tries + 1;
      if response.Some? {
        body := response;
        return;
      }
      if tries - 1 < retries - 1 {
        waits := waits + [delay * tries as real];
      }
    }
  }

  /* ---------- ProesiScraper.get_product_urls ---------- */

  /** A sitemap `<loc>` that names a product page: on the store's own host, not an
      image file, not served from the image CDN. */
  predicate IsProductUrl(u: string) {
    && "https://www.proesi.com.br/" <= u
    && !(Text.EndsWith(u, ".jpg") || Text.EndsWith(u, ".jpeg") || Text.EndsWith(u, ".png")
         || Text.EndsWith(u, ".gif") || Text.EndsWith(u, ".webp"))
    && !Text.Contains(u, "cdn.magazord")
  }

  /** `get_product_urls`: no sitemap (a failed or empty download) gives no URLs;
      otherwise the product URLs among the sitemap's `<loc>` texts, in order.
      `locs` stands for the XML parser. */
  function ProductUrls(xml: Option<string>, locs: string -> seq<string>): (urls: seq<string>)
    ensures !OptTruthy(xml) ==> urls == []
    ensures OptTruthy(xml) ==> urls == Seqs.Filter(locs(xml.value), IsProductUrl)
    ensures forall i :: 0 <= i < |urls| ==> IsProductUrl(urls[i])
    ensures OptTruthy(xml) ==>
      forall i :: 0 <= i < |locs(xml.value)| && IsProductUrl(locs(xml.value)[i]) ==> locs(xml.value)[i] in urls
  {
    if OptTruthy(xml) then Seqs.Filter(locs(xml.value), IsProductUrl) else []
  }

  /* ---------- BaseScraper.scrape_all ---------- */

  /** `if limit: urls = urls[:limit]` (0 and `None` mean no limit; a negative limit
      slices from the end, as Python does). */
  function Limited<T>(xs: seq<T>, limit: Option<int>): (r: seq<T>)
    ensures r <= xs
    ensures limit.None? || limit.value == 0 ==> r == xs
    ensures limit.Some? && 0 < limit.value ==> |r| == if limit.value < |xs| then limit.value else |xs|
  {
    if limit.Some? && limit.value != 0 then SliceTo(xs, limit.value) else xs
  }

  /** The parse result is kept: a product whose price is truthy and at least the
      minimum (a price equal to the minimum is accepted). */
  predicate Accepts(r: Option<Product>, minPrice: int) {
    r.Some? && IntTruthy(r.value.price) && r.value.price.value >= minPrice
  }

  /** The products kept from `urls`, in URL order. */
  function Accepted(urls: seq<string>, parse: string -> Option<Product>, minPrice: int): (ps: seq<Product>)
    ensures |ps| <= |urls|
    ensures forall i :: 0 <= i < |ps| ==> IntTruthy(ps[i].price) && ps[i].price.value >= minPrice
    decreases |urls|
  {
    if urls == [] then []
    else
      var ps := Accepted(urls[..|urls| - 1], parse, minPrice);
      var r := parse(urls[|urls| - 1]);
      if Accepts(r, minPrice) then ps + [r.value] else ps
  }

  /** Acceptance looks at each URL alone, so the accepted products of a concatenation
      are those of each part, in order. */
  lemma {:induction false} AcceptedConcat(a: seq<string>, b: seq<string>, parse: string -> Option<Product>, minPrice: int)
    ensures Accepted(a + b, parse, minPrice) == Accepted(a, parse, minPrice) + Accepted(b, parse, minPrice)
    decreases |b|
  {
    if b == [] {
      assert a + b == a;
    } else {
      AcceptedConcat(a, b[..|b| - 1], parse, minPrice);
      assert (a + b)[..|a + b| - 1] == a + b[..|b| - 1];
      assert (a + b)[|a + b| - 1] == b[|b| - 1];
    }
  }

  /** The number of products between two incremental saves (at least one). */
  function Step(saveInterval: int): (s: int)
    ensures s >= 1
  {
    if saveInterval >= 1 then saveInterval else 1
  }

  /** `scrape_all(limit, save_callback, save_interval)`. `urls` is what
      `get_product_urls` returned and `parse` stands for `parse_product`. The callback,
      when there is one, is called with the product list each time it has grown by
      `save_interval` since the last call; `saves` records the lists it received. */
  method ScrapeAll(urls: seq<string>, limit: Option<int>, parse: string -> Option<Product>,
                   minPrice: int, hasCallback: bool, saveInterval: int)
    returns (products: seq<Product>, saves: seq<seq<Product>>, lastSaveCount: int)
    ensures products == Accepted(Limited(urls, limit), parse, minPrice)
    ensures !hasCallback ==> saves == [] && lastSaveCount == 0
    ensures hasCallback ==> lastSaveCount == |saves| * Step(saveInterval)
    ensures hasCallback ==> lastSaveCount <= |products| < lastSaveCount + Step(saveInterval)
    ensures forall k :: 0 <= k < |saves| ==>
              |saves[k]| == (k + 1) * Step(saveInterval) && saves[k] == products[..|saves[k]|]
  {
    var todo := Limited(urls, limit);
    var s := Step(saveInterval);
    products := [];
    saves := [];
    lastSaveCount := 0;
    var i := 0;
    while i < |todo|
      invariant 0 <= i <= |todo|
      invariant products == Accepted(todo[..i], parse, minPrice)
      invariant !hasCallback ==> saves == [] && lastSaveCount == 0
      invariant hasCallback ==> lastSaveCount == |saves| * s
      invariant hasCallback ==> lastSaveCount <= |products| < lastSaveCount + s
      invariant forall k :: 0 <= k < |saves| ==> |saves[k]| == (k + 1) * s
      invariant forall k :: 0 <= k < |saves| ==> |saves[k]| <= lastSaveCount && saves[k] == products[..|saves[k]|]
    {
      assert todo[..i + 1][..i] == todo[..i];
      var product := parse(todo[i]);
      if product.Some? && IntTruthy(product.value.price) && product.value.price.value >= minPrice {
        products := products + [product.value];
        if hasCallback && |products| >= lastSaveCount + saveInterval {
          SaveStep(|saves|, s, saveInterval, lastSaveCount, |products|);
          saves := saves + [products];
          lastSaveCount := |products|;
        }
      }
      i := i + 1;
    }
    assert todo[..i] == todo;
  }

  /** One save: the list has grown by exactly one step since the last one. */
  lemma SaveStep(n: int, s: int, saveInterval: int, last: int, len: int)
    requires s == Step(saveInterval) && last == n * s && last < len <= last + s
    requires len >= last + saveInterval
    ensures len == (n + 1) * s
  {
  }

  /* ---------- generate_categories ---------- */

  /** One entry of the category list written to `products.json`. */
  datatype Category = Category(id: string, name: string, count: int)

  /** The product names category `c` (`product.get('category')` is truthy and is `c`). */
  predicate HasCategory(p: Product, c: string) {
    Truthy(p.category) && p.category.value == c
  }

  /** `product.get('category')` is truthy. */
  predicate HasSomeCategory(p: Product) {
    Truthy(p.category)
  }

  /** The truthy categories of `ps`, in product order. */
  function CategoryNames(ps: seq<Product>): (cs: seq<string>)
    ensures forall i :: 0 <= i < |cs| ==> cs[i] != ""
    decreases |ps|
  {
    if ps == [] then []
    else
      var last := ps[|ps| - 1];
      CategoryNames(ps[..|ps| - 1]) + (if Truthy(last.category) then [last.category.value] else [])
  }

  /** The dictionary the counting loop builds from a list of names: each name is a
      key, incremented (from 0 when absent) at each occurrence. */
  function Tally(cs: seq<string>): Dicts.Dict<string, int>
    decreases |cs|
  {
    if cs == [] then [] else Bump(Tally(cs[..|cs| - 1]), cs[|cs| - 1])
  }

  /** `counts[c] = counts.get(c, 0) + 1`. */
  function Bump(d: Dicts.Dict<string, int>, c: string): Dicts.Dict<string, int> {
    Dicts.Put(d, c, (if Dicts.Get(d, c).Some? then Dicts.Get(d, c).value else 0) + 1)
  }

  /** The tally holds one key per name, in order of first appearance. */
  lemma {:induction false} TallyKeys(cs: seq<string>)
    ensures Dicts.Keys(Tally(cs)) == Seqs.Distinct(cs)
    decreases |cs|
  {
    if cs != [] {
      var init := cs[..|cs| - 1];
      var c := cs[|cs| - 1];
      TallyKeys(init);
      var d := Tally(init);
      var v := (if Dicts.Get(d, c).Some? then Dicts.Get(d, c).value else 0) + 1;
      Dicts.PutKeys(d, c, v);
      if c !in Dicts.Keys(d) {
        Dicts.KeysSnoc(d, (c, v));
      }
      assert cs == init + [c];
      Seqs.DistinctSnoc(init, c);
    }
  }

  /** A name's count is its number of occurrences; names that do not occur are
      absent. */
  lemma {:induction false} TallyGet(cs: seq<string>, c: string)
    ensures Dicts.Get(Tally(cs), c) == if c in cs then Some(Seqs.Occurrences(cs, c)) else None
    decreases |cs|
  {
    if cs != [] {
      var init := cs[..|cs| - 1];
      var k := cs[|cs| - 1];
      var d := Tally(init);
      var v := (if Dicts.Get(d, k).Some? then Dicts.Get(d, k).value else 0) + 1;
      Dicts.PutGet(d, k, v, c);
      assert cs == init + [k];
      if k == c {
        TallyGet(init, k);
        assert v == Seqs.Occurrences(init, c) + 1;
        assert Seqs.Occurrences(cs, c) == Seqs.Occurrences(init, c) + 1;
      } else {
        TallyGet(init, c);
        assert Seqs.Occurrences(cs, c) == Seqs.Occurrences(init, c);
        assert c in cs <==> c in init;
      }
    }
  }

  /** The sum of the counts of a dictionary. */
  function SumCounts(d: Dicts.Dict<string, int>): int
    decreases |d|
  {
    if d == [] then 0 else d[0].1 + SumCounts(d[1..])
  }

  lemma {:induction false} SumCountsPut(d: Dicts.Dict<string, int>, k: string, v: int)
    ensures SumCounts(Dicts.Put(d, k, v)) ==
      SumCounts(d) + v - (if Dicts.Get(d, k).Some? then Dicts.Get(d, k).value else 0)
    decreases |d|
  {
    if d != [] && d[0].0 != k {
      SumCountsPut(d[1..], k, v);
      assert Dicts.Put(d, k, v) == [d[0]] + Dicts.Put(d[1..], k, v);
    }
  }

  /** The counts add up to the number of names tallied. */
  lemma {:induction false} TallySum(cs: seq<string>)
    ensures SumCounts(Tally(cs)) == |cs|
    decreases |cs|
  {
    if cs != [] {
      var init := cs[..|cs| - 1];
      TallySum(init);
      var d := Tally(init);
      var c := cs[|cs| - 1];
      SumCountsPut(d, c, (if Dicts.Get(d, c).Some? then Dicts.Get(d, c).value else 0) + 1);
    }
  }

  /** A name occurs in the category names as often as products name it, and there
      is one name per product with a truthy category. */
  lemma {:induction false} CategoryNamesCount(ps: seq<Product>, c: string)
    ensures Seqs.Occurrences(CategoryNames(ps), c) == Seqs.Count(ps, (p: Product) => HasCategory(p, c))
    ensures |CategoryNames(ps)| == Seqs.Count(ps, HasSomeCategory)
    decreases |ps|
  {
    if ps != [] {
      var init := ps[..|ps| - 1];
      CategoryNamesCount(init, c);
      var last := ps[|ps| - 1];
      if Truthy(last.category) {
        assert CategoryNames(ps) == CategoryNames(init) + [last.category.value];
      } else {
        assert CategoryNames(ps) == CategoryNames(init);
      }
    }
  }

  /** The sort key `-count`, compared with `<` on integers. */
  function NegCount(e: (string, int)): int {
    -e.1
  }

  function IntLt(a: int, b: int): bool {
    a < b
  }

  lemma IntLtOrder()
    ensures Seqs.StrictTotalOrder(IntLt)
  {
  }

  /** The entry for a counted category: its id, the id with dashes turned into
      spaces and title-cased, and its count. */
  function CategoryOf(e: (string, int), title: string -> string): (c: Category)
    ensures c.id == e.0 && c.count == e.1
  {
    Category(e.0, title(Text.ReplaceAll(e.0, "-", " ")), e.1)
  }

  /** The counting loop of `generate_categories`: `category_counts` ends as the tally
      of the truthy categories, in product order. */
  method CountCategories(products: seq<Product>) returns (counts: Dicts.Dict<string, int>)
    ensures counts == Tally(CategoryNames(products))
  {
    counts := [];
    var i := 0;
    while i < |products|
      invariant 0 <= i <= |products|
      invariant counts == Tally(CategoryNames(products[..i]))
    {
      var p := products[i];
      NamesStep(products, i);
      if Truthy(p.category) {
        var c := p.category.value;
        TallyStep(CategoryNames(products[..i]), c);
        var n := Dicts.Get(counts, c);
        counts := Dicts.Put(counts, c, (if n.Some? then n.value else 0) + 1);
      }
      i := i + 1;
    }
    assert products[..i] == products;
  }

  /** `generate_categories(products)`: counts the truthy categories in a dictionary,
      then lists them by descending count with Python's stable `sorted`; `title`
      stands for `str.title()`. */
  method GenerateCategories(products: seq<Product>, title: string -> string) returns (cats: seq<Category>)
    ensures var sorted := Seqs.SortBy(Tally(CategoryNames(products)), NegCount, IntLt);
      && |cats| == |sorted|
      && forall i :: 0 <= i < |cats| ==> cats[i] == CategoryOf(sorted[i], title)
  {
    var counts := CountCategories(products);
    var sorted := Seqs.SortBy(counts, NegCount, IntLt);
    cats := seq(|sorted|, k requires 0 <= k < |sorted| => CategoryOf(sorted[k], title));
  }

  lemma NamesStep(products: seq<Product>, i: int)
    requires 0 <= i < |products|
    ensures Truthy(products[i].category) ==>
      CategoryNames(products[..i + 1]) == CategoryNames(products[..i]) + [products[i].category.value]
    ensures !Truthy(products[i].category) ==> CategoryNames(products[..i + 1]) == CategoryNames(products[..i])
  {
    assert products[..i + 1][..i] == products[..i];
    assert CategoryNames(products[..i]) + [] == CategoryNames(products[..i]);
  }

  lemma TallyStep(names: seq<string>, c: string)
    ensures Tally(names + [c]) == Bump(Tally(names), c)
  {
    assert (names + [c])[..|names + [c]| - 1] == names;
  }

  /** The category list has one entry per distinct truthy category, sorted by
      non-increasing count, each with the number of products naming it; the counts
      add up to the number of products with a category, and equal counts keep the
      order in which the categories first appeared. */
  lemma CategoriesCorrect(products: seq<Product>)
    ensures var d := Tally(CategoryNames(products));
      var sorted := Seqs.SortBy(d, NegCount, IntLt);
      && multiset(sorted) == multiset(d)
      && (forall i, j :: 0 <= i < j < |sorted| ==> sorted[i].1 >= sorted[j].1)
      && (forall k :: Seqs.WithKey(sorted, NegCount, k) == Seqs.WithKey(d, NegCount, k))
      && Dicts.Keys(d) == Seqs.Distinct(CategoryNames(products))
      && (forall c :: Dicts.Get(d, c).Some? ==> Dicts.Get(d, c).value == Seqs.Count(products, (p: Product) => HasCategory(p, c)))
      && SumCounts(d) == Seqs.Count(products, HasSomeCategory)
  {
    var names := CategoryNames(products);
    var d := Tally(names);
    IntLtOrder();
    Seqs.SortByCorrect(d, NegCount, IntLt);
    var sorted := Seqs.SortBy(d, NegCount, IntLt);
    forall i, j | 0 <= i < j < |sorted| ensures sorted[i].1 >= sorted[j].1 {
      assert !IntLt(NegCount(sorted[j]), NegCount(sorted[i]));
    }
    TallyKeys(names);
    forall c | Dicts.Get(d, c).Some? ensures Dicts.Get(d, c).value == Seqs.Count(products, (p: Product) => HasCategory(p, c)) {
      TallyGet(names, c);
      CategoryNamesCount(products, c);
    }
    TallySum(names);
    CategoryNamesCount(products, "");
  }

  /* ---------- save_products: the change report ---------- */

  /** `{p['id']: p for p in ps}`. */
  function ById(ps: seq<Product>): map<Field<string>, Product>
    decreases |ps|
  {
    if ps == [] then map[] else ById(ps[..|ps| - 1])[ps[|ps| - 1].id := ps[|ps| - 1]]
  }

  /** The keys of `ById(ps)` are the ids of `ps`. */
  lemma {:induction false} ByIdKeys(ps: seq<Product>)
    ensures ById(ps).Keys == Ids(ps)
    decreases |ps|
  {
    if ps != [] {
      var init := ps[..|ps| - 1];
      ByIdKeys(init);
      IdsSnoc(init, ps[|ps| - 1]);
      assert ps == init + [ps[|ps| - 1]];
    }
  }

  lemma IdsSnoc(ps: seq<Product>, p: Product)
    ensures Ids(ps + [p]) == Ids(ps) + {p.id}
  {
    assert (ps + [p])[|ps|] == p;
    forall x | x in Ids(ps) ensures x in Ids(ps + [p]) {
      var i :| 0 <= i < |ps| && ps[i].id == x;
      assert (ps + [p])[i] == ps[i];
    }
  }

  /** Each id maps to the last product carrying it. */
  lemma {:induction false} ByIdLast(ps: seq<Product>, i: int)
    requires 0 <= i < |ps| && LastWithId(ps, i)
    ensures ps[i].id in ById(ps) && ById(ps)[ps[i].id] == ps[i]
    decreases |ps|
  {
    var init := ps[..|ps| - 1];
    if i < |ps| - 1 {
      assert ps[i] == init[i];
      assert LastWithId(init, i) by {
        forall j | i < j < |init| ensures init[j].id != init[i].id {
          assert ps[j] == init[j];
        }
      }
      ByIdLast(init, i);
    }
  }

  /** The ids of `ps`. */
  function Ids(ps: seq<Product>): set<Field<string>> {
    set i | 0 <= i < |ps| :: ps[i].id
  }

  /** No product after index `i` has the id of `ps[i]`. */
  predicate LastWithId(ps: seq<Product>, i: int)
    requires 0 <= i < |ps|
  {
    forall j :: i < j < |ps| ==> ps[j].id != ps[i].id
  }

  /** One entry of `price_changed`. */
  datatype PriceChange = PriceChange(id: Field<string>, name: Field<string>, oldPrice: Option<int>, newPrice: Option<int>)

  /** What `save_products` returns. */
  datatype SaveReport = SaveReport(added: nat, removed: nat, priceChanged: nat, total: nat)

  /** The ids present before and after whose price (`.get('price')`) differs. */
  function ChangedIds(olds: map<Field<string>, Product>, news: map<Field<string>, Product>): set<Field<string>>
  {
    set pid | pid in news.Keys * olds.Keys && PriceDiffers(olds[pid], news[pid])
  }

  predicate PriceDiffers(o: Product, n: Product) {
    Get(o.price) != Get(n.price)
  }

  /** `new_products[pid]['name']` does not raise for a changed id. */
  predicate ChangedHaveNames(olds: map<Field<string>, Product>, news: map<Field<string>, Product>) {
    forall pid :: pid in ChangedIds(olds, news) ==> !news[pid].name.Absent?
  }

  /** `c` records the new name and both prices of a product present before and after. */
  predicate ChangeFor(olds: map<Field<string>, Product>, news: map<Field<string>, Product>, c: PriceChange) {
    && c.id in news && c.id in olds
    && c.name == news[c.id].name
    && c.oldPrice == Get(olds[c.id].price)
    && c.newPrice == Get(news[c.id].price)
  }

  predicate AllChangesFor(olds: map<Field<string>, Product>, news: map<Field<string>, Product>, cs: seq<PriceChange>) {
    forall i :: 0 <= i < |cs| ==> ChangeFor(olds, news, cs[i])
  }

  lemma AllChangesSnoc(olds: map<Field<string>, Product>, news: map<Field<string>, Product>, cs: seq<PriceChange>, c: PriceChange)
    requires AllChangesFor(olds, news, cs) && ChangeFor(olds, news, c)
    ensures AllChangesFor(olds, news, cs + [c])
  {
    assert forall i :: 0 <= i < |cs| ==> (cs + [c])[i] == cs[i];
  }

  /** The ids the entries of `cs` are about. */
  function ChangeIds(cs: seq<PriceChange>): set<Field<string>> {
    set i | 0 <= i < |cs| :: cs[i].id
  }

  lemma ChangeIdsSnoc(cs: seq<PriceChange>, c: PriceChange)
    ensures ChangeIds(cs + [c]) == ChangeIds(cs) + {c.id}
  {
    assert (cs + [c])[|cs|] == c;
    forall x | x in ChangeIds(cs) ensures x in ChangeIds(cs + [c]) {
      var i :| 0 <= i < |cs| && cs[i].id == x;
      assert (cs + [c])[i] == cs[i];
    }
  }

  /** Taking `x` out of the ids still to visit adds it to the changed ids visited,
      when it is one of them. */
  lemma TodoStep<T>(todo: set<T>, changed: set<T>, x: T)
    requires x in todo
    ensures x in changed ==>
      changed - (todo - {x}) == (changed - todo) + {x} && |changed - (todo - {x})| == |changed - todo| + 1
    ensures x !in changed ==> changed - (todo - {x}) == changed - todo
  {
    if x in changed {
      assert x !in changed - todo;
    }
  }

  /** The comparison loop of `save_products`: one entry per common id whose price
      changed, visiting the common ids in an unspecified order. A changed product
      without `name` raises. */
  method PriceChanges(olds: map<Field<string>, Product>, news: map<Field<string>, Product>)
    returns (changes: seq<PriceChange>)
    requires ChangedHaveNames(olds, news)
    ensures |changes| == |ChangedIds(olds, news)|
    ensures ChangeIds(changes) == ChangedIds(olds, news)
    ensures AllChangesFor(olds, news, changes)
  {
    ghost var changed := ChangedIds(olds, news);
    var todo := news.Keys * olds.Keys;
    changes := [];
    while todo != {}
      invariant todo <= news.Keys * olds.Keys
      invariant |changes| == |changed - todo|
      invariant AllChangesFor(olds, news, changes)
      invariant ChangeIds(changes) == changed - todo
      decreases |todo|
    {
      var pid :| pid in todo;
      var oldPrice := Get(olds[pid].price);
      var newPrice := Get(news[pid].price);
      TodoStep(todo, changed, pid);
      if oldPrice != newPrice {
        var c := PriceChange(pid, news[pid].name, oldPrice, newPrice);
        ChangeIdsSnoc(changes, c);
        AllChangesSnoc(olds, news, changes, c);
        changes := changes + [c];
      }
      todo := todo - {pid};
    }
    assert changed - {} == changed;
  }

  /** `save_products(products, source)`, without the file writing: `oldProducts` is the
      product list of the previous `products.json` (empty when there is none or it is
      not valid JSON). A product without `id` raises. */
  method SaveProducts(products: seq<Product>, oldProducts: seq<Product>)
    returns (report: SaveReport, changes: seq<PriceChange>)
    requires forall i :: 0 <= i < |products| ==> !products[i].id.Absent?
    requires forall i :: 0 <= i < |oldProducts| ==> !oldProducts[i].id.Absent?
    requires ChangedHaveNames(ById(oldProducts), ById(products))
    ensures var olds := ById(oldProducts); var news := ById(products);
      && report.added == |news.Keys - olds.Keys|
      && report.removed == |olds.Keys - news.Keys|
      && report.priceChanged == |ChangedIds(olds, news)| == |changes|
      && report.total == |products|
      && ChangeIds(changes) == ChangedIds(olds, news)
      && AllChangesFor(olds, news, changes)
  {
    var olds := ById(oldProducts);
    var news := ById(products);
    var added := news.Keys - olds.Keys;
    var removed := olds.Keys - news.Keys;
    changes := PriceChanges(olds, news);
    report := SaveReport(|added|, |removed|, |changes|, |products|);
  }

  /** Helper fact about the report's counts, which split the ids: every id of the
      new list is added or common, every id of the old list is removed or common,
      and price changes are among the common ids. */
  lemma SaveReportPartition(olds: map<Field<string>, Product>, news: map<Field<string>, Product>)
    ensures |news.Keys - olds.Keys| + |news.Keys * olds.Keys| == |news.Keys|
    ensures |olds.Keys - news.Keys| + |news.Keys * olds.Keys| == |olds.Keys|
    ensures |ChangedIds(olds, news)| <= |news.Keys * olds.Keys|
  {
    var a, b := news.Keys, olds.Keys;
    assert a == (a - b) + (a * b) && (a - b) !! (a * b);
    assert b == (b - a) + (a * b) && (b - a) !! (a * b);
    assert ChangedIds(olds, news) <= a * b;
    Cardinality(ChangedIds(olds, news), a * b);
  }

  lemma Cardinality<T>(x: set<T>, y: set<T>)
    requires x <= y
    ensures |x| <= |y|
  {
    assert y == x + (y - x);
  }
}

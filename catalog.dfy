/** The records the scripts exchange through JSON files: a catalog product as the
    scraper writes it to `products.json`, an entry of the marketplace map
    `ml_products_map.json`, and an item as the marketplace's multiget returns it.
    Prices are integer cents throughout. */
module Catalog {
  import opened Py
  import Text

  /** A product of `products.json`. Every key may be missing or `null`. */
  datatype Product = Product(
    id: Field<string>,
    sku: Field<string>,
    name: Field<string>,
    slug: Field<string>,
    brand: Field<string>,
    price: Field<int>,
    stock: Field<int>,
    inStock: Field<bool>,
    description: Field<string>,
    specs: Field<seq<(string, string)>>,
    category: Field<string>,
    categoryPath: Field<seq<string>>,
    image: Field<string>,
    images: Field<seq<string>>,
    datasheet: Field<string>,
    sourceUrl: Field<string>,
    supplier: Field<string>,
    warranty: Field<string>,
    ean: Field<string>,
    gtin: Field<string>)

  /** `p.get('sku', p.get('id', ''))`: the sku when the key exists (even when it is
      `null` or empty), otherwise the id, otherwise "". */
  function SkuOrId(p: Product): (r: Field<string>)
    ensures !r.Absent?
    ensures !p.sku.Absent? ==> r == p.sku
    ensures p.sku.Absent? && !p.id.Absent? ==> r == p.id
  {
    GetOr(p.sku, GetOr(p.id, Val("")))
  }

  /** `p.get('inStock', False)` is truthy. */
  predicate InStock(p: Product) {
    BoolTruthy(p.inStock)
  }

  /** `p.get('inStock', False) and p.get('price', 0) > 0`, the filter the marketplace
      scripts apply before listing or exporting. */
  predicate Listable(p: Product) {
    InStock(p) && p.price.Val? && p.price.value > 0
  }

  /** The filter above does not raise: a `null` price is only compared when the
      product is in stock. */
  predicate ListableSafe(p: Product) {
    InStock(p) ==> !p.price.Null?
  }

  /** An entry of the marketplace map, keyed by sku in the file. `others` names the
      keys the scripts never read; a dict with no keys at all is falsy. */
  datatype MapEntry = MapEntry(
    mlId: Field<string>,
    status: Field<string>,
    price: Field<int>,
    originalPrice: Field<int>,
    condition: Field<string>,
    others: set<string>)

  predicate EntryTruthy(e: MapEntry) {
    !e.mlId.Absent? || !e.status.Absent? || !e.price.Absent? || !e.originalPrice.Absent?
    || !e.condition.Absent? || e.others != {}
  }

  /** `entry.get('status') == 'active'`. */
  predicate Active(e: MapEntry) {
    e.status == Val("active")
  }

  /** A marketplace item as the multiget returns it in an entry's `body`. */
  datatype MlItem = MlItem(
    id: Field<string>,
    price: Field<int>,
    originalPrice: Field<int>,
    availableQuantity: Field<int>,
    condition: Field<string>)

  /** One element of a multiget response: a status code and the item. */
  datatype MultigetEntry = MultigetEntry(code: Field<int>, body: Field<MlItem>)

  /** How one multiget request ends: it raised (a network error or a body that is
      not JSON), or it answered with a status code and its list of entries. */
  datatype Reply = Raised | Answered(status: int, entries: seq<MultigetEntry>)

  /** The marketplace's multiget accepts at most this many ids per request. */
  const BatchSize: nat := 20

  /** `ml_id.replace('-', '')`: marketplace ids are compared without dashes. */
  function Undash(s: string): (r: string)
    ensures '-' !in r
    ensures |r| <= |s|
    ensures forall c :: c in r ==> c in s
    ensures '-' !in s ==> r == s
  {
    Text.ReplaceCharGone(s, '-', "");
    Text.ReplaceChars(s, "-", "");
    Text.ReplaceShrinks(s, "-", "");
    if '-' !in s then Text.ContainsChar(s, '-'); Text.ReplaceAbsent(s, "-", ""); Text.ReplaceAll(s, "-", "")
    else Text.ReplaceAll(s, "-", "")
  }

  /** `entry.get('ml_id', '').replace('-', '')` (a `null` id raises). */
  function EntryId(e: MapEntry): (id: string)
    requires !e.mlId.Null?
    ensures '-' !in id
  {
    Undash(if e.mlId.Val? then e.mlId.value else "")
  }
}

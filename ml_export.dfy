/** The bulk-import CSV exporter: the fee and category rules, the filter of the
    catalog, the rows it builds and their order, and the name of the simplified
    sheet. Fees are in basis points (1400 = 14%). */
module MlExport {
  import opened Py
  import Text
  import Seqs
  import opened Catalog
  import opened MlListing

  /* ---------- fee by category ---------- */

  const DefaultFee: int := 1300
  const ElectronicsFee: int := 1400
  const InformaticsFee: int := 1300
  const ToolsFee: int := 1200
  const IndustryFee: int := 1100

  const ElectronicsTerms: seq<string> := ["arduino", "esp32", "raspberry", "microcontrolador", "placa"]
  const IndustryTerms: seq<string> := ["clp", "plc", "inversor", "servo", "automação", "industrial"]
  const ToolsTerms: seq<string> := ["alicate", "chave", "ferramenta", "solda"]
  const InformaticsTerms: seq<string> := ["cabo", "fio", "conector", "sensor"]

  /** `(product.get('category', '') or '')`. */
  function CategoryName(p: Product): string {
    Cell(p.category)
  }

  /** `product.get('categoryPath', []) or []`. */
  function PathOf(p: Product): seq<string> {
    if p.categoryPath.Val? then p.categoryPath.value else []
  }

  /** The text the fee rule searches: the lowercased category, a space, and the
      lowercased path joined by spaces. */
  function FeeText(p: Product): string {
    Text.Lower(CategoryName(p)) + " " + Text.Lower(Text.Join(" ", PathOf(p)))
  }

  /** `any(term in text for term in terms)`. */
  predicate AnyTerm(terms: seq<string>, text: string) {
    exists i :: 0 <= i < |terms| && Text.Contains(text, terms[i])
  }

  /** `get_ml_category_fee`: the term groups are tried in the order electronics,
      industry, tools, informatics; the first group with a term in the text decides
      the fee, and a text with none of them pays the default. */
  function CategoryFee(p: Product): int {
    var text := FeeText(p);
    if AnyTerm(ElectronicsTerms, text) then ElectronicsFee
    else if AnyTerm(IndustryTerms, text) then IndustryFee
    else if AnyTerm(ToolsTerms, text) then ToolsFee
    else if AnyTerm(InformaticsTerms, text) then InformaticsFee
    else DefaultFee
  }

  /** Which fee a product pays: the first group, in the fixed order, with a term in
      its category text decides, and informatics pays the default rate. */
  lemma CategoryFeeOrder(p: Product)
    ensures var fee := CategoryFee(p); var text := FeeText(p);
      && (fee == ElectronicsFee <==> AnyTerm(ElectronicsTerms, text))
      && (fee == IndustryFee <==> !AnyTerm(ElectronicsTerms, text) && AnyTerm(IndustryTerms, text))
      && (fee == ToolsFee <==> !AnyTerm(ElectronicsTerms, text) && !AnyTerm(IndustryTerms, text) && AnyTerm(ToolsTerms, text))
      && (fee == DefaultFee <==> !AnyTerm(ElectronicsTerms, text) && !AnyTerm(IndustryTerms, text) && !AnyTerm(ToolsTerms, text))
  {
  }

  /* ---------- category id ---------- */

  /** `category_mapping`, in its dictionary order. */
  const CategoryMapping: seq<(string, string)> := [
    ("arduino", "MLB1648"), ("esp32", "MLB1648"), ("raspberry", "MLB1648"), ("sensor", "MLB1648"),
    ("cabo", "MLB1648"), ("ferramenta", "MLB278936"), ("alicate", "MLB278936"),
    ("multimetro", "MLB278936"), ("inversor", "MLB1648"), ("clp", "MLB1648"), ("plc", "MLB1648"),
    ("rele", "MLB1648"), ("fonte", "MLB1648"), ("conector", "MLB1648")]

  const DefaultCategoryId: string := "MLB1648"

  /** The key at `k` is the first key of `mapping` that occurs in `text`. */
  predicate FirstAt(mapping: seq<(string, string)>, text: string, k: int) {
    && 0 <= k < |mapping| && Text.Contains(text, mapping[k].0)
    && forall j :: 0 <= j < k ==> !Text.Contains(text, mapping[j].0)
  }

  /** The value of the first key of `mapping` that occurs in `text`. */
  function FirstKeyIn(mapping: seq<(string, string)>, text: string): (r: Option<string>)
    ensures r.None? <==> forall k :: 0 <= k < |mapping| ==> !Text.Contains(text, mapping[k].0)
    ensures r.Some? ==> exists k :: FirstAt(mapping, text, k) && r.value == mapping[k].1
    decreases |mapping|
  {
    if mapping == [] then None
    else if Text.Contains(text, mapping[0].0) then
      assert FirstAt(mapping, text, 0);
      Some(mapping[0].1)
    else
      var r := FirstKeyIn(mapping[1..], text);
      assert forall k :: 1 <= k < |mapping| ==> mapping[k] == mapping[1..][k - 1];
      if r.Some? then
        var k' :| FirstAt(mapping[1..], text, k') && r.value == mapping[1..][k'].1;
        assert FirstAt(mapping, text, k' + 1);
        r
      else r
  }

  /** At most one key is the first one found. */
  lemma FirstAtUnique(mapping: seq<(string, string)>, text: string, k: int, k': int)
    requires FirstAt(mapping, text, k) && FirstAt(mapping, text, k')
    ensures k == k'
  {
  }

  /** The text the category rule searches: category and path, lowercased together. */
  function IdText(p: Product): string {
    Text.Lower(Text.Lower(CategoryName(p)) + " " + Text.Join(" ", PathOf(p)))
  }

  /** The id chosen for the searched text. */
  function MappedId(text: string): string {
    var hit := FirstKeyIn(CategoryMapping, text);
    if hit.Some? then hit.value else DefaultCategoryId
  }

  /** `get_ml_category_id`. */
  function CategoryId(p: Product): string {
    MappedId(IdText(p))
  }

  /** The two ids of the mapping, and where the tools id sits. */
  lemma MappingValues()
    ensures "MLB278936" != DefaultCategoryId
    ensures forall k :: 0 <= k < |CategoryMapping| ==>
      (CategoryMapping[k].1 == "MLB278936" <==> 5 <= k < 8) && (CategoryMapping[k].1 == "MLB278936" || CategoryMapping[k].1 == DefaultCategoryId)
  {
    assert "MLB278936" != "MLB1648" by { assert "MLB278936"[3] != "MLB1648"[3]; }
    forall k | 0 <= k < |CategoryMapping|
      ensures CategoryMapping[k].1 == "MLB278936" <==> 5 <= k < 8
      ensures CategoryMapping[k].1 == "MLB278936" || CategoryMapping[k].1 == DefaultCategoryId
    {
    }
  }

  /** The id is the value of the first mapping key found in the text, and the
      default when no key occurs. */
  lemma CategoryIdFirst(text: string)
    ensures var id := MappedId(text);
      && ((forall k :: 0 <= k < |CategoryMapping| ==> !Text.Contains(text, CategoryMapping[k].0)) ==> id == DefaultCategoryId)
      && (forall k :: FirstAt(CategoryMapping, text, k) ==> id == CategoryMapping[k].1)
  {
    var hit := FirstKeyIn(CategoryMapping, text);
    if hit.Some? {
      var k :| FirstAt(CategoryMapping, text, k) && hit.value == CategoryMapping[k].1;
      forall k' | FirstAt(CategoryMapping, text, k') ensures k' == k {
        FirstAtUnique(CategoryMapping, text, k, k');
      }
    }
  }

  /** The id is always one of the two, and the tools id comes only from a tools key
      found before any other. */
  lemma CategoryIdTools(text: string)
    ensures var id := MappedId(text);
      && (id == "MLB1648" || id == "MLB278936")
      && (id == "MLB278936" <==> exists k :: 5 <= k < 8 && FirstAt(CategoryMapping, text, k))
  {
    MappingValues();
    FirstValueIn(CategoryMapping, text, "MLB278936", DefaultCategoryId, 5, 8);
  }

  /** When the values of `mapping` are `v` on the keys `lo..hi` and the default `w`
      elsewhere, the id found is one of the two, and `v` exactly when the first key
      found lies in `lo..hi`. */
  lemma FirstValueIn(mapping: seq<(string, string)>, text: string, v: string, w: string, lo: int, hi: int)
    requires v != w
    requires forall k :: 0 <= k < |mapping| ==> (mapping[k].1 == v <==> lo <= k < hi) && (mapping[k].1 == v || mapping[k].1 == w)
    ensures var hit := FirstKeyIn(mapping, text); var id := if hit.Some? then hit.value else w;
      && (id == v || id == w)
      && (id == v <==> exists k :: lo <= k < hi && FirstAt(mapping, text, k))
  {
    var hit := FirstKeyIn(mapping, text);
    if hit.Some? {
      var k :| FirstAt(mapping, text, k) && hit.value == mapping[k].1;
      forall k' | FirstAt(mapping, text, k') ensures k' == k {
        FirstAtUnique(mapping, text, k, k');
      }
    }
  }

  /** Helper for `SameCategoryText`: lower-casing a character twice is lower-casing
      it once. */
  lemma LowerCharIdempotent(c: char)
    ensures Text.LowerChar(Text.LowerChar(c)) == Text.LowerChar(c)
  {
  }

  /** Both rules search the same text. */
  lemma SameCategoryText(p: Product)
    ensures IdText(p) == FeeText(p)
  {
    var a := Text.Lower(CategoryName(p));
    var b := Text.Join(" ", PathOf(p));
    var s := a + " " + b;
    forall i | 0 <= i < |s| ensures Text.Lower(s)[i] == FeeText(p)[i] {
      if i < |a| {
        LowerCharIdempotent(CategoryName(p)[i]);
      }
    }
  }

  /* ---------- rows ---------- */

  /** The price rules the exporter applies through floating point: the zero-profit
      marketplace price from a cost and a fee, and the estimated profit. */
  datatype PriceRules = PriceRules(mlPrice: (int, int) -> int, profit: (int, int, int) -> int)

  /** One row of `mercadolivre_products.csv`, in column order. `fee` stands for the
      `taxa_ml` column, which prints it as a percentage. */
  datatype ExportRow = ExportRow(
    title: string, price: int, cost: int, profit: int, quantity: int, condition: string,
    listingType: string, categoryId: string, sku: Field<string>, brand: Field<string>,
    description: string, image1: Field<string>, image2: string, image3: string,
    freeShipping: string, shippingMode: string, supplier: string, sourceUrl: Field<string>,
    originalCategory: string, fee: int)

  const DefaultQuantity: int := 10

  /** The row of one exported product (its name is not `null`, its price is set). */
  function RowOf(p: Product, rules: PriceRules): ExportRow
  {
    var cost := if p.price.Val? then p.price.value else 0;
    var fee := CategoryFee(p);
    var price := rules.mlPrice(cost, fee);
    ExportRow(
      CleanTitle(if p.name.Val? then p.name.value else "", 60), price, cost, rules.profit(price, cost, fee),
      DefaultQuantity, "new", "gold_special", CategoryId(p), SkuOrId(p), GetOr(p.brand, Val("Genérico")),
      ListingDescription(GetOr(p.description, Val("")), p, ExportStyle), GetOr(p.image, Val("")), "", "",
      "Não", "me2", if p.supplier.Val? then p.supplier.value else "", GetOr(p.sourceUrl, Val("")),
      Text.Join(" > ", PathOf(p)), fee)
  }

  /** The script fails on a `null` price of a product in stock, on a `null` name of
      a listable product, and on a `null` supplier, which the sort cannot compare
      with a string. */
  predicate ExportSafe(products: seq<Product>) {
    forall i :: 0 <= i < |products| ==>
      ListableSafe(products[i]) && (Listable(products[i]) ==> !products[i].name.Null? && !products[i].supplier.Null?)
  }

  predicate RowReady(p: Product) {
    !p.name.Null? && p.price.Val? && !p.supplier.Null?
  }

  /** `if cost_price <= 0: continue`. */
  predicate PositiveCost(p: Product) {
    p.price.Val? && p.price.value > 0
  }

  /** The rows of the products `ps`, in order; a product whose cost is not positive
      is skipped. */
  function Rows(ps: seq<Product>, rules: PriceRules): seq<ExportRow> {
    Seqs.MapIf(ps, PositiveCost, (p: Product) => RowOf(p, rules))
  }

  /** The sort key `(fornecedor, preco)`. */
  function RowKey(r: ExportRow): (string, int) {
    (r.supplier, r.price)
  }

  /** Python's `<` on `(str, int)` tuples. */
  function PairLt(a: (string, int), b: (string, int)): bool {
    Text.StrLt(a.0, b.0) || (a.0 == b.0 && a.1 < b.1)
  }

  lemma PairLtOrder()
    ensures Seqs.StrictTotalOrder(PairLt)
  {
    forall a: (string, int) ensures !PairLt(a, a) {
      Text.StrLtIrreflexive(a.0);
    }
    forall a: (string, int), b: (string, int), c: (string, int) | PairLt(a, b) && PairLt(b, c)
      ensures PairLt(a, c)
    {
      if Text.StrLt(a.0, b.0) && Text.StrLt(b.0, c.0) {
        Text.StrLtTransitive(a.0, b.0, c.0);
      }
    }
    forall a: (string, int), b: (string, int) | a != b ensures PairLt(a, b) || PairLt(b, a) {
      if a.0 != b.0 {
        Text.StrLtTotal(a.0, b.0);
      }
    }
  }

  /** The products the exporter writes: in stock with a positive price. */
  function Exported(products: seq<Product>): seq<Product> {
    Seqs.Filter(products, Listable)
  }

  lemma ExportedReady(products: seq<Product>)
    requires ExportSafe(products)
    ensures forall i :: 0 <= i < |Exported(products)| ==> RowReady(Exported(products)[i])
    ensures forall i :: 0 <= i < |Exported(products)| ==> Exported(products)[i].price.value > 0
  {
    var e := Exported(products);
    forall i | 0 <= i < |e| ensures RowReady(e[i]) {
      assert e[i] in products;
    }
  }

  /** The cost test of the row loop never skips a listable product: each exported
      product gets its own row, in catalog order. */
  lemma ExportedRows(products: seq<Product>, rules: PriceRules)
    requires ExportSafe(products)
    ensures forall i :: 0 <= i < |Exported(products)| ==> RowReady(Exported(products)[i])
    ensures |Rows(Exported(products), rules)| == |Exported(products)|
    ensures forall k :: 0 <= k < |Exported(products)| ==>
      Rows(Exported(products), rules)[k] == RowOf(Exported(products)[k], rules)
  {
    var e := Exported(products);
    ExportedReady(products);
    Seqs.MapIfAll(e, PositiveCost, (p: Product) => RowOf(p, rules));
  }

  /** The row loop of `export_to_mercadolivre`: one row per product with a positive
      cost, in product order. */
  method BuildRows(valid: seq<Product>, rules: PriceRules) returns (rows: seq<ExportRow>)
    requires forall i :: 0 <= i < |valid| ==> RowReady(valid[i])
    ensures rows == Rows(valid, rules)
  {
    rows := [];
    var i := 0;
    while i < |valid|
      invariant 0 <= i <= |valid|
      invariant rows == Rows(valid[..i], rules)
    {
      var p := valid[i];
      var cost := p.price.value;
      assert valid[..i + 1][..i] == valid[..i];
      assert PositiveCost(p) <==> cost > 0;
      i := i + 1;
      if cost <= 0 {
        continue;
      }
      rows := rows + [RowOf(p, rules)];
    }
    assert valid[..i] == valid;
  }

  /** `export_to_mercadolivre` on the products of `products.json`: the listable
      products' rows, sorted by supplier and then price with Python's stable sort.
      Without a listable product the report's average markup divides by a zero cost
      total and the script stops, so such a catalog is excluded. */
  method ExportToMercadolivre(products: seq<Product>, rules: PriceRules) returns (rows: seq<ExportRow>)
    requires ExportSafe(products)
    requires Exported(products) != []
    ensures forall i :: 0 <= i < |Exported(products)| ==> RowReady(Exported(products)[i])
    ensures rows == Seqs.SortBy(Rows(Exported(products), rules), RowKey, PairLt)
    ensures |rows| == |Exported(products)|
  {
    var valid := Exported(products);
    ExportedReady(products);
    rows := BuildRows(valid, rules);
    ExportedRows(products, rules);
    PairLtOrder();
    Seqs.SortByCorrect(rows, RowKey, PairLt);
    assert |multiset(Seqs.SortBy(rows, RowKey, PairLt))| == |multiset(rows)|;
    rows := Seqs.SortBy(rows, RowKey, PairLt);
  }

  /** The exported rows are the rows of exactly the listable products, reordered:
      sorted by (supplier, price), rows with the same key in catalog order. */
  lemma ExportRowsCorrect(products: seq<Product>, rules: PriceRules)
    requires ExportSafe(products)
    ensures forall i :: 0 <= i < |Exported(products)| ==> RowReady(Exported(products)[i])
    ensures var rows := Seqs.SortBy(Rows(Exported(products), rules), RowKey, PairLt);
      && multiset(rows) == multiset(Rows(Exported(products), rules))
      && Seqs.SortedBy(rows, RowKey, PairLt)
      && (forall k :: Seqs.WithKey(rows, RowKey, k) == Seqs.WithKey(Rows(Exported(products), rules), RowKey, k))
  {
    ExportedReady(products);
    PairLtOrder();
    Seqs.SortByCorrect(Rows(Exported(products), rules), RowKey, PairLt);
  }

  /** Every row has a positive cost, a title of at most 60 characters without the
      forbidden characters, and a description within the marketplace limit. */
  lemma RowShape(p: Product, rules: PriceRules)
    requires RowReady(p) && Listable(p)
    ensures var r := RowOf(p, rules);
      && r.cost > 0 && r.cost == p.price.value
      && |r.title| <= 60 && CleanChars(r.title)
      && |r.description| <= MaxDescription
      && r.quantity == DefaultQuantity && r.condition == "new"
      && r.fee in {ElectronicsFee, IndustryFee, ToolsFee, DefaultFee}
  {
    CleanTitleShape(if p.name.Val? then p.name.value else "", 60);
  }

  /* ---------- simplified sheet ---------- */

  /** `output_file.replace('.csv', '_simples.csv')`. */
  function SimplePath(outputFile: string): string {
    Text.ReplaceAll(outputFile, ".csv", "_simples.csv")
  }

  /** A path ending in the only ".csv" it holds gets "_simples" before it; a path
      without ".csv" is kept. */
  lemma {:induction false} SimplePathSuffix(stem: string)
    requires !Text.Contains(stem, ".csv")
    ensures SimplePath(stem + ".csv") == stem + "_simples.csv"
    ensures SimplePath(stem) == stem
    decreases |stem|
  {
    Text.ReplaceAbsent(stem, ".csv", "_simples.csv");
    if stem == [] {
      assert (stem + ".csv")[4..] == [];
    } else {
      var s := stem + ".csv";
      assert !(".csv" <= stem);
      assert !(".csv" <= s) by {
        if |stem| >= 4 {
          assert s[..4] == stem[..4];
        } else {
          assert s[|stem|] == '.' && ".csv"[|stem|] != '.';
        }
      }
      assert !Text.Contains(stem[1..], ".csv");
      SimplePathSuffix(stem[1..]);
      assert s[1..] == stem[1..] + ".csv";
    }
  }
}

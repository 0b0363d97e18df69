/** `mercadolivre_api.py`: the marketplace API client. Requests are oracles: a
    category search returns the `category_id`s of its results, category validity
    is a predicate, an item POST returns the created item or nothing, and the
    price formula is a function of the cost. */
module MlApi {
  import opened Py
  import Text
  import Seqs
  import Dicts
  import opened Catalog
  import opened MlListing
  import Scraper

  /* ---------- category search ---------- */

  /** The search terms of `find_best_category`, in order: the name, the category,
      the first two path elements joined, the brand (each `''` when missing). */
  function SearchTerms(p: Product): seq<Field<string>> {
    [ GetOr(p.name, Val("")),
      GetOr(p.category, Val("")),
      Val(if ListTruthy(p.categoryPath) then Text.Join(" ", SliceTo(p.categoryPath.value, 2)) else ""),
      GetOr(p.brand, Val("")) ]
  }

  /** The fallback queries: the first 4, 3, 2, 1 words of the name (fewer when it has
      fewer words). */
  function WordQueries(words: seq<string>, i: nat): (qs: seq<string>)
    requires i <= |words|
    ensures |qs| == i
    ensures forall k :: 0 <= k < i ==> qs[k] == Text.Join(" ", words[..i - k])
    decreases i
  {
    if i == 0 then [] else [Text.Join(" ", words[..i])] + WordQueries(words, i - 1)
  }

  /** Every query `find_best_category` may send, in the order it sends them: the
      truthy search terms, then the word prefixes of the name. */
  function Queries(p: Product): seq<string>
    requires !p.name.Null?
  {
    var terms := Seqs.Filter(SearchTerms(p), Truthy);
    var words := Text.Words(Str(GetOr(p.name, Val(""))));
    var n := if |words| < 4 then |words| else 4;
    seq(|terms|, i requires 0 <= i < |terms| => Str(terms[i])) + WordQueries(words, n)
  }

  /** `cat_id and is_category_valid(cat_id)` holds of result `k`. */
  predicate AcceptedAt(ids: seq<Field<string>>, k: int, valid: string -> bool) {
    0 <= k < |ids| && Truthy(ids[k]) && valid(ids[k].value)
  }

  /** The first id of a search result that is truthy and valid: `None` exactly when
      there is none, otherwise the id of result `k`, and no earlier result is
      accepted. */
  function FirstAccepted(ids: seq<Field<string>>, valid: string -> bool): (r: Option<string>)
    ensures r.Some? ==> valid(r.value) && Val(r.value) in ids
    ensures r.None? <==> forall k :: 0 <= k < |ids| ==> !AcceptedAt(ids, k, valid)
    ensures r.Some? ==> exists k :: (AcceptedAt(ids, k, valid) && ids[k] == Val(r.value) &&
      forall j :: 0 <= j < k ==> !AcceptedAt(ids, j, valid))
    decreases |ids|
  {
    if ids == [] then None
    else if Truthy(ids[0]) && valid(ids[0].value) then
      assert AcceptedAt(ids, 0, valid);
      Some(ids[0].value)
    else
      var r := FirstAccepted(ids[1..], valid);
      assert forall k :: 0 <= k < |ids| - 1 ==> (AcceptedAt(ids, k + 1, valid) <==> AcceptedAt(ids[1..], k, valid));
      assert !AcceptedAt(ids, 0, valid);
      if r.Some? then
        var k :| AcceptedAt(ids[1..], k, valid) && ids[1..][k] == Val(r.value) &&
          forall j :: 0 <= j < k ==> !AcceptedAt(ids[1..], j, valid);
        assert AcceptedAt(ids, k + 1, valid) && ids[k + 1] == Val(r.value);
        assert forall j :: 0 <= j < k + 1 ==> !AcceptedAt(ids, j, valid) by {
          forall j | 0 <= j < k + 1 ensures !AcceptedAt(ids, j, valid) {
            if j > 0 { assert AcceptedAt(ids, j, valid) <==> AcceptedAt(ids[1..], j - 1, valid); }
          }
        }
        r
      else
        assert forall k :: 0 <= k < |ids| ==> !AcceptedAt(ids, k, valid) by {
          forall k | 0 <= k < |ids| ensures !AcceptedAt(ids, k, valid) {
            if k > 0 { assert AcceptedAt(ids, k, valid) <==> AcceptedAt(ids[1..], k - 1, valid); }
          }
        }
        r
  }

  /** The first accepted category over the queries in turn, or the generic category
      MLB1905. */
  function BestCategoryIn(queries: seq<string>, search: string -> seq<Field<string>>,
                          valid: string -> bool): (r: string)
    ensures r == "MLB1905" || exists k :: 0 <= k < |queries| && FirstAccepted(search(queries[k]), valid) == Some(r)
    decreases |queries|
  {
    if queries == [] then "MLB1905"
    else if FirstAccepted(search(queries[0]), valid).Some? then FirstAccepted(search(queries[0]), valid).value
    else
      var r := BestCategoryIn(queries[1..], search, valid);
      assert r != "MLB1905" ==> exists k :: 1 <= k < |queries| && FirstAccepted(search(queries[k]), valid) == Some(r) by {
        if r != "MLB1905" {
          var k :| 0 <= k < |queries[1..]| && FirstAccepted(search(queries[1..][k]), valid) == Some(r);
          assert queries[1..][k] == queries[k + 1];
        }
      }
      r
  }

  /** The category `find_best_category` chooses. A `null` name is excluded although
      the script skips it as a falsy term and fails only in `title.split()` once no
      term found a category; its one caller, `prepare_listing`, fails on a `null`
      name in `clean_title` regardless. */
  function BestCategory(p: Product, search: string -> seq<Field<string>>, valid: string -> bool): string
    requires !p.name.Null?
  {
    BestCategoryIn(Queries(p), search, valid)
  }

  /** The chosen category is the generic one or a valid id found by some query, and
      a query whose search yields an accepted id decides when every earlier one
      yields none. */
  lemma BestCategoryFirst(queries: seq<string>, search: string -> seq<Field<string>>, valid: string -> bool, k: nat)
    requires k < |queries| && FirstAccepted(search(queries[k]), valid).Some?
    requires forall j :: 0 <= j < k ==> FirstAccepted(search(queries[j]), valid).None?
    ensures BestCategoryIn(queries, search, valid) == FirstAccepted(search(queries[k]), valid).value
    ensures valid(BestCategoryIn(queries, search, valid))
    decreases k
  {
    if k > 0 {
      assert FirstAccepted(search(queries[0]), valid).None?;
      assert queries[1..][k - 1] == queries[k];
      forall j | 0 <= j < k - 1
        ensures FirstAccepted(search(queries[1..][j]), valid).None?
      {
        assert queries[1..][j] == queries[j + 1];
      }
      BestCategoryFirst(queries[1..], search, valid, k - 1);
    }
  }

  /** `find_best_category`: the term loop, then the word-prefix loop, each returning
      the first accepted id of the first search that has one. The `null` name is
      excluded as in `BestCategory`. */
  method FindBestCategory(p: Product, search: string -> seq<Field<string>>, valid: string -> bool)
    returns (categoryId: string)
    requires !p.name.Null?
    ensures categoryId == BestCategory(p, search, valid)
  {
    var queries := Queries(p);
    var i := 0;
    while i < |queries|
      invariant 0 <= i <= |queries|
      invariant BestCategoryIn(queries, search, valid) == BestCategoryIn(queries[i..], search, valid)
    {
      assert queries[i..][1..] == queries[i + 1..];
      var results := search(queries[i]);
      var k := 0;
      while k < |results|
        invariant 0 <= k <= |results|
        invariant FirstAccepted(results, valid) == FirstAccepted(results[k..], valid)
      {
        assert results[k..][1..] == results[k + 1..];
        var catId := results[k];
        if Truthy(catId) && valid(catId.value) {
          return catId.value;
        }
        k := k + 1;
      }
      i := i + 1;
    }
    categoryId := "MLB1905";
  }

  /* ---------- required attributes ---------- */

  /** A category attribute: its id, its name (`''` when missing), whether it is
      tagged `required` or `catalog_required`, and the names of its allowed values. */
  datatype CatAttr = CatAttr(id: string, name: string, required: bool, catalogRequired: bool,
                             values: seq<Field<string>>)

  predicate IsRequired(a: CatAttr) {
    a.required || a.catalogRequired
  }

  /** `get_required_attributes` over the category's attribute list. */
  function RequiredAttributes(attrs: seq<CatAttr>): (req: seq<CatAttr>)
    ensures forall a :: a in req <==> a in attrs && IsRequired(a)
  {
    Seqs.Filter(attrs, IsRequired)
  }

  /** The required attributes keep the category's order: those of a concatenation
      are those of each part, concatenated. */
  lemma RequiredOrder(a: seq<CatAttr>, b: seq<CatAttr>)
    ensures RequiredAttributes(a + b) == RequiredAttributes(a) + RequiredAttributes(b)
  {
    Seqs.FilterConcat(a, b, IsRequired);
  }

  /** The default values table, for the ids with constant defaults. */
  const Defaults: seq<(string, string)> := [
    ("POWER_SUPPLY_TYPE", "Elétrica"), ("NETWORK_CABLE_TYPE", "Ethernet"), ("CABLE_LENGTH", "5 m"),
    ("COLOR", "Preto"), ("VOLTAGE", "220V"), ("MATERIAL", "Plástico"), ("IS_RECHARGEABLE", "Não"),
    ("INCLUDES_CHARGER", "Não"), ("WITH_DISPLAY", "Não"), ("IS_WIRELESS", "Não"),
    ("CONNECTIVITY", "Com fio"), ("ITEM_CONDITION", "Novo"), ("LINE", "Industrial"),
    ("PACKAGE_WEIGHT", "500 g"), ("UNITS_PER_PACKAGE", "1"), ("SALE_FORMAT", "Unidade")]

  /** The default for an attribute id: `None` when the id is not in the table,
      `Some(v)` otherwise, where `v` is the product's sku (or id) for the three
      sku-like ids and its brand (or "Genérico") for MANUFACTURER. */
  function DefaultValue(id: string, p: Product): Option<Option<string>> {
    if id == "PART_NUMBER" || id == "ALPHANUMERIC_MODEL" || id == "SELLER_SKU" then Some(Get(SkuOrId(p)))
    else if id == "MANUFACTURER" then Some(Get(GetOr(p.brand, Val("Genérico"))))
    else if Dicts.Get(Defaults, id).Some? then Some(Some(Dicts.Get(Defaults, id).value))
    else None
  }

  /** The attribute's name or id, lower-cased, occurs in the lower-cased spec key. */
  predicate SpecMatches(a: CatAttr, key: string) {
    Text.Contains(Text.Lower(key), Text.Lower(a.name)) || Text.Contains(Text.Lower(key), Text.Lower(a.id))
  }

  /** The value of the first spec, in dict order, whose key matches. */
  function FirstSpecValue(specs: Dicts.Dict<string, string>, a: CatAttr): (v: Option<string>)
    ensures v.Some? ==> exists i :: (0 <= i < |specs| && SpecMatches(a, specs[i].0) && specs[i].1 == v.value &&
      forall j :: 0 <= j < i ==> !SpecMatches(a, specs[j].0))
    ensures v.None? <==> forall i :: 0 <= i < |specs| ==> !SpecMatches(a, specs[i].0)
    decreases |specs|
  {
    if specs == [] then None
    else if SpecMatches(a, specs[0].0) then Some(specs[0].1)
    else
      var v := FirstSpecValue(specs[1..], a);
      assert forall i :: 1 <= i < |specs| ==> specs[i] == specs[1..][i - 1];
      if v.Some? then
        var i :| 0 <= i < |specs[1..]| && SpecMatches(a, specs[1..][i].0) && specs[1..][i].1 == v.value &&
          forall j :: 0 <= j < i ==> !SpecMatches(a, specs[1..][j].0);
        assert SpecMatches(a, specs[i + 1].0) && specs[i + 1].1 == v.value;
        assert forall j :: 0 <= j < i + 1 ==> !SpecMatches(a, specs[j].0) by {
          forall j | 0 <= j < i + 1 ensures !SpecMatches(a, specs[j].0) {
            if j > 0 { assert specs[j] == specs[1..][j - 1]; }
          }
        }
        v
      else v
  }

  /** The value chosen for a required attribute: the matching spec, else the
      default, else the first allowed value — each tried while the value so far is
      falsy. */
  function AttrValue(a: CatAttr, specs: Dicts.Dict<string, string>, p: Product): (v: Option<string>)
    ensures OptTruthy(FirstSpecValue(specs, a)) ==> v == FirstSpecValue(specs, a)
    ensures !OptTruthy(FirstSpecValue(specs, a)) && DefaultValue(a.id, p).Some? && OptTruthy(DefaultValue(a.id, p).value) ==>
      v == DefaultValue(a.id, p).value
    ensures OptTruthy(v) ==>
      (v == FirstSpecValue(specs, a) || (DefaultValue(a.id, p).Some? && v == DefaultValue(a.id, p).value) ||
       (a.values != [] && v == Get(a.values[0])))
  {
    var v1 := FirstSpecValue(specs, a);
    var v2 := if !OptTruthy(v1) && DefaultValue(a.id, p).Some? then DefaultValue(a.id, p).value else v1;
    if !OptTruthy(v2) && a.values != [] then Get(a.values[0]) else v2
  }

  /** The specs a product offers; a `null` or missing `specs` offers none (see
      `FillAsWritten` for what the script does with `null`). */
  function SpecsOf(p: Product): Dicts.Dict<string, string> {
    if p.specs.Val? then p.specs.value else []
  }

  /** The attributes `fill_required_attributes` produces: `(id, value)` for each
      required attribute, in order, that gets a truthy value. */
  function Filled(required: seq<CatAttr>, specs: Dicts.Dict<string, string>, p: Product): seq<(string, string)>
    decreases |required|
  {
    if required == [] then []
    else
      var prev := Filled(required[..|required| - 1], specs, p);
      var a := required[|required| - 1];
      var v := AttrValue(a, specs, p);
      if OptTruthy(v) then prev + [(a.id, v.value)] else prev
  }

  predicate HasValue(specs: Dicts.Dict<string, string>, p: Product, a: CatAttr) {
    OptTruthy(AttrValue(a, specs, p))
  }

  /** Attributes without a value are dropped and the others keep the required
      order: the filled ids are exactly those of the required attributes that have
      a value, and each carries its chosen, non-empty value. */
  lemma {:induction false} FilledAre(required: seq<CatAttr>, specs: Dicts.Dict<string, string>, p: Product)
    ensures var kept := Seqs.Filter(required, a => HasValue(specs, p, a));
      && |Filled(required, specs, p)| == |kept|
      && forall i :: 0 <= i < |kept| ==>
           Filled(required, specs, p)[i] == (kept[i].id, AttrValue(kept[i], specs, p).value)
           && Filled(required, specs, p)[i].1 != ""
    decreases |required|
  {
    if required != [] {
      FilledAre(required[..|required| - 1], specs, p);
    }
  }

  /** The fill loop. */
  method FillRequiredAttributes(required: seq<CatAttr>, p: Product) returns (attributes: seq<(string, string)>)
    ensures attributes == Filled(required, SpecsOf(p), p)
  {
    attributes := [];
    var specs := SpecsOf(p);
    var i := 0;
    while i < |required|
      invariant 0 <= i <= |required|
      invariant attributes == Filled(required[..i], specs, p)
    {
      assert required[..i + 1][..i] == required[..i];
      var a := required[i];
      var value := FirstSpecValue(specs, a);
      if !OptTruthy(value) && DefaultValue(a.id, p).Some? {
        value := DefaultValue(a.id, p).value;
      }
      if !OptTruthy(value) && a.values != [] {
        value := Get(a.values[0]);
      }
      assert value == AttrValue(a, specs, p);
      if OptTruthy(value) {
        attributes := attributes + [(a.id, value.value)];
      }
      i := i + 1;
    }
    assert required[..i] == required;
  }

  /** The script as written: `specs.items()` fails when `specs` is `null`, which is
      what the scraper writes for a product without specifications, as soon as the
      category has a required attribute (`None`: the script stops with an error). */
  function FillAsWritten(required: seq<CatAttr>, p: Product): Option<seq<(string, string)>> {
    if p.specs.Null? && required != [] then None
    else Some(Filled(required, SpecsOf(p), p))
  }

  /** The products the script can fill: `specs.items()` is reached only for a
      product whose specs are not `null`, or for a category with no required
      attribute. */
  predicate FillSafe(p: Product, search: string -> seq<Field<string>>, valid: string -> bool,
                     attrsOf: string -> seq<CatAttr>)
    requires !p.name.Null?
  {
    !(p.specs.Null? && RequiredAttributes(attrsOf(BestCategory(p, search, valid))) != [])
  }

  /** A product scraped without specifications and a category requiring COLOR: the
      script as written stops, the corrected fill gives COLOR its default. */
  lemma FillNullSpecs(p: Product)
    requires p.specs.Null?
    ensures FillAsWritten([CatAttr("COLOR", "Cor", true, false, [])], p).None?
    ensures Filled([CatAttr("COLOR", "Cor", true, false, [])], SpecsOf(p), p) == [("COLOR", "Preto")]
  {
    var a := CatAttr("COLOR", "Cor", true, false, []);
    assert [a][..0] == [];
    assert Defaults[3] == ("COLOR", "Preto");
    DefaultsGet(Defaults, 3);
    assert DefaultValue("COLOR", p) == Some(Some("Preto"));
  }

  lemma {:induction false} DefaultsGet(d: Dicts.Dict<string, string>, i: nat)
    requires i < |d| && forall j :: 0 <= j < i ==> d[j].0 != d[i].0
    ensures Dicts.Get(d, d[i].0) == Some(d[i].1)
    decreases i
  {
    if i > 0 {
      assert forall j :: 0 <= j < i - 1 ==> d[1..][j] == d[j + 1];
      DefaultsGet(d[1..], i - 1);
    }
  }

  /* ---------- listing ---------- */

  /** A listing attribute: `{'id': ..., 'value_name': ...}` (`None` for a `null` value). */
  type Attribute = (string, Option<string>)

  function AttrIds<V>(attrs: seq<(string, V)>): (ids: seq<string>)
    ensures |ids| == |attrs| && forall i :: 0 <= i < |attrs| ==> ids[i] == attrs[i].0
  {
    seq(|attrs|, i requires 0 <= i < |attrs| => attrs[i].0)
  }

  /** The item payload. `saleTerms` and `tags` are `None` once removed. */
  datatype Listing = Listing(
    title: string,
    categoryId: string,
    price: int,
    currencyId: string,
    availableQuantity: int,
    buyingMode: string,
    listingTypeId: string,
    condition: string,
    pictures: seq<string>,
    attributes: seq<Attribute>,
    saleTerms: Option<seq<(string, string)>>,
    tags: Option<seq<string>>,
    sellerCustomField: Field<string>)

  /** What `prepare_listing` returns. */
  datatype Prepared = Prepared(listing: Listing, description: string, product: Product,
                               costPrice: int, mlPrice: int, categoryId: string)

  /** `product.get('price', 0)`. */
  function CostPrice(p: Product): int
    requires !p.price.Null?
  {
    if p.price.Val? then p.price.value else 0
  }

  /** The MODEL value: the sku when truthy, else the name before its first `|`, else
      before its first `-`, stripped, else the whole name; at most 60 characters. */
  function ModelOf(p: Product): (model: string)
    ensures |model| <= 60
    ensures Truthy(GetOr(p.sku, Val(""))) ==> model <= p.sku.value
    ensures !Truthy(GetOr(p.sku, Val(""))) && p.name.Val? && '|' in p.name.value ==>
      model <= Text.Strip(Text.PrefixBefore(p.name.value, "|"))
    ensures !Truthy(GetOr(p.sku, Val(""))) && p.name.Val? && '|' !in p.name.value && '-' in p.name.value ==>
      model <= Text.Strip(Text.PrefixBefore(p.name.value, "-"))
    ensures !Truthy(GetOr(p.sku, Val(""))) && p.name.Val? && '|' !in p.name.value && '-' !in p.name.value ==>
      model <= p.name.value
  {
    var m := GetOr(p.sku, Val(""));
    var model :=
      if Truthy(m) then m.value
      else
        var n := if p.name.Val? then p.name.value else "";
        if '|' in n then SliceTo(Text.Strip(Text.PrefixBefore(n, "|")), 60)
        else if '-' in n then SliceTo(Text.Strip(Text.PrefixBefore(n, "-")), 60)
        else SliceTo(n, 60);
    SliceTo(model, 60)
  }

  /** BRAND, MODEL and, when the product has an `ean` or `gtin`, GTIN. */
  function BaseAttributes(p: Product): seq<Attribute> {
    var gtin := Or(p.ean, p.gtin);
    [("BRAND", Get(GetOr(p.brand, Val("Genérico")))), ("MODEL", Some(ModelOf(p)))]
    + (if Truthy(gtin) then [("GTIN", Some(gtin.value))] else [])
  }

  /** The filled attributes appended in order, each only when no attribute with its
      id is present yet. */
  function Merge(attrs: seq<Attribute>, extra: seq<(string, string)>): seq<Attribute>
    decreases |extra|
  {
    if extra == [] then attrs
    else
      var m := Merge(attrs, extra[..|extra| - 1]);
      var e := extra[|extra| - 1];
      if e.0 in AttrIds(m) then m else m + [(e.0, Some(e.1))]
  }

  /** Merging keeps the attributes already present at the front, keeps ids unique,
      and leaves no filled id out. */
  lemma {:induction false} MergeShape(attrs: seq<Attribute>, extra: seq<(string, string)>)
    requires Seqs.NoDup(AttrIds(attrs))
    ensures attrs <= Merge(attrs, extra)
    ensures Seqs.NoDup(AttrIds(Merge(attrs, extra)))
    ensures forall i :: 0 <= i < |extra| ==> extra[i].0 in AttrIds(Merge(attrs, extra))
    decreases |extra|
  {
    if extra != [] {
      var init := extra[..|extra| - 1];
      MergeShape(attrs, init);
      var m := Merge(attrs, init);
      var e := extra[|extra| - 1];
      if e.0 !in AttrIds(m) {
        var m' := m + [(e.0, Some(e.1))];
        assert AttrIds(m') == AttrIds(m) + [e.0];
        forall i | 0 <= i < |init| ensures init[i].0 in AttrIds(m') {
          assert init[i].0 in AttrIds(m);
        }
      }
      assert forall i :: 0 <= i < |extra| - 1 ==> extra[i] == init[i];
    }
  }

  /** The duplicate-avoiding loop of `prepare_listing`. */
  method MergeAttributes(attrs: seq<Attribute>, extra: seq<(string, string)>) returns (result: seq<Attribute>)
    ensures result == Merge(attrs, extra)
  {
    result := attrs;
    var i := 0;
    while i < |extra|
      invariant 0 <= i <= |extra|
      invariant result == Merge(attrs, extra[..i])
    {
      assert extra[..i + 1][..i] == extra[..i];
      var e := extra[i];
      var present := false;
      var k := 0;
      while k < |result|
        invariant 0 <= k <= |result|
        invariant present <==> e.0 in AttrIds(result)[..k]
      {
        assert AttrIds(result)[..k + 1] == AttrIds(result)[..k] + [result[k].0];
        if result[k].0 == e.0 {
          present := true;
        }
        k := k + 1;
      }
      assert AttrIds(result)[..k] == AttrIds(result);
      if !present {
        result := result + [(e.0, Some(e.1))];
      }
      i := i + 1;
    }
    assert extra[..i] == extra;
  }

  /** The listing attributes of a product in category `categoryId`. */
  function ListingAttributes(p: Product, required: seq<CatAttr>): seq<Attribute> {
    Merge(BaseAttributes(p), Filled(required, SpecsOf(p), p))
  }

  /** The attributes open with BRAND and MODEL, then GTIN exactly when the product
      has an `ean` or `gtin`; ids are unique; every filled attribute is there. */
  lemma ListingAttributesShape(p: Product, required: seq<CatAttr>)
    ensures var attrs := ListingAttributes(p, required);
      && |attrs| >= 2 && attrs[0].0 == "BRAND" && attrs[1] == ("MODEL", Some(ModelOf(p)))
      && (Truthy(Or(p.ean, p.gtin)) ==> |attrs| >= 3 && attrs[2] == ("GTIN", Some(Or(p.ean, p.gtin).value)))
      && (!Truthy(Or(p.ean, p.gtin)) ==> "GTIN" in AttrIds(Filled(required, SpecsOf(p), p)) || "GTIN" !in AttrIds(attrs))
      && Seqs.NoDup(AttrIds(attrs))
      && forall a :: a in Filled(required, SpecsOf(p), p) ==> a.0 in AttrIds(attrs)
  {
    BaseMerged(p, Filled(required, SpecsOf(p), p));
  }

  /** The shape above, for any list of filled attributes. */
  lemma BaseMerged(p: Product, extra: seq<(string, string)>)
    ensures var attrs := Merge(BaseAttributes(p), extra);
      && |attrs| >= 2 && attrs[0].0 == "BRAND" && attrs[1] == ("MODEL", Some(ModelOf(p)))
      && (Truthy(Or(p.ean, p.gtin)) ==> |attrs| >= 3 && attrs[2] == ("GTIN", Some(Or(p.ean, p.gtin).value)))
      && (!Truthy(Or(p.ean, p.gtin)) ==> "GTIN" in AttrIds(extra) || "GTIN" !in AttrIds(attrs))
      && Seqs.NoDup(AttrIds(attrs))
      && forall a :: a in extra ==> a.0 in AttrIds(attrs)
  {
    var base := BaseAttributes(p);
    assert Seqs.NoDup(AttrIds(base));
    MergeShape(base, extra);
    var attrs := Merge(base, extra);
    assert attrs[..|base|] == base;
    forall a | a in extra ensures a.0 in AttrIds(attrs) {
      var i :| 0 <= i < |extra| && extra[i] == a;
    }
    if !Truthy(Or(p.ean, p.gtin)) && "GTIN" !in AttrIds(extra) {
      MergeIds(base, extra);
    }
  }

  /** Every merged id comes from the base or from the filled attributes. */
  lemma {:induction false} MergeIds(attrs: seq<Attribute>, extra: seq<(string, string)>)
    ensures forall x :: x in AttrIds(Merge(attrs, extra)) ==> x in AttrIds(attrs) || x in AttrIds(extra)
    decreases |extra|
  {
    if extra != [] {
      var init := extra[..|extra| - 1];
      MergeIds(attrs, init);
      var m := Merge(attrs, init);
      var e := extra[|extra| - 1];
      assert AttrIds(extra) == AttrIds(init) + [e.0];
      if e.0 !in AttrIds(m) {
        assert AttrIds(m + [(e.0, Some(e.1))]) == AttrIds(m) + [e.0];
      }
    }
  }

  /** The warranty terms of a new listing. */
  const SaleTerms: seq<(string, string)> := [("WARRANTY_TYPE", "Garantia do vendedor"), ("WARRANTY_TIME", "90 dias")]

  /** The prepared listing of a product with a positive price: `categoryId` is the
      category `find_best_category` chose, `mlPrice` the price formula, `attrsOf`
      the category attributes request. */
  function PreparedOf(p: Product, listingType: string, categoryId: string, mlPrice: int -> int,
                      attrsOf: string -> seq<CatAttr>): Prepared
    requires !p.name.Null?
  {
    var cost := if p.price.Val? then p.price.value else 0;
    var listing := Listing(
      title := CleanTitle(if p.name.Val? then p.name.value else "", 60),
      categoryId := categoryId,
      price := mlPrice(cost),
      currencyId := "BRL",
      availableQuantity := 10,
      buyingMode := "buy_it_now",
      listingTypeId := listingType,
      condition := "new",
      pictures := if Truthy(p.image) then [p.image.value] else [],
      attributes := ListingAttributes(p, RequiredAttributes(attrsOf(categoryId))),
      saleTerms := Some(SaleTerms),
      tags := Some(["immediate_payment"]),
      sellerCustomField := SkuOrId(p));
    Prepared(listing, ListingDescription(GetOr(p.description, Val("")), p, ApiStyle), p, cost,
             mlPrice(cost), categoryId)
  }

  /** `prepare_listing`: no listing for a product without a positive price. A `null`
      price or name makes the script fail, and so does a `null` specs the category's
      required attributes reach (`FillSafe`), so they are excluded. */
  method PrepareListing(p: Product, listingType: string, search: string -> seq<Field<string>>,
                        valid: string -> bool, mlPrice: int -> int, attrsOf: string -> seq<CatAttr>)
    returns (r: Option<Prepared>)
    requires !p.price.Null?
    requires CostPrice(p) > 0 ==> !p.name.Null? && FillSafe(p, search, valid, attrsOf)
    ensures r.None? <==> CostPrice(p) <= 0
    ensures r.Some? ==> r.value == PreparedOf(p, listingType, BestCategory(p, search, valid), mlPrice, attrsOf)
  {
    var cost := CostPrice(p);
    if cost <= 0 {
      return None;
    }
    var price := mlPrice(cost);
    var categoryId := FindBestCategory(p, search, valid);
    var description := ListingDescription(GetOr(p.description, Val("")), p, ApiStyle);
    var pictures := if Truthy(p.image) then [p.image.value] else [];
    var requiredAttrs := RequiredAttributes(attrsOf(categoryId));
    assert FillAsWritten(requiredAttrs, p).Some?;
    var required := FillRequiredAttributes(requiredAttrs, p);
    var attributes := MergeAttributes(BaseAttributes(p), required);
    var listing := Listing(CleanTitle(if p.name.Val? then p.name.value else "", 60), categoryId, price,
      "BRL", 10, "buy_it_now", listingType, "new", pictures, attributes, Some(SaleTerms),
      Some(["immediate_payment"]), SkuOrId(p));
    r := Some(Prepared(listing, description, p, cost, price, categoryId));
  }

  /* ---------- create_listing ---------- */

  /** What an item POST returns when it succeeds. */
  datatype ItemResult = ItemResult(id: Field<string>)

  /** The requests `create_listing` makes. */
  datatype Call = PostItem(listing: Listing) | PostDescription(itemId: string, text: string)

  predicate KeptOnRetry(a: Attribute) {
    a.0 == "BRAND" || a.0 == "MODEL" || a.0 == "ITEM_CONDITION" || a.0 == "SELLER_SKU"
  }

  /** The listing as the retry changes it: generic category MLB1905, classified
      mode, silver type, no tags, no sale terms, only the generic attributes. */
  function Fallback(l: Listing): (f: Listing)
    ensures f.categoryId == "MLB1905" && f.buyingMode == "classified" && f.listingTypeId == "silver"
    ensures f.tags.None? && f.saleTerms.None?
    ensures forall a :: a in f.attributes <==> a in l.attributes && KeptOnRetry(a)
    ensures f.title == l.title && f.price == l.price && f.pictures == l.pictures
    ensures f.currencyId == l.currencyId && f.availableQuantity == l.availableQuantity
    ensures f.condition == l.condition && f.sellerCustomField == l.sellerCustomField
    ensures f.attributes == Seqs.Filter(l.attributes, KeptOnRetry)
  {
    l.(categoryId := "MLB1905", buyingMode := "classified", listingTypeId := "silver",
       tags := None, saleTerms := None, attributes := Seqs.Filter(l.attributes, KeptOnRetry))
  }

  /** The retry happens when the first POST fails outside the generic category. */
  predicate Retries(l: Listing, post: Listing -> Option<ItemResult>) {
    post(l).None? && l.categoryId != "MLB1905"
  }

  function ItemPosts(calls: seq<Call>): nat {
    Seqs.Count(calls, (c: Call) => c.PostItem?)
  }

  lemma ItemPostsCount(first: Listing, second: Listing)
    ensures ItemPosts([PostItem(first)]) == 1
    ensures ItemPosts([PostItem(first), PostItem(second)]) == 2
  {
    var one := [PostItem(first)];
    var two := [PostItem(first), PostItem(second)];
    assert one[..0] == [];
    assert two[..1] == one;
  }

  /** `create_listing`: one POST, a second one with the fallback listing when the
      first fails outside MLB1905, then the description POST when the item has an
      id and the description is not empty. `listing` is the listing afterwards (the
      script changes it in place). */
  method CreateListing(prepared: Prepared, post: Listing -> Option<ItemResult>)
    returns (result: Option<ItemResult>, listing: Listing, calls: seq<Call>)
    ensures calls != [] && calls[0] == PostItem(prepared.listing)
    ensures listing == if Retries(prepared.listing, post) then Fallback(prepared.listing) else prepared.listing
    ensures result == post(listing)
    ensures ItemPosts(calls) == if Retries(prepared.listing, post) then 2 else 1
    ensures (exists c :: c in calls && c.PostDescription?) <==>
      result.Some? && Truthy(result.value.id) && prepared.description != ""
  {
    listing := prepared.listing;
    result := post(listing);
    calls := [PostItem(listing)];
    if result.None? && listing.categoryId != "MLB1905" {
      listing := Fallback(listing);
      result := post(listing);
      calls := calls + [PostItem(listing)];
    }
    ItemPostsCount(prepared.listing, listing);
    if result.None? {
      return;
    }
    var itemId := result.value.id;
    if Truthy(itemId) && prepared.description != "" {
      var before := calls;
      calls := calls + [PostDescription(itemId.value, prepared.description)];
      assert calls[..|before|] == before;
      assert calls[|calls| - 1].PostDescription?;
    }
  }

  /** The fallback listing is in the generic category, so a listing never gets a
      third POST, and retrying the fallback changes nothing more. */
  lemma FallbackFinal(l: Listing, post: Listing -> Option<ItemResult>)
    ensures !Retries(Fallback(l), post)
    ensures Fallback(Fallback(l)) == Fallback(l)
  {
    var f := Fallback(l);
    assert Seqs.Filter(f.attributes, KeptOnRetry) == f.attributes by {
      FilterAll(f.attributes, KeptOnRetry);
    }
  }

  lemma {:induction false} FilterAll<T>(s: seq<T>, p: T -> bool)
    requires forall i :: 0 <= i < |s| ==> p(s[i])
    ensures Seqs.Filter(s, p) == s
    decreases |s|
  {
    if s != [] {
      FilterAll(s[..|s| - 1], p);
      assert s == s[..|s| - 1] + [s[|s| - 1]];
    }
  }

  /* ---------- get_my_items ---------- */

  /** The page size of the item search. */
  const PageSize: int := 50

  /** The response to the `k`-th request (offset `50 * k`): the listed results, or
      `None` when the request fails; requests past the given pages fail. */
  function Response(pages: seq<Option<seq<string>>>, k: nat): Option<seq<string>> {
    if k < |pages| then pages[k] else None
  }

  /** A response after which the loop asks for the next page. */
  predicate Continues(r: Option<seq<string>>) {
    r.Some? && |r.value| >= PageSize
  }

  /** The number of requests made from the `k`-th on. */
  function RequestsFrom(pages: seq<Option<seq<string>>>, k: nat): (n: nat)
    ensures n >= 1
    decreases |pages| - k
  {
    if Continues(Response(pages, k)) then 1 + RequestsFrom(pages, k + 1) else 1
  }

  /** The items collected from the `k`-th request on. */
  function ItemsFrom(pages: seq<Option<seq<string>>>, k: nat): seq<string>
    decreases |pages| - k
  {
    var r := Response(pages, k);
    if r.None? then []
    else if |r.value| < PageSize then r.value
    else r.value + ItemsFrom(pages, k + 1)
  }

  /** The items a response contributes: its results, or nothing when it failed. */
  function PageOf(r: Option<seq<string>>): seq<string> {
    if r.Some? then r.value else []
  }

  /** The `n` pages answered from the `k`-th request on; a helper of `ItemsArePages`. */
  function PagesFrom(pages: seq<Option<seq<string>>>, k: nat, n: nat): (ps: seq<seq<string>>)
    ensures |ps| == n
    ensures forall j :: 0 <= j < n ==> ps[j] == PageOf(Response(pages, k + j))
  {
    seq(n, j requires 0 <= j < n => PageOf(Response(pages, k + j)))
  }

  /** Requests continue exactly while pages are full: every request but the last
      got a full page, and the last did not. */
  lemma {:induction false} RequestsStop(pages: seq<Option<seq<string>>>, k: nat)
    ensures forall j :: k <= j < k + RequestsFrom(pages, k) - 1 ==> Continues(Response(pages, j))
    ensures !Continues(Response(pages, k + RequestsFrom(pages, k) - 1))
    decreases |pages| - k
  {
    if Continues(Response(pages, k)) {
      RequestsStop(pages, k + 1);
    }
  }

  /** The items collected are the pages answered, concatenated. */
  lemma {:induction false} ItemsArePages(pages: seq<Option<seq<string>>>, k: nat)
    ensures ItemsFrom(pages, k) == Seqs.Flatten(PagesFrom(pages, k, RequestsFrom(pages, k)))
    decreases |pages| - k
  {
    var n := RequestsFrom(pages, k);
    var ps := PagesFrom(pages, k, n);
    if Continues(Response(pages, k)) {
      ItemsArePages(pages, k + 1);
      var rest := PagesFrom(pages, k + 1, n - 1);
      assert ps == [Response(pages, k).value] + rest;
      FlattenCons(Response(pages, k).value, rest);
    } else {
      assert ps == [PageOf(Response(pages, k))];
      FlattenCons(ps[0], []);
    }
  }

  lemma FlattenCons<T>(x: seq<T>, xs: seq<seq<T>>)
    ensures Seqs.Flatten([x] + xs) == x + Seqs.Flatten(xs)
  {
    assert ([x] + xs)[1..] == xs;
  }

  /** `get_my_items`: without a user id, nothing is requested; otherwise offsets
      0, 50, 100, … are requested until a request fails or a page has fewer than 50
      results. */
  method GetMyItems(userId: Option<string>, pages: seq<Option<seq<string>>>)
    returns (items: seq<string>, offsets: seq<int>)
    ensures !OptTruthy(userId) ==> items == [] && offsets == []
    ensures OptTruthy(userId) ==> items == ItemsFrom(pages, 0)
    ensures OptTruthy(userId) ==> |offsets| == RequestsFrom(pages, 0)
    ensures forall j :: 0 <= j < |offsets| ==> offsets[j] == PageSize * j
  {
    items := [];
    offsets := [];
    if !OptTruthy(userId) {
      return;
    }
    var offset := 0;
    var k := 0;
    while true
      invariant offset == PageSize * k && |offsets| == k
      invariant forall j :: 0 <= j < k ==> offsets[j] == PageSize * j
      invariant items + ItemsFrom(pages, k) == ItemsFrom(pages, 0)
      invariant k + RequestsFrom(pages, k) == RequestsFrom(pages, 0)
      decreases |pages| - k
    {
      var result := Response(pages, k);
      offsets := offsets + [offset];
      if result.None? {
        break;
      }
      items := items + result.value;
      if |result.value| < PageSize {
        break;
      }
      assert k < |pages|;
      offset := offset + PageSize;
      k := k + 1;
    }
  }

  /* ---------- sync_products ---------- */

  /** The request oracles one run of `sync_products` uses. */
  datatype Oracles = Oracles(search: string -> seq<Field<string>>, valid: string -> bool,
                             mlPrice: int -> int, attrsOf: string -> seq<CatAttr>,
                             post: Listing -> Option<ItemResult>)

  /** The marketplace map in memory, keyed by the sku value (`null` included). */
  type MlMap = Dicts.Dict<Field<string>, MapEntry>

  /** What happens to one product: it was already listed, it failed, or it was
      created (`None` in a dry run). */
  datatype Outcome = Skipped | Failed | Created(item: Option<ItemResult>)

  /** The products the run works on: listable, then truncated to `limit`. */
  function Selected(products: seq<Product>, limit: Option<int>): seq<Product> {
    Scraper.Limited(Seqs.Filter(products, Listable), limit)
  }

  /** The script fails on a `null` price of a product in stock and on a `null` name
      of a selected product. */
  predicate SyncSafe(products: seq<Product>, limit: Option<int>) {
    && (forall i :: 0 <= i < |products| ==> ListableSafe(products[i]))
    && (forall i :: 0 <= i < |Selected(products, limit)| ==> !Selected(products, limit)[i].name.Null?)
  }

  function OutcomeOf(p: Product, existing: seq<Field<string>>, dryRun: bool, o: Oracles): Outcome
    requires !p.price.Null? && !p.name.Null?
  {
    if SkuOrId(p) in existing then Skipped
    else if CostPrice(p) <= 0 then Failed
    else if dryRun then Created(None)
    else
      var prepared := PreparedOf(p, "gold_special", BestCategory(p, o.search, o.valid), o.mlPrice, o.attrsOf);
      var l := prepared.listing;
      var result := o.post(if Retries(l, o.post) then Fallback(l) else l);
      if result.Some? then Created(result) else Failed
  }

  /** The map entry written for a created item. */
  function NewEntry(item: ItemResult, price: int): MapEntry {
    MapEntry(GetOr(item.id, Val("")), Val("active"), Val(price), Absent, Absent, {})
  }

  /** Per-run counters. */
  datatype SyncStats = SyncStats(total: nat, created: nat, skipped: nat, errors: nat)

  predicate Ready(ps: seq<Product>) {
    forall i :: 0 <= i < |ps| ==> !ps[i].price.Null? && !ps[i].name.Null?
  }

  /** A product not yet in the map reaches `prepare_listing`, dry run or not, and
      the run stops there with an error unless the fill is safe (`FillSafe`). */
  predicate SyncFills(p: Product, existing: seq<Field<string>>, o: Oracles)
    requires !p.price.Null? && !p.name.Null?
  {
    SkuOrId(p) !in existing && CostPrice(p) > 0 ==> FillSafe(p, o.search, o.valid, o.attrsOf)
  }

  predicate FillsSafe(ps: seq<Product>, existing: seq<Field<string>>, o: Oracles)
    requires Ready(ps)
  {
    forall i :: 0 <= i < |ps| ==> SyncFills(ps[i], existing, o)
  }

  /** The counters after one more product. */
  function Tick(s: SyncStats, out: Outcome): SyncStats {
    match out
    case Skipped => s.(total := s.total + 1, skipped := s.skipped + 1)
    case Failed => s.(total := s.total + 1, errors := s.errors + 1)
    case Created(_) => s.(total := s.total + 1, created := s.created + 1)
  }

  /** What happens to each product of `ps`, in order. */
  function Outcomes(ps: seq<Product>, existing: seq<Field<string>>, dryRun: bool, o: Oracles): (outs: seq<Outcome>)
    requires Ready(ps)
    ensures |outs| == |ps|
  {
    seq(|ps|, i requires 0 <= i < |ps| => OutcomeOf(ps[i], existing, dryRun, o))
  }

  /** The map after one more product: a created item is recorded under its sku. */
  function Record(m: MlMap, p: Product, out: Outcome, o: Oracles): MlMap
    requires !p.price.Null?
  {
    if out.Created? && out.item.Some? then Dicts.Put(m, SkuOrId(p), NewEntry(out.item.value, o.mlPrice(CostPrice(p))))
    else m
  }

  /** The counters after the outcomes `outs`. */
  function Tally(outs: seq<Outcome>): SyncStats
    decreases |outs|
  {
    if outs == [] then SyncStats(0, 0, 0, 0)
    else Tick(Tally(outs[..|outs| - 1]), outs[|outs| - 1])
  }

  /** The map after recording the outcomes `outs` of the products `ps`. */
  function RecordAll(m: MlMap, ps: seq<Product>, outs: seq<Outcome>, o: Oracles): MlMap
    requires |outs| == |ps| && forall i :: 0 <= i < |ps| ==> !ps[i].price.Null?
    decreases |ps|
  {
    if ps == [] then m
    else Record(RecordAll(m, ps[..|ps| - 1], outs[..|ps| - 1], o), ps[|ps| - 1], outs[|ps| - 1], o)
  }

  /** The counters after the products `ps`. */
  function StatsOf(ps: seq<Product>, existing: seq<Field<string>>, dryRun: bool, o: Oracles): SyncStats
    requires Ready(ps)
  {
    Tally(Outcomes(ps, existing, dryRun, o))
  }

  /** The map after the products `ps`. */
  function MapOf(m: MlMap, ps: seq<Product>, existing: seq<Field<string>>, dryRun: bool, o: Oracles): MlMap
    requires Ready(ps)
  {
    RecordAll(m, ps, Outcomes(ps, existing, dryRun, o), o)
  }

  /** The outcomes of a prefix are a prefix of the outcomes. */
  lemma OutcomesPrefix(ps: seq<Product>, n: nat, existing: seq<Field<string>>, dryRun: bool, o: Oracles)
    requires Ready(ps) && n <= |ps|
    ensures Ready(ps[..n])
    ensures Outcomes(ps[..n], existing, dryRun, o) == Outcomes(ps, existing, dryRun, o)[..n]
  {
  }

  /** The state after a non-empty list is one step after the state of its prefix. */
  lemma SyncLast(ps: seq<Product>, m: MlMap, existing: seq<Field<string>>, dryRun: bool, o: Oracles)
    requires Ready(ps) && ps != []
    ensures Ready(ps[..|ps| - 1])
    ensures StatsOf(ps, existing, dryRun, o)
      == Tick(StatsOf(ps[..|ps| - 1], existing, dryRun, o), OutcomeOf(ps[|ps| - 1], existing, dryRun, o))
    ensures MapOf(m, ps, existing, dryRun, o)
      == Record(MapOf(m, ps[..|ps| - 1], existing, dryRun, o), ps[|ps| - 1], OutcomeOf(ps[|ps| - 1], existing, dryRun, o), o)
  {
    OutcomesPrefix(ps, |ps| - 1, existing, dryRun, o);
  }

  lemma ReadySelected(products: seq<Product>, limit: Option<int>)
    requires SyncSafe(products, limit)
    ensures Ready(Selected(products, limit))
  {
    var sel := Selected(products, limit);
    var listable := Seqs.Filter(products, Listable);
    forall i | 0 <= i < |sel| ensures !sel[i].price.Null? {
      assert sel[i] == listable[i];
      assert listable[i] in products;
    }
  }

  /** `sync_products(dry_run, limit)` over the products of `products.json` and the
      map read from `ml_products_map.json` (`None`: no map file). The per-product
      price and listing requests are the oracles `o`. */
  method SyncProducts(products: seq<Product>, dryRun: bool, limit: Option<int>, mapFile: Option<MlMap>, o: Oracles)
    returns (stats: SyncStats, mlMap: MlMap)
    requires SyncSafe(products, limit)
    requires Ready(Selected(products, limit)) &&
      FillsSafe(Selected(products, limit), Dicts.Keys(if mapFile.Some? then mapFile.value else []), o)
    ensures Ready(Selected(products, limit))
    ensures var m0 := if mapFile.Some? then mapFile.value else [];
      && stats == StatsOf(Selected(products, limit), Dicts.Keys(m0), dryRun, o)
      && mlMap == MapOf(m0, Selected(products, limit), Dicts.Keys(m0), dryRun, o)
  {
    var valid := Selected(products, limit);
    ReadySelected(products, limit);
    var m0 := if mapFile.Some? then mapFile.value else [];
    stats, mlMap := SyncLoop(valid, m0, dryRun, o);
  }

  /** The product loop, from the map `m0` the run started with. */
  method SyncLoop(valid: seq<Product>, m0: MlMap, dryRun: bool, o: Oracles) returns (stats: SyncStats, mlMap: MlMap)
    requires Ready(valid) && FillsSafe(valid, Dicts.Keys(m0), o)
    ensures stats == StatsOf(valid, Dicts.Keys(m0), dryRun, o)
    ensures mlMap == MapOf(m0, valid, Dicts.Keys(m0), dryRun, o)
  {
    mlMap := m0;
    var existing := Dicts.Keys(m0);
    ghost var outs := Outcomes(valid, existing, dryRun, o);
    stats := SyncStats(|valid|, 0, 0, 0);
    var i := 0;
    while i < |valid|
      invariant 0 <= i <= |valid|
      invariant stats == Tally(outs[..i]).(total := |valid|)
      invariant mlMap == RecordAll(m0, valid[..i], outs[..i], o)
    {
      var out := SyncAt(valid, i, existing, dryRun, o);
      stats, mlMap := Advance(m0, valid, outs, i, out, stats, mlMap, o);
      i := i + 1;
    }
    SyncDone(valid, outs);
  }

  /** The `i`-th product's outcome. */
  method SyncAt(valid: seq<Product>, i: nat, existing: seq<Field<string>>, dryRun: bool, o: Oracles) returns (out: Outcome)
    requires Ready(valid) && FillsSafe(valid, existing, o) && i < |valid|
    ensures out == Outcomes(valid, existing, dryRun, o)[i]
  {
    out := SyncOne(valid[i], existing, dryRun, o);
  }

  /** The bookkeeping of the `i`-th iteration keeps the loop's invariant. */
  method Advance(m0: MlMap, valid: seq<Product>, ghost outs: seq<Outcome>, i: nat, out: Outcome,
                 stats: SyncStats, mlMap: MlMap, o: Oracles)
    returns (stats': SyncStats, mlMap': MlMap)
    requires i < |valid| == |outs| && forall k :: 0 <= k < |valid| ==> !valid[k].price.Null?
    requires out == outs[i]
    requires stats == Tally(outs[..i]).(total := |valid|)
    requires mlMap == RecordAll(m0, valid[..i], outs[..i], o)
    ensures stats' == Tally(outs[..i + 1]).(total := |valid|)
    ensures mlMap' == RecordAll(m0, valid[..i + 1], outs[..i + 1], o)
  {
    SyncStep(m0, valid, outs, i, o);
    stats', mlMap' := Account(stats, mlMap, valid[i], out, o);
  }

  /** After the last product the prefixes are the whole lists, and the counted
      total is the number of products. */
  lemma SyncDone(valid: seq<Product>, outs: seq<Outcome>)
    ensures valid[..|valid|] == valid && outs[..|outs|] == outs
    ensures Tally(outs).total == |outs|
  {
    TallyTotal(outs);
  }

  /** One more product extends the counters and the map by one step. */
  lemma SyncStep(m0: MlMap, ps: seq<Product>, outs: seq<Outcome>, i: nat, o: Oracles)
    requires i < |ps| == |outs| && forall k :: 0 <= k < |ps| ==> !ps[k].price.Null?
    ensures Tally(outs[..i + 1]) == Tick(Tally(outs[..i]), outs[i])
    ensures RecordAll(m0, ps[..i + 1], outs[..i + 1], o) == Record(RecordAll(m0, ps[..i], outs[..i], o), ps[i], outs[i], o)
  {
    assert outs[..i + 1][..i] == outs[..i];
    assert ps[..i + 1][..i] == ps[..i];
  }

  /** The bookkeeping after one product: one counter goes up, and a created item
      enters the map. */
  method Account(stats: SyncStats, mlMap: MlMap, p: Product, out: Outcome, o: Oracles)
    returns (stats': SyncStats, mlMap': MlMap)
    requires !p.price.Null?
    ensures stats' == Tick(stats, out).(total := stats.total)
    ensures mlMap' == Record(mlMap, p, out, o)
  {
    stats', mlMap' := stats, mlMap;
    match out {
      case Skipped => stats' := stats.(skipped := stats.skipped + 1);
      case Failed => stats' := stats.(errors := stats.errors + 1);
      case Created(item) =>
        stats' := stats.(created := stats.created + 1);
        if item.Some? {
          mlMap' := Dicts.Put(mlMap, SkuOrId(p), NewEntry(item.value, o.mlPrice(CostPrice(p))));
        }
    }
  }

  /** One iteration of the loop: skip a product already in the map, else prepare
      it and, outside a dry run, create it. */
  method SyncOne(p: Product, existing: seq<Field<string>>, dryRun: bool, o: Oracles) returns (out: Outcome)
    requires !p.price.Null? && !p.name.Null? && SyncFills(p, existing, o)
    ensures out == OutcomeOf(p, existing, dryRun, o)
  {
    if SkuOrId(p) in existing {
      return Skipped;
    }
    var prepared := PrepareListing(p, "gold_special", o.search, o.valid, o.mlPrice, o.attrsOf);
    if prepared.None? {
      return Failed;
    }
    if dryRun {
      return Created(None);
    }
    var result, _, _ := CreateListing(prepared.value, o.post);
    if result.Some? {
      out := Created(result);
    } else {
      out := Failed;
    }
  }

  lemma {:induction false} TallyTotal(outs: seq<Outcome>)
    ensures Tally(outs).total == |outs|
    decreases |outs|
  {
    if outs != [] {
      TallyTotal(outs[..|outs| - 1]);
    }
  }

  /** Every selected product counts once: created + skipped + errors = total, and a
      dry run has no errors and leaves the map as it was. */
  lemma {:induction false} SyncAccounting(ps: seq<Product>, m: MlMap, dryRun: bool, o: Oracles)
    requires Ready(ps)
    requires forall i :: 0 <= i < |ps| ==> Listable(ps[i])
    ensures var s := StatsOf(ps, Dicts.Keys(m), dryRun, o);
      && s.created + s.skipped + s.errors == s.total == |ps|
      && (dryRun ==> s.errors == 0 && MapOf(m, ps, Dicts.Keys(m), dryRun, o) == m)
    decreases |ps|
  {
    if ps != [] {
      SyncLast(ps, m, Dicts.Keys(m), dryRun, o);
      SyncAccounting(ps[..|ps| - 1], m, dryRun, o);
      assert Listable(ps[|ps| - 1]);
    }
  }

  predicate InMap(keys: seq<Field<string>>, p: Product) {
    SkuOrId(p) in keys
  }

  /** The skipped products are exactly those whose sku is already in the map. */
  lemma {:induction false} SyncSkips(ps: seq<Product>, existing: seq<Field<string>>, dryRun: bool, o: Oracles)
    requires Ready(ps)
    ensures StatsOf(ps, existing, dryRun, o).skipped == Seqs.Count(ps, p => InMap(existing, p))
    decreases |ps|
  {
    if ps != [] {
      SyncLast(ps, [], existing, dryRun, o);
      SyncSkips(ps[..|ps| - 1], existing, dryRun, o);
    }
  }

  /** A created item is recorded as an active entry under its sku, and no entry of
      the map is lost. */
  lemma {:induction false} SyncMapGrows(m: MlMap, ps: seq<Product>, existing: seq<Field<string>>, dryRun: bool, o: Oracles)
    requires Ready(ps)
    ensures forall k :: k in Dicts.Keys(m) ==> k in Dicts.Keys(MapOf(m, ps, existing, dryRun, o))
    ensures ps != [] && OutcomeOf(ps[|ps| - 1], existing, dryRun, o).Created? && OutcomeOf(ps[|ps| - 1], existing, dryRun, o).item.Some? ==>
      var got := Dicts.Get(MapOf(m, ps, existing, dryRun, o), SkuOrId(ps[|ps| - 1]));
      got.Some? && Active(got.value)
    decreases |ps|
  {
    if ps != [] {
      var init := ps[..|ps| - 1];
      SyncLast(ps, m, existing, dryRun, o);
      SyncMapGrows(m, init, existing, dryRun, o);
      var m' := MapOf(m, init, existing, dryRun, o);
      var p := ps[|ps| - 1];
      var out := OutcomeOf(p, existing, dryRun, o);
      if out.Created? && out.item.Some? {
        var e := NewEntry(out.item.value, o.mlPrice(CostPrice(p)));
        Dicts.PutKeys(m', SkuOrId(p), e);
        Dicts.PutGet(m', SkuOrId(p), e, SkuOrId(p));
        if SkuOrId(p) !in Dicts.Keys(m') {
          Dicts.KeysSnoc(m', (SkuOrId(p), e));
        }
      }
    }
  }
}

/** The Google Merchant Center feed: each product of `products.json` with a positive
    price, an image and a slug, in stock or not, becomes one tab-separated row with
    the eleven columns Google requires. */
module GoogleFeed {
  import opened Py
  import Text
  import Seqs
  import opened Catalog
  import Parse

  const StoreUrl := "https://www.blumenauautomacao.com.br"

  /** The columns of the feed, in file order. */
  const GoogleFields: seq<string> := ["id", "title", "description", "link", "image_link",
    "availability", "price", "brand", "condition", "identifier_exists", "product_type"]

  /* ---------- clean_text ---------- */

  /** No two spaces in a row. */
  predicate NoDoubleSpace(s: string) {
    forall i :: 0 <= i < |s| - 1 ==> !(s[i] == ' ' && s[i + 1] == ' ')
  }

  /** The loop test `"  " in text` is the negation of the predicate above. */
  lemma {:induction false} NoDoubleSpaceContains(s: string)
    ensures NoDoubleSpace(s) <==> !Text.Contains(s, "  ")
    decreases |s|
  {
    if s != [] {
      NoDoubleSpaceContains(s[1..]);
      var pair := |s| >= 2 && s[0] == ' ' && s[1] == ' ';
      assert "  " <= s <==> pair by {
        if pair { assert s[..2] == "  "; }
        if "  " <= s { assert s[0] == "  "[0] && s[1] == "  "[1]; }
      }
      if NoDoubleSpace(s) {
        forall i | 0 <= i < |s[1..]| - 1 ensures !(s[1..][i] == ' ' && s[1..][i + 1] == ' ') {
          assert s[1..][i] == s[i + 1] && s[1..][i + 1] == s[i + 2];
        }
      }
      if !pair && NoDoubleSpace(s[1..]) {
        forall i | 0 <= i < |s| - 1 ensures !(s[i] == ' ' && s[i + 1] == ' ') {
          if i > 0 {
            assert s[1..][i - 1] == s[i] && s[1..][i] == s[i + 1];
          }
        }
      }
    }
  }

  /** Put `c` in front of `t`, unless both are spaces. */
  function Push(c: char, t: string): string {
    if c == ' ' && t != [] && t[0] == ' ' then t else [c] + t
  }

  /** `s` with every run of spaces shortened to a single space: the reference the
      double-space loop of `clean_text` is proved against. */
  function Squeeze(s: string): (r: string)
    ensures |r| <= |s|
    ensures s != [] ==> r != [] && r[0] == s[0]
    decreases |s|
  {
    if s == [] then [] else Push(s[0], Squeeze(s[1..]))
  }

  /** The result of squeezing has no double space and only characters of `s`. */
  lemma {:induction false} SqueezeShape(s: string)
    ensures NoDoubleSpace(Squeeze(s))
    ensures forall c :: c in Squeeze(s) ==> c in s
    decreases |s|
  {
    if s != [] {
      var t := Squeeze(s[1..]);
      SqueezeShape(s[1..]);
      var r := Squeeze(s);
      if r != t {
        assert r == [s[0]] + t;
        forall i | 0 <= i < |r| - 1 ensures !(r[i] == ' ' && r[i + 1] == ' ') {
          if i > 0 { assert r[i] == t[i - 1] && r[i + 1] == t[i]; }
        }
      }
      forall c | c in r ensures c in s {
        if c != s[0] { assert c in t; assert c in s[1..]; }
      }
    }
  }

  /** A string without double spaces is left as it is. */
  lemma {:induction false} SqueezeFixpoint(s: string)
    requires NoDoubleSpace(s)
    ensures Squeeze(s) == s
    decreases |s|
  {
    if s != [] {
      assert NoDoubleSpace(s[1..]) by {
        forall i | 0 <= i < |s[1..]| - 1 ensures !(s[1..][i] == ' ' && s[1..][i + 1] == ' ') {
          assert s[1..][i] == s[i + 1] && s[1..][i + 1] == s[i + 2];
        }
      }
      SqueezeFixpoint(s[1..]);
      if |s| > 1 { assert !(s[0] == ' ' && s[1] == ' '); }
      assert s == [s[0]] + s[1..];
    }
  }

  /** One `text.replace("  ", " ")` keeps the squeezed string: the loop invariant. */
  lemma {:induction false} SqueezeReplace(s: string)
    ensures Squeeze(Text.ReplaceAll(s, "  ", " ")) == Squeeze(s)
    decreases |s|
  {
    if s != [] {
      if "  " <= s {
        var rest := s[2..];
        SqueezeReplace(rest);
        assert Text.ReplaceAll(s, "  ", " ") == " " + Text.ReplaceAll(rest, "  ", " ");
        assert (" " + Text.ReplaceAll(rest, "  ", " "))[1..] == Text.ReplaceAll(rest, "  ", " ");
        assert s[1..][1..] == rest;
        assert s[0] == ' ' && s[1..][0] == ' ';
      } else {
        SqueezeReplace(s[1..]);
        assert ([s[0]] + Text.ReplaceAll(s[1..], "  ", " "))[1..] == Text.ReplaceAll(s[1..], "  ", " ");
      }
    }
  }

  /** `text.replace("\t", " ").replace("\n", " ").replace("\r", " ")`. */
  function Blank(s: string): string {
    Text.ReplaceAll(Text.ReplaceAll(Text.ReplaceAll(s, "\t", " "), "\n", " "), "\r", " ")
  }

  lemma BlankShape(s: string)
    ensures '\t' !in Blank(s) && '\n' !in Blank(s) && '\r' !in Blank(s)
  {
    var a := Text.ReplaceAll(s, "\t", " ");
    var b := Text.ReplaceAll(a, "\n", " ");
    Text.ReplaceCharGone(s, '\t', " ");
    Text.ReplaceCharGone(a, '\n', " ");
    Text.ReplaceCharGone(b, '\r', " ");
    Text.ReplaceChars(a, "\n", " ");
    Text.ReplaceChars(b, "\r", " ");
  }

  /** `text[:max_length-3] + "..."` when `max_length` is given (not 0) and exceeded. */
  function Truncate(t: string, maxLength: nat): string {
    if maxLength != 0 && |t| > maxLength then SliceTo(t, maxLength - 3) + "..." else t
  }

  /** `clean_text`: a falsy text gives ""; otherwise tabs and line breaks become
      spaces, runs of spaces shrink to one, the ends are stripped, and the result
      is truncated. `maxLength` 0 stands for no limit. */
  function Cleaned(text: Field<string>, maxLength: nat): string {
    if !Truthy(text) then "" else Truncate(Text.Strip(Squeeze(Blank(text.value))), maxLength)
  }

  method CleanText(text: Field<string>, maxLength: nat) returns (r: string)
    ensures r == Cleaned(text, maxLength)
  {
    if !Truthy(text) {
      return "";
    }
    var t := Blank(text.value);
    ghost var t0 := t;
    while Text.Contains(t, "  ")
      invariant Squeeze(t) == Squeeze(t0)
      decreases |t|
    {
      Text.ReplaceShrinks(t, "  ", " ");
      SqueezeReplace(t);
      t := Text.ReplaceAll(t, "  ", " ");
    }
    NoDoubleSpaceContains(t);
    SqueezeFixpoint(t);
    t := Text.Strip(t);
    if maxLength != 0 && |t| > maxLength {
      t := SliceTo(t, maxLength - 3) + "...";
    }
    r := t;
  }

  /** What a cleaned text looks like: no tab or line break, no double space, no
      whitespace at either end. */
  predicate FeedClean(r: string) {
    '\t' !in r && '\n' !in r && '\r' !in r && NoDoubleSpace(r)
    && (r == [] || (!Text.IsSpace(r[0]) && !Text.IsSpace(r[|r| - 1])))
  }

  /** A piece of a text without double spaces has none either. */
  lemma SliceKeeps(s: string, a: nat, b: nat)
    requires NoDoubleSpace(s) && a <= b <= |s|
    ensures NoDoubleSpace(s[a..b])
    ensures forall c :: c in s[a..b] ==> c in s
  {
    var r := s[a..b];
    forall i | 0 <= i < |r| - 1 ensures !(r[i] == ' ' && r[i + 1] == ' ') {
      assert r[i] == s[a + i] && r[i + 1] == s[a + i + 1];
    }
    forall c | c in r ensures c in s {
      var i :| 0 <= i < |r| && r[i] == c;
      assert s[a + i] == c;
    }
  }

  /** Stripping keeps a contiguous piece of the text. */
  lemma StripKeeps(s: string)
    requires NoDoubleSpace(s)
    ensures NoDoubleSpace(Text.Strip(s))
    ensures forall c :: c in Text.Strip(s) ==> c in s
  {
    var l := Text.LStripBy(s, Text.IsSpace);
    SliceKeeps(s, |s| - |l|, |s|);
    assert l == s[|s| - |l|..|s|];
    var r := Text.RStripBy(l, Text.IsSpace);
    SliceKeeps(l, 0, |r|);
    assert r == l[0..|r|];
  }

  /** Truncation keeps the shape of a clean text. */
  lemma TruncateShape(t: string, maxLength: nat)
    requires FeedClean(t)
    ensures FeedClean(Truncate(t, maxLength))
  {
    if maxLength != 0 && |t| > maxLength {
      var head := SliceTo(t, maxLength - 3);
      var r := head + "...";
      assert forall i :: 0 <= i < |head| ==> head[i] == t[i];
      assert forall i :: 0 <= i < |r| ==> r[i] == if i < |head| then t[i] else '.';
      forall c | c in r ensures c == '.' || c in t {
        var i :| 0 <= i < |r| && r[i] == c;
      }
    }
  }

  /** Every cleaned text has the feed's shape, and a falsy one is empty. */
  lemma CleanedShape(text: Field<string>, maxLength: nat)
    ensures FeedClean(Cleaned(text, maxLength))
    ensures !Truthy(text) ==> Cleaned(text, maxLength) == ""
  {
    if Truthy(text) {
      var b := Blank(text.value);
      BlankShape(text.value);
      SqueezeShape(b);
      var t := Text.Strip(Squeeze(b));
      StripKeeps(Squeeze(b));
      TruncateShape(t, maxLength);
    }
  }

  /** With a limit of at least 3 the result fits it; a truncated result is exactly
      the limit long and ends with "...", otherwise nothing is cut. */
  lemma CleanedLength(text: Field<string>, maxLength: nat)
    requires maxLength >= 3
    ensures |Cleaned(text, maxLength)| <= maxLength
    ensures Truthy(text) && |Text.Strip(Squeeze(Blank(text.value)))| > maxLength ==>
      |Cleaned(text, maxLength)| == maxLength && Text.EndsWith(Cleaned(text, maxLength), "...")
      && Cleaned(text, maxLength)[..maxLength - 3] == Text.Strip(Squeeze(Blank(text.value)))[..maxLength - 3]
    ensures Truthy(text) && |Text.Strip(Squeeze(Blank(text.value)))| <= maxLength ==>
      Cleaned(text, maxLength) == Text.Strip(Squeeze(Blank(text.value)))
  {
    if Truthy(text) {
      var t := Text.Strip(Squeeze(Blank(text.value)));
      if |t| > maxLength {
        var head := SliceTo(t, maxLength - 3);
        var r := head + "...";
        assert |head| == maxLength - 3;
        assert r[|r| - 3..] == "...";
        assert r[..maxLength - 3] == head == t[..maxLength - 3];
      }
    }
  }

  lemma StripFixed(s: string)
    requires s == [] || (!Text.IsSpace(s[0]) && !Text.IsSpace(s[|s| - 1]))
    ensures Text.Strip(s) == s
  {
  }

  /** Cleaning a cleaned text again changes nothing (for no limit, or a limit of at
      least 3). */
  lemma CleanedIdempotent(text: Field<string>, maxLength: nat)
    requires maxLength == 0 || maxLength >= 3
    ensures Cleaned(Val(Cleaned(text, maxLength)), maxLength) == Cleaned(text, maxLength)
  {
    var r := Cleaned(text, maxLength);
    CleanedShape(text, maxLength);
    if maxLength != 0 { CleanedLength(text, maxLength); }
    if r != "" {
      Text.ContainsChar(r, '\t');
      Text.ReplaceAbsent(r, "\t", " ");
      Text.ContainsChar(r, '\n');
      Text.ReplaceAbsent(r, "\n", " ");
      Text.ContainsChar(r, '\r');
      Text.ReplaceAbsent(r, "\r", " ");
      assert Blank(r) == r;
      SqueezeFixpoint(r);
      StripFixed(r);
    }
  }

  /* ---------- the other fields ---------- */

  /** `format_price`: "" for a price that is falsy or not positive, otherwise the
      price in reais with two decimals (prices are whole cents here). */
  function FormatPrice(price: Field<int>): string {
    if !(price.Val? && price.value > 0) then ""
    else
      var c := price.value;
      Text.NatToString(c / 100) + "." + [Text.DigitChar(c % 100 / 10), Text.DigitChar(c % 10)] + " BRL"
  }

  lemma FormatPriceShape(price: Field<int>)
    ensures FormatPrice(price) == "" <==> !(price.Val? && price.value > 0)
    ensures FormatPrice(price) != "" ==> var r := FormatPrice(price);
      && Text.EndsWith(r, " BRL") && |r| >= 8 && r[|r| - 7] == '.'
      && r[..|r| - 7] == Text.NatToString(price.value / 100)
      && r[|r| - 6] == Text.DigitChar(price.value % 100 / 10) && r[|r| - 5] == Text.DigitChar(price.value % 10)
  {
    if price.Val? && price.value > 0 {
      var c := price.value;
      var n := Text.NatToString(c / 100);
      var r := FormatPrice(price);
      assert r == n + ['.', Text.DigitChar(c % 100 / 10), Text.DigitChar(c % 10), ' ', 'B', 'R', 'L'];
    }
  }

  /** The whole-reais part is written in decimal: reading its digits back gives the
      number, `int(str(n)) == n`. */
  lemma {:induction false} ReaisDigits(n: nat)
    ensures forall i :: 0 <= i < |Text.NatToString(n)| ==> Parse.IsDigit(Text.NatToString(n)[i])
    ensures Parse.DigitsValue(Text.NatToString(n)) == n
    decreases n
  {
    var s := Text.NatToString(n);
    if n >= 10 {
      ReaisDigits(n / 10);
      assert s[..|s| - 1] == Text.NatToString(n / 10);
    }
  }

  /** `get_availability`. */
  function Availability(inStock: Field<bool>): (r: string)
    ensures r == "in_stock" <==> BoolTruthy(inStock)
    ensures r == "in_stock" || r == "out_of_stock"
  {
    if BoolTruthy(inStock) then "in_stock" else "out_of_stock"
  }

  /** `build_product_link`, called only for a truthy slug. */
  function ProductLink(slug: Field<string>): (link: string)
    ensures link == "" <==> !Truthy(slug)
    ensures Truthy(slug) ==> StoreUrl + "/produto.html?slug=" <= link && link[|StoreUrl| + 19..] == slug.value
  {
    if Truthy(slug) then StoreUrl + "/produto.html?slug=" + slug.value else ""
  }

  /** The brands that count as "no brand", compared in lower case. */
  const GenericBrands: seq<string> := ["importado", "genérico", "generico"]

  function Brand(p: Product): string {
    var b := Cleaned(GetOr(p.brand, Val("")), 70);
    if b == "" || Text.Lower(b) in GenericBrands then "Importado" else b
  }

  /** `" > ".join(category_path) if category_path else ""`. */
  function ProductType(path: Field<seq<string>>): string {
    if ListTruthy(path) then Text.Join(" > ", path.value) else ""
  }

  /** One row of the feed: the keys of `GOOGLE_FIELDS`, as fields. */
  datatype FeedRow = FeedRow(
    id: Field<string>,
    title: string,
    description: string,
    link: string,
    imageLink: Field<string>,
    availability: string,
    price: string,
    brand: string,
    condition: string,
    identifierExists: string,
    productType: string)

  /** `convert_product`. */
  function ConvertProduct(p: Product): FeedRow {
    var title := Cleaned(GetOr(p.name, Val("")), 150);
    var description := Cleaned(GetOr(p.description, Val("")), 5000);
    FeedRow(
      id := Or(p.id, GetOr(p.sku, Val(""))),
      title := title,
      description := if description == "" then title else description,
      link := ProductLink(p.slug),
      imageLink := GetOr(p.image, Val("")),
      availability := Availability(p.inStock),
      price := FormatPrice(p.price),
      brand := Brand(p),
      condition := "new",
      identifierExists := "false",
      productType := ProductType(p.categoryPath))
  }

  /** The cells `csv.DictWriter` writes for a row, in `GOOGLE_FIELDS` order (a
      `None` becomes an empty cell). */
  function Cells(r: FeedRow): (cells: seq<string>)
    ensures |cells| == |GoogleFields|
  {
    [Cell(r.id), r.title, r.description, r.link, Cell(r.imageLink), r.availability,
     r.price, r.brand, r.condition, r.identifierExists, r.productType]
  }

  /** The brand rule: "Importado" exactly when the cleaned brand is empty or a
      generic name in any case, otherwise the cleaned brand. */
  lemma BrandRule(p: Product)
    ensures var b := Cleaned(GetOr(p.brand, Val("")), 70);
      && (Brand(p) == "Importado" <==> b == "" || Text.Lower(b) in GenericBrands)
      && (Brand(p) != "Importado" ==> Brand(p) == b)
      && FeedClean(Brand(p)) && 0 < |Brand(p)| <= 70
  {
    var b := Cleaned(GetOr(p.brand, Val("")), 70);
    CleanedShape(GetOr(p.brand, Val("")), 70);
    CleanedLength(GetOr(p.brand, Val("")), 70);
    if b == "Importado" {
      LowerImportado();
    }
    ImportadoClean();
  }

  lemma LowerImportado()
    ensures Text.Lower("Importado") == "importado"
  {
    var l := Text.Lower("Importado");
    assert l[0] == 'i' && l[1] == 'm' && l[2] == 'p' && l[3] == 'o' && l[4] == 'r';
    assert l[5] == 't' && l[6] == 'a' && l[7] == 'd' && l[8] == 'o';
  }

  lemma ImportadoClean()
    ensures FeedClean("Importado")
  {
    var s := "Importado";
    assert !Text.IsSpace(s[0]) && !Text.IsSpace(s[8]);
    assert forall i :: 0 <= i < |s| ==> 'a' <= s[i] <= 'z' || s[i] == 'I';
  }

  /** Each converted row: the description falls back to the title, the fixed
      columns hold their constants, and the cleaned columns have the feed's shape
      and length limits. */
  lemma ConvertProductShape(p: Product)
    ensures var r := ConvertProduct(p);
      && r.title == Cleaned(GetOr(p.name, Val("")), 150)
      && (Cleaned(GetOr(p.description, Val("")), 5000) == "" ==> r.description == r.title)
      && (Cleaned(GetOr(p.description, Val("")), 5000) != "" ==>
            r.description == Cleaned(GetOr(p.description, Val("")), 5000))
      && FeedClean(r.title) && |r.title| <= 150
      && FeedClean(r.description) && |r.description| <= 5000
      && FeedClean(r.brand) && 0 < |r.brand| <= 70
      && r.condition == "new" && r.identifierExists == "false"
      && (r.productType == "" <==> !ListTruthy(p.categoryPath) || Text.Join(" > ", p.categoryPath.value) == "")
  {
    CleanedShape(GetOr(p.name, Val("")), 150);
    CleanedLength(GetOr(p.name, Val("")), 150);
    CleanedShape(GetOr(p.description, Val("")), 5000);
    CleanedLength(GetOr(p.description, Val("")), 5000);
    BrandRule(p);
  }

  /* ---------- generate_feed ---------- */

  /** Where `generate_feed` puts a product; the tests run in this order. */
  datatype Bucket = NoPrice | NoImage | NoSlug | Kept

  function BucketOf(p: Product): (b: Bucket)
    ensures b == Kept <==> p.price.Val? && p.price.value > 0 && Truthy(p.image) && Truthy(p.slug)
  {
    if !(p.price.Val? && p.price.value > 0) then NoPrice
    else if !Truthy(p.image) then NoImage
    else if !Truthy(p.slug) then NoSlug
    else Kept
  }

  predicate IsNoPrice(p: Product) { BucketOf(p) == NoPrice }
  predicate IsNoImage(p: Product) { BucketOf(p) == NoImage }
  predicate IsNoSlug(p: Product) { BucketOf(p) == NoSlug }
  predicate IsKept(p: Product) { BucketOf(p) == Kept }

  /** The `skipped` counters. */
  datatype Skipped = Skipped(noPrice: nat, noImage: nat, noSlug: nat, outOfStock: nat)

  /** The tests of one product, in order: it is counted in the first skip bucket
      that applies, or appended to the valid list. */
  method Place(valid: seq<Product>, skipped: Skipped, product: Product) returns (valid': seq<Product>, skipped': Skipped)
    ensures valid' == valid + (if IsKept(product) then [product] else [])
    ensures skipped' == Skipped(skipped.noPrice + (if IsNoPrice(product) then 1 else 0),
                                skipped.noImage + (if IsNoImage(product) then 1 else 0),
                                skipped.noSlug + (if IsNoSlug(product) then 1 else 0), skipped.outOfStock)
  {
    valid', skipped' := valid, skipped;
    if !(product.price.Val? && product.price.value > 0) {
      skipped' := skipped.(noPrice := skipped.noPrice + 1);
    } else if !Truthy(product.image) {
      skipped' := skipped.(noImage := skipped.noImage + 1);
    } else if !Truthy(product.slug) {
      skipped' := skipped.(noSlug := skipped.noSlug + 1);
    } else {
      valid' := valid + [product];
    }
  }

  /** The filter loop of `generate_feed`. */
  method SelectProducts(products: seq<Product>) returns (valid: seq<Product>, skipped: Skipped)
    ensures valid == Seqs.Filter(products, IsKept)
    ensures skipped == Skipped(Seqs.Count(products, IsNoPrice), Seqs.Count(products, IsNoImage),
                               Seqs.Count(products, IsNoSlug), 0)
  {
    valid := [];
    skipped := Skipped(0, 0, 0, 0);
    var i := 0;
    while i < |products|
      invariant 0 <= i <= |products|
      invariant valid == Seqs.Filter(products[..i], IsKept)
      invariant skipped == Skipped(Seqs.Count(products[..i], IsNoPrice), Seqs.Count(products[..i], IsNoImage),
                                   Seqs.Count(products[..i], IsNoSlug), 0)
    {
      assert products[..i + 1][..i] == products[..i];
      valid, skipped := Place(valid, skipped, products[i]);
      i := i + 1;
    }
    assert products[..i] == products;
  }

  /** Every product lands in exactly one place: the three skip counters and the
      valid list add up to the input. */
  lemma {:induction false} PartitionTotal(products: seq<Product>)
    ensures Seqs.Count(products, IsNoPrice) + Seqs.Count(products, IsNoImage)
      + Seqs.Count(products, IsNoSlug) + |Seqs.Filter(products, IsKept)| == |products|
    decreases |products|
  {
    Seqs.CountFilter(products, IsKept);
    if products != [] {
      PartitionTotal(products[..|products| - 1]);
      Seqs.CountFilter(products[..|products| - 1], IsKept);
    }
  }

  /** Stock plays no part in the selection: out-of-stock products stay in the feed. */
  lemma StockIgnored(p: Product, inStock: Field<bool>)
    ensures BucketOf(p.(inStock := inStock)) == BucketOf(p)
  {
  }

  /** The feed's rows, one per valid product, in order. */
  function FeedRows(ps: seq<Product>): seq<FeedRow> {
    Seqs.Map(ps, ConvertProduct)
  }

  /** `generate_feed` after the file is read: the rows it writes, the skip counters,
      and the in-stock and out-of-stock counts it reports. */
  method GenerateFeed(products: seq<Product>)
    returns (rows: seq<FeedRow>, skipped: Skipped, inStockCount: nat, outOfStockCount: nat)
    ensures rows == FeedRows(Seqs.Filter(products, IsKept))
    ensures skipped == Skipped(Seqs.Count(products, IsNoPrice), Seqs.Count(products, IsNoImage),
                               Seqs.Count(products, IsNoSlug), 0)
    ensures inStockCount == Seqs.Count(Seqs.Filter(products, IsKept), InStock)
    ensures inStockCount + outOfStockCount == |Seqs.Filter(products, IsKept)|
  {
    var valid;
    valid, skipped := SelectProducts(products);
    rows := WriteRows(valid, ConvertProduct);
    inStockCount := CountInStock(valid);
    outOfStockCount := |valid| - inStockCount;
  }

  /** The writing loop: one `writerow(convert(product))` per valid product, where
      `convert` is `convert_product`. */
  method WriteRows(valid: seq<Product>, convert: Product -> FeedRow) returns (rows: seq<FeedRow>)
    ensures rows == Seqs.Map(valid, convert)
  {
    rows := [];
    var i := 0;
    while i < |valid|
      invariant 0 <= i <= |valid|
      invariant rows == Seqs.Map(valid[..i], convert)
    {
      assert valid[..i + 1][..i] == valid[..i];
      rows := rows + [convert(valid[i])];
      i := i + 1;
    }
    assert valid[..i] == valid;
  }

  /** `sum(1 for p in valid_products if p.get("inStock", False))`. */
  method CountInStock(valid: seq<Product>) returns (inStockCount: nat)
    ensures inStockCount == Seqs.Count(valid, InStock)
  {
    inStockCount := 0;
    var k := 0;
    while k < |valid|
      invariant 0 <= k <= |valid|
      invariant inStockCount == Seqs.Count(valid[..k], InStock)
    {
      assert valid[..k + 1][..k] == valid[..k];
      if BoolTruthy(valid[k].inStock) {
        inStockCount := inStockCount + 1;
      }
      k := k + 1;
    }
    assert valid[..k] == valid;
  }

  /** Every row of the feed has a price in BRL, a link to the product page, an
      image, and the availability of its product's stock. */
  lemma FeedRowsShape(products: seq<Product>, k: nat)
    requires k < |Seqs.Filter(products, IsKept)|
    ensures var p := Seqs.Filter(products, IsKept)[k]; var r := FeedRows(Seqs.Filter(products, IsKept))[k];
      && p in products
      && r.price != "" && Text.EndsWith(r.price, " BRL")
      && r.link == StoreUrl + "/produto.html?slug=" + p.slug.value
      && Truthy(r.imageLink) && r.imageLink == p.image
      && (r.availability == "in_stock" <==> InStock(p))
  {
    var valid := Seqs.Filter(products, IsKept);
    Seqs.MapAt(valid, ConvertProduct, k);
    FormatPriceShape(valid[k].price);
  }
}

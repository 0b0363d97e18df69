/** `ProesiScraper.parse_product`: the field-selection waterfalls of the product page
    parser, over the results of the CSS selectors rather than the HTML itself. */
module Parse {
  import opened Py
  import Text
  import Seqs
  import Dicts
  import opened Catalog
  import Scraper

  /* ---------- selector results ---------- */

  /** The attributes of one gallery image element (`None`: no such attribute). */
  datatype ImgEl = ImgEl(dataSrcMax: Option<string>, dataImgFull: Option<string>,
                         dataSrc: Option<string>, src: Option<string>)

  /** The product description tab: the stripped texts of its `p`/`h2`/`h3`/`li`
      elements and the stripped text of the whole tab. */
  datatype DescEl = DescEl(paragraphs: seq<string>, text: string)

  /** One element of a JSON-LD list: an object with its `description` key, or
      anything else. */
  datatype LdItem = ItemDict(description: Field<string>) | ItemOther

  /** The decoded content of one JSON-LD script: an object, a list, or anything else
      (including content that is not valid JSON, which the parser skips). */
  datatype LdScript = LdDict(description: Field<string>) | LdList(items: seq<LdItem>) | LdOther

  /** What the selectors find on a product page. Texts are `get_text(strip=True)`.
      `elPrice` and `metaPrice` are the results of reading a price out of the price
      element's text and out of the price meta tag's `content` (`Some(None)`: there
      was one, but no number could be read); parsing decimal text is not modelled. */
  datatype Page = Page(
    name: Option<string>,
    title: Option<string>,
    ref: Option<string>,
    skuText: Option<string>,
    scripts: seq<Option<string>>,
    elPrice: Option<Option<int>>,
    metaPrice: Option<Option<int>>,
    stock: Option<string>,
    brand: Option<string>,
    imgs: seq<ImgEl>,
    desc: Option<DescEl>,
    metaDesc: Option<string>,
    otherDesc: Option<string>,
    ldScripts: seq<LdScript>,
    breadcrumb: seq<string>,
    carac: Option<(seq<string>, seq<string>)>,
    specRows: seq<seq<string>>,
    datasheet: Option<Option<string>>)

  /** `None` becomes `null` in the product record. */
  function OptField<T>(o: Option<T>): (f: Field<T>)
    ensures !f.Absent?
    ensures o.Some? <==> f.Val?
    ensures o.Some? ==> f.value == o.value
  {
    if o.Some? then Val(o.value) else Null
  }

  /* ---------- name ---------- */

  /** The name element's text; when that is missing or empty, the page title before
      its first `|`, stripped. */
  function Name(page: Page): (name: Option<string>)
    ensures OptTruthy(page.name) ==> name == page.name
    ensures !OptTruthy(page.name) && page.title.Some? ==>
      name == Some(Text.Strip(Text.PrefixBefore(page.title.value, "|")))
    ensures !OptTruthy(page.name) && page.title.None? ==> name == page.name
  {
    if OptTruthy(page.name) then page.name
    else if page.title.Some? then Some(Text.Strip(Text.PrefixBefore(page.title.value, "|")))
    else page.name
  }

  /** A name read from the title never holds `|`. */
  lemma TitleNameFree(page: Page)
    requires !OptTruthy(page.name) && page.title.Some?
    ensures '|' !in Name(page).value
  {
    var before := Text.PrefixBefore(page.title.value, "|");
    Text.PrefixBeforeFree(page.title.value, "|");
    Text.ContainsChar(before, '|');
    var l := Text.LStripBy(before, Text.IsSpace);
    Text.SuffixChars(before, l);
    Text.PrefixChars(Text.RStripBy(l, Text.IsSpace), l);
  }

  /* ---------- SKU ---------- */

  /** The prefixes `^(modelo|sku|ref|referência|código):` tries, in order. */
  const SkuLabels: seq<string> := ["modelo", "sku", "ref", "referência", "código"]

  /** `s` starts with `word` followed by `:`, ignoring case. */
  predicate LabelAt(s: string, word: string) {
    |word| < |s| && Text.Lower(s[..|word|]) == word && s[|word|] == ':'
  }

  /** `re.sub(r'^(modelo|sku|ref|referência|código):\s*', '', s, flags=re.IGNORECASE)`:
      the first label that matches, its colon and the whitespace after it are removed;
      without a match `s` is unchanged. */
  function StripSkuLabel(s: string): string {
    StripFirstLabel(s, SkuLabels)
  }

  function StripFirstLabel(s: string, words: seq<string>): (r: string)
    ensures |r| <= |s| && r == s[|s| - |r|..]
    ensures (forall l :: l in words ==> !LabelAt(s, l)) ==> r == s
    ensures (exists l :: l in words && LabelAt(s, l)) ==> |r| < |s| && (r == [] || !Text.IsSpace(r[0]))
    decreases |words|
  {
    if words == [] then s
    else if LabelAt(s, words[0]) then Text.LStripBy(s[|words[0]| + 1..], Text.IsSpace)
    else
      assert forall l :: l in words[1..] ==> l in words;
      assert forall l :: l in words && l != words[0] ==> l in words[1..];
      StripFirstLabel(s, words[1..])
  }

  /** Example: "Modelo: CLP-100" reads as "CLP-100". */
  lemma StripSkuLabelExample()
    ensures StripSkuLabel("Modelo: CLP-100") == "CLP-100"
  {
    var s := "Modelo: CLP-100";
    ModeloLabel();
    assert StripFirstLabel(s, SkuLabels) == Text.LStripBy(s[7..], Text.IsSpace);
    assert s[7..] == " CLP-100";
    LStripExample();
  }

  lemma ModeloLabel()
    ensures LabelAt("Modelo: CLP-100", SkuLabels[0])
  {
    var s := "Modelo: CLP-100";
    var low := Text.Lower(s[..6]);
    assert low[0] == 'm' && low[1] == 'o' && low[2] == 'd' && low[3] == 'e' && low[4] == 'l' && low[5] == 'o';
    assert low == "modelo";
  }

  lemma LStripExample()
    ensures Text.LStripBy(" CLP-100", Text.IsSpace) == "CLP-100"
  {
    var rest := " CLP-100";
    var word := "CLP-100";
    assert rest[1..] == word;
    assert Text.IsSpace(rest[0]) && !Text.IsSpace(word[0]);
    assert Text.LStripBy(word, Text.IsSpace) == word;
    assert Text.LStripBy(rest, Text.IsSpace) == Text.LStripBy(word, Text.IsSpace);
  }

  /** The analytics-script search: the first script whose content holds `item_id` and
      in which `itemId` (the pattern `"item_id"\s*:\s*"([^"]+)"`) finds a value. */
  method ScriptSku(scripts: seq<Option<string>>, itemId: string -> Option<string>) returns (sku: Option<string>)
    ensures sku == FirstScriptSku(scripts, itemId)
  {
    sku := None;
    var i := 0;
    while i < |scripts|
      invariant 0 <= i <= |scripts|
      invariant FirstScriptSku(scripts, itemId) == FirstScriptSku(scripts[i..], itemId)
    {
      assert scripts[i..][1..] == scripts[i + 1..];
      var script := scripts[i];
      if OptTruthy(script) && Text.Contains(script.value, "item_id") {
        var m := itemId(script.value);
        if m.Some? {
          sku := m;
          return;
        }
      }
      i := i + 1;
    }
  }

  function FirstScriptSku(scripts: seq<Option<string>>, itemId: string -> Option<string>): (sku: Option<string>)
    ensures sku.Some? ==> exists i :: (0 <= i < |scripts| && OptTruthy(scripts[i]) &&
      Text.Contains(scripts[i].value, "item_id") && itemId(scripts[i].value) == sku)
    decreases |scripts|
  {
    if scripts == [] then None
    else if OptTruthy(scripts[0]) && Text.Contains(scripts[0].value, "item_id") && itemId(scripts[0].value).Some? then
      itemId(scripts[0].value)
    else
      var r := FirstScriptSku(scripts[1..], itemId);
      assert r.Some? ==> exists i :: (1 <= i < |scripts| && OptTruthy(scripts[i]) &&
        Text.Contains(scripts[i].value, "item_id") && itemId(scripts[i].value) == r) by {
        if r.Some? {
          var i :| 0 <= i < |scripts[1..]| && OptTruthy(scripts[1..][i])
            && Text.Contains(scripts[1..][i].value, "item_id") && itemId(scripts[1..][i].value) == r;
          assert scripts[1..][i] == scripts[i + 1];
        }
      }
      r
  }

  /** The reference element, else the labelled SKU element with its label removed;
      when both give nothing truthy, the analytics scripts, if they hold one (an
      empty text read before stays otherwise). */
  function Sku(page: Page, scriptSku: Option<string>): (sku: Option<string>)
    ensures OptTruthy(page.ref) ==> sku == page.ref
    ensures !OptTruthy(page.ref) && page.skuText.Some? && StripSkuLabel(page.skuText.value) != "" ==>
      sku == Some(StripSkuLabel(page.skuText.value))
    ensures sku != page.ref && (page.skuText.None? || sku != Some(StripSkuLabel(page.skuText.value))) ==>
      sku == scriptSku && scriptSku.Some?
  {
    var s1 := page.ref;
    var s2 := if !OptTruthy(s1) && page.skuText.Some? then Some(StripSkuLabel(page.skuText.value)) else s1;
    if !OptTruthy(s2) && scriptSku.Some? then scriptSku else s2
  }

  /* ---------- price, stock, brand ---------- */

  /** The price element's reading; when that is missing or zero, the meta tag's,
      unless the meta tag cannot be read either (then the first reading stays). */
  function Price(page: Page): (price: Option<int>)
    ensures page.elPrice.Some? && page.elPrice.value.Some? && page.elPrice.value.value != 0 ==>
      price == page.elPrice.value
    ensures price.Some? ==>
      (page.elPrice.Some? && price == page.elPrice.value) || (page.metaPrice.Some? && price == page.metaPrice.value)
  {
    var p1 := if page.elPrice.Some? then page.elPrice.value else None;
    if (p1.None? || p1.value == 0) && page.metaPrice.Some? && page.metaPrice.value.Some? then page.metaPrice.value
    else p1
  }

  predicate IsDigit(c: char) {
    '0' <= c <= '9'
  }

  /** The value of a run of decimal digits, as `int()` reads it. */
  function DigitsValue(ds: string): nat
    requires forall i :: 0 <= i < |ds| ==> IsDigit(ds[i])
    decreases |ds|
  {
    if ds == [] then 0
    else
      assert IsDigit(ds[|ds| - 1]);
      DigitsValue(ds[..|ds| - 1]) * 10 + (ds[|ds| - 1] as int - '0' as int)
  }

  lemma DigitsValueExample()
    ensures DigitsValue("042") == 42
  {
    assert "042"[..2] == "04" && "04"[..1] == "0" && "0"[..0] == "";
  }

  /** `re.search(r'(\d+)', s)`: the first maximal run of digits, if any. */
  function FirstDigits(s: string): (r: Option<string>)
    ensures r.Some? ==> r.value != [] && forall i :: 0 <= i < |r.value| ==> IsDigit(r.value[i])
    ensures r.None? <==> forall i :: 0 <= i < |s| ==> !IsDigit(s[i])
    decreases |s|
  {
    if s == [] then None
    else if IsDigit(s[0]) then Some(DigitRun(s))
    else
      var r := FirstDigits(s[1..]);
      assert forall i :: 1 <= i < |s| ==> s[i] == s[1..][i - 1];
      r
  }

  function DigitRun(s: string): (r: string)
    requires s != [] && IsDigit(s[0])
    ensures r != [] && r <= s && forall i :: 0 <= i < |r| ==> IsDigit(r[i])
    ensures |r| < |s| ==> !IsDigit(s[|r|])
    decreases |s|
  {
    if |s| > 1 && IsDigit(s[1]) then [s[0]] + DigitRun(s[1..]) else [s[0]]
  }

  /** The availability reading: `(in_stock, stock)`. A lower-cased text holding
      "indisponível" or "esgotado" is out of stock with 0 units; otherwise the first
      number in it, if any, is the stock. Without the element the product is in
      stock with an unknown quantity. */
  function Stock(page: Page): (r: (bool, Option<int>))
    ensures page.stock.None? ==> r == (true, None)
    ensures !r.0 <==> page.stock.Some? && SoldOut(Text.Lower(page.stock.value))
    ensures !r.0 ==> r.1 == Some(0)
    ensures r.1.Some? ==> r.1.value >= 0
  {
    if page.stock.None? then (true, None)
    else
      var t := Text.Lower(page.stock.value);
      if SoldOut(t) then (false, Some(0))
      else
        var ds := FirstDigits(t);
        (true, if ds.Some? then Some(DigitsValue(ds.value)) else None)
  }

  predicate SoldOut(t: string) {
    Text.Contains(t, "indisponível") || Text.Contains(t, "esgotado")
  }

  /* ---------- images ---------- */

  /** `get('data-src-max') or get('data-img-full') or get('data-src') or get('src')`. */
  function ImgUrl(el: ImgEl): Option<string> {
    if OptTruthy(el.dataSrcMax) then el.dataSrcMax
    else if OptTruthy(el.dataImgFull) then el.dataImgFull
    else if OptTruthy(el.dataSrc) then el.dataSrc
    else el.src
  }

  /** The gallery keeps a URL that is absolute (`http…`), is not an SVG, and is not
      yet in the list as it stands. The check is made on the URL before its
      `?ims=` resizing suffix is cut, while the list holds cut URLs. */
  predicate KeepImage(u: Option<string>, images: seq<string>) {
    OptTruthy(u) && "http" <= u.value && !Text.Contains(u.value, "svg") && u.value !in images
  }

  /** `img_url.split('?ims=')[0]` when the URL has that suffix. */
  function CutResize(u: string): string {
    if Text.Contains(u, "?ims=") then Text.PrefixBefore(u, "?ims=") else u
  }

  /** The gallery built from the image elements, in page order. */
  function Images(els: seq<ImgEl>): seq<string>
    decreases |els|
  {
    if els == [] then []
    else
      var images := Images(els[..|els| - 1]);
      var u := ImgUrl(els[|els| - 1]);
      if KeepImage(u, images) then images + [CutResize(u.value)] else images
  }

  /** The image loop: appends each kept URL, cut, to `images`. */
  method CollectImages(els: seq<ImgEl>) returns (images: seq<string>)
    ensures images == Images(els)
  {
    images := [];
    var i := 0;
    while i < |els|
      invariant 0 <= i <= |els|
      invariant images == Images(els[..i])
    {
      assert els[..i + 1][..i] == els[..i];
      var u := ImgUrl(els[i]);
      if OptTruthy(u) && "http" <= u.value && !Text.Contains(u.value, "svg") && u.value !in images {
        var url := u.value;
        if Text.Contains(url, "?ims=") {
          url := Text.PrefixBefore(url, "?ims=");
        }
        images := images + [url];
      }
      i := i + 1;
    }
    assert els[..i] == els;
  }

  /** A cut URL still starts with `http`, holds no `svg` and no `?ims=`. */
  lemma CutResizeShape(u: string)
    requires "http" <= u && !Text.Contains(u, "svg")
    ensures "http" <= CutResize(u) && !Text.Contains(CutResize(u), "svg") && !Text.Contains(CutResize(u), "?ims=")
  {
    if Text.Contains(u, "?ims=") {
      Text.PrefixBeforeKeeps(u, "?ims=", "http");
      Text.PrefixBeforeFree(u, "?ims=");
      if Text.Contains(CutResize(u), "svg") {
        Text.ContainsPrefix(CutResize(u), u, "svg");
      }
    }
  }

  /** Every gallery URL is absolute, not an SVG, and without a resizing suffix. */
  lemma {:induction false} ImagesShape(els: seq<ImgEl>)
    ensures forall i :: 0 <= i < |Images(els)| ==>
      && "http" <= Images(els)[i]
      && !Text.Contains(Images(els)[i], "svg")
      && !Text.Contains(Images(els)[i], "?ims=")
    decreases |els|
  {
    if els != [] {
      ImagesShape(els[..|els| - 1]);
      var u := ImgUrl(els[|els| - 1]);
      if KeepImage(u, Images(els[..|els| - 1])) {
        CutResizeShape(u.value);
      }
    }
  }

  /** Two elements for the same picture at two sizes both enter the gallery, because
      the duplicate check sees the URLs before they are cut. */
  lemma ImagesMayRepeat(a: string, b: string)
    requires "http" <= a && "http" <= b && 'v' !in a && 'v' !in b
    requires Text.Contains(b, "?ims=") && CutResize(a) == CutResize(b)
    ensures Images([ImgEl(None, None, None, Some(a)), ImgEl(None, None, None, Some(b))]) == [CutResize(a), CutResize(a)]
  {
    var els := [ImgEl(None, None, None, Some(a)), ImgEl(None, None, None, Some(b))];
    Text.ContainsChars(a, "svg");
    Text.ContainsChars(b, "svg");
    assert CutResize(b) != b by {
      Text.PrefixBeforeShorter(b, "?ims=");
    }
    assert els[..1] == [els[0]] && [els[0]][..0] == [];
    assert Images(els[..1]) == [CutResize(a)];
  }

  /** For instance "http?ims=1" and "http?ims=2" give the gallery ["http", "http"]. */
  lemma ImagesRepeatExample()
    ensures Images([ImgEl(None, None, None, Some("http?ims=1")), ImgEl(None, None, None, Some("http?ims=2"))]) == ["http", "http"]
  {
    var a, b := "http?ims=1", "http?ims=2";
    ImsCut(a);
    ImsCut(b);
    ImagesMayRepeat(a, b);
  }

  lemma ImsCut(u: string)
    requires u == "http?ims=1" || u == "http?ims=2"
    ensures Text.Contains(u, "?ims=") && CutResize(u) == "http"
    ensures "http" <= u && 'v' !in u
  {
    assert forall i :: 0 <= i < |u| ==> u[i] != 'v';
    assert "?ims=" <= u[4..];
    Text.ContainsSuffix(u, 4, "?ims=");
    Text.PrefixBeforeAt(u, 4, "?ims=");
  }

  /** `image`: the first gallery URL; without a gallery, the first element's `src`
      or `data-src`, made absolute when it is relative. */
  function MainImage(els: seq<ImgEl>, images: seq<string>, urljoin: string -> string): (image: Option<string>)
    ensures images != [] ==> image == Some(images[0])
  {
    if images != [] then Some(images[0])
    else if els != [] then
      var first := els[0];
      var im := if OptTruthy(first.src) then first.src else first.dataSrc;
      if OptTruthy(im) && !("http" <= im.value) then Some(urljoin(im.value)) else im
    else None
  }

  /* ---------- description ---------- */

  predicate NonEmpty(s: string) {
    s != ""
  }

  /** The description tab: its non-empty paragraph texts joined by single spaces, or
      the text of the whole tab when it has no paragraph elements. */
  function TabDescription(d: DescEl): string {
    if d.paragraphs != [] then Text.Join(" ", Seqs.Filter(d.paragraphs, NonEmpty)) else d.text
  }

  /** A tab whose paragraph elements are all empty gives an empty description, so the
      next source is tried. */
  lemma TabDescriptionBlank(d: DescEl)
    requires d.paragraphs != [] && forall i :: 0 <= i < |d.paragraphs| ==> d.paragraphs[i] == ""
    ensures TabDescription(d) == ""
  {
    var kept := Seqs.Filter(d.paragraphs, NonEmpty);
    assert forall x :: x in d.paragraphs ==> !NonEmpty(x);
  }

  /** The description a JSON-LD script offers: a truthy `description` of an object,
      or of the first object in a list that has one. */
  function LdValue(s: LdScript): Option<string> {
    match s
    case LdDict(d) => if Truthy(d) then Some(d.value) else None
    case LdList(items) => FirstItemDesc(items)
    case LdOther => None
  }

  function FirstItemDesc(items: seq<LdItem>): (r: Option<string>)
    ensures r.Some? ==> r.value != ""
    decreases |items|
  {
    if items == [] then None
    else if items[0].ItemDict? && Truthy(items[0].description) then Some(items[0].description.value)
    else FirstItemDesc(items[1..])
  }

  /** The JSON-LD loop as written: an object with a description ends the search, but
      the `break` after a hit inside a list only leaves the inner loop, so the search
      goes on and a later script's description replaces it. `acc` is the
      description so far. */
  function LdAsWritten(scripts: seq<LdScript>, acc: Option<string>): Option<string>
    decreases |scripts|
  {
    if scripts == [] then acc
    else
      var v := LdValue(scripts[0]);
      if scripts[0].LdDict? && v.Some? then v
      else LdAsWritten(scripts[1..], if v.Some? then v else acc)
  }

  /** The evidently intended search: the first description offered, in document
      order. */
  function LdFirst(scripts: seq<LdScript>): (r: Option<string>)
    ensures r.Some? ==> r.value != ""
    decreases |scripts|
  {
    if scripts == [] then None
    else if LdValue(scripts[0]).Some? then LdValue(scripts[0])
    else LdFirst(scripts[1..])
  }

  /** `LdFirst` returns a description offered by some script, and no earlier script
      offers one; it finds nothing only when no script offers a description. */
  lemma {:induction false} LdFirstIsFirst(scripts: seq<LdScript>)
    ensures LdFirst(scripts).None? <==> forall i :: 0 <= i < |scripts| ==> LdValue(scripts[i]).None?
    ensures LdFirst(scripts).Some? ==> exists i :: (0 <= i < |scripts| && LdValue(scripts[i]) == LdFirst(scripts) &&
      forall j :: 0 <= j < i ==> LdValue(scripts[j]).None?)
    decreases |scripts|
  {
    if scripts != [] && LdValue(scripts[0]).None? {
      LdFirstIsFirst(scripts[1..]);
      assert forall i :: 1 <= i < |scripts| ==> scripts[i] == scripts[1..][i - 1];
      if LdFirst(scripts).Some? {
        var i :| 0 <= i < |scripts[1..]| && LdValue(scripts[1..][i]) == LdFirst(scripts[1..])
          && forall j :: 0 <= j < i ==> LdValue(scripts[1..][j]).None?;
        assert LdValue(scripts[i + 1]) == LdFirst(scripts);
        assert forall j :: 0 <= j < i + 1 ==> LdValue(scripts[j]).None? by {
          forall j | 0 <= j < i + 1 ensures LdValue(scripts[j]).None? {
            if j > 0 { assert scripts[j] == scripts[1..][j - 1]; }
          }
        }
      }
    }
  }

  /** The loop as written keeps `acc` or a description some script offers; it ends
      with nothing only when `acc` is nothing and no script offers a description. */
  lemma {:induction false} LdAsWrittenOffered(scripts: seq<LdScript>, acc: Option<string>)
    ensures LdAsWritten(scripts, acc).None? <==>
      acc.None? && forall i :: 0 <= i < |scripts| ==> LdValue(scripts[i]).None?
    ensures LdAsWritten(scripts, acc) == acc ||
      exists i :: 0 <= i < |scripts| && LdValue(scripts[i]) == LdAsWritten(scripts, acc)
    decreases |scripts|
  {
    if scripts != [] {
      var v := LdValue(scripts[0]);
      if !(scripts[0].LdDict? && v.Some?) {
        var acc' := if v.Some? then v else acc;
        LdAsWrittenOffered(scripts[1..], acc');
        assert forall i :: 1 <= i < |scripts| ==> scripts[i] == scripts[1..][i - 1];
        if LdAsWritten(scripts, acc) != acc' {
          var i :| 0 <= i < |scripts[1..]| && LdValue(scripts[1..][i]) == LdAsWritten(scripts, acc);
          assert LdValue(scripts[i + 1]) == LdAsWritten(scripts, acc);
        }
      }
    }
  }

  /** Without lists the loop as written and the intended search agree. */
  lemma {:induction false} LdAgreeWithoutLists(scripts: seq<LdScript>, acc: Option<string>)
    requires forall i :: 0 <= i < |scripts| ==> !scripts[i].LdList?
    ensures LdAsWritten(scripts, acc) == if LdFirst(scripts).Some? then LdFirst(scripts) else acc
    decreases |scripts|
  {
    if scripts != [] {
      assert forall i :: 0 <= i < |scripts[1..]| ==> scripts[1..][i] == scripts[i + 1];
      LdAgreeWithoutLists(scripts[1..], acc);
    }
  }

  /** A list offering "A" followed by an object offering "B": the loop as written ends
      with "B", the first description in the page is "A". */
  lemma LdLaterOverwrites()
    ensures LdAsWritten([LdList([ItemDict(Val("A"))]), LdDict(Val("B"))], None) == Some("B")
    ensures LdFirst([LdList([ItemDict(Val("A"))]), LdDict(Val("B"))]) == Some("A")
  {
    var s := [LdList([ItemDict(Val("A"))]), LdDict(Val("B"))];
    assert LdValue(s[0]) == Some("A");
    assert s[1..] == [LdDict(Val("B"))];
    assert LdAsWritten(s[1..], Some("A")) == Some("B");
  }

  /** The JSON-LD loop of `parse_product`: a hit in an object breaks the outer
      loop, a hit in a list only the inner one. */
  method LdLoop(scripts: seq<LdScript>) returns (desc: Option<string>)
    ensures desc == LdAsWritten(scripts, None)
  {
    desc := None;
    var i := 0;
    while i < |scripts|
      invariant 0 <= i <= |scripts|
      invariant LdAsWritten(scripts, None) == LdAsWritten(scripts[i..], desc)
    {
      assert scripts[i..][1..] == scripts[i + 1..];
      match scripts[i] {
        case LdDict(d) =>
          if Truthy(d) {
            desc := Some(d.value);
            break;
          }
        case LdList(items) =>
          ghost var prev := desc;
          var k := 0;
          while k < |items|
            invariant 0 <= k <= |items|
            invariant desc == prev
            invariant FirstItemDesc(items) == FirstItemDesc(items[k..])
          {
            assert items[k..][1..] == items[k + 1..];
            if items[k].ItemDict? && Truthy(items[k].description) {
              desc := Some(items[k].description.value);
              break;
            }
            k := k + 1;
          }
          assert desc == if FirstItemDesc(items).Some? then FirstItemDesc(items) else prev;
        case LdOther =>
      }
      i := i + 1;
    }
  }

  /** The JSON-LD search with the hit in a list ending the whole search. */
  method LdSearch(scripts: seq<LdScript>) returns (desc: Option<string>)
    ensures desc == LdFirst(scripts)
  {
    var i := 0;
    while i < |scripts|
      invariant 0 <= i <= |scripts|
      invariant LdFirst(scripts) == LdFirst(scripts[i..])
    {
      assert scripts[i..][1..] == scripts[i + 1..];
      match scripts[i] {
        case LdDict(d) =>
          if Truthy(d) {
            desc := Some(d.value);
            return;
          }
        case LdList(items) =>
          var k := 0;
          while k < |items|
            invariant 0 <= k <= |items|
            invariant FirstItemDesc(items) == FirstItemDesc(items[k..])
          {
            assert items[k..][1..] == items[k + 1..];
            if items[k].ItemDict? && Truthy(items[k].description) {
              desc := Some(items[k].description.value);
              return;
            }
            k := k + 1;
          }
        case LdOther =>
      }
      i := i + 1;
    }
    desc := None;
  }

  /** The description sources in turn, each tried only while the description so far
      is falsy: the tab, the stripped meta description (when its `content` is
      truthy), the other description element, and the JSON-LD search `ld`. */
  function RawDescription(page: Page, ld: Option<string>): Option<string> {
    var d1 := if page.desc.Some? then Some(TabDescription(page.desc.value)) else None;
    var d2 := if !OptTruthy(d1) && OptTruthy(page.metaDesc) then Some(Text.Strip(page.metaDesc.value)) else d1;
    var d3 := if !OptTruthy(d2) && page.otherDesc.Some? then page.otherDesc else d2;
    if !OptTruthy(d3) && ld.Some? then ld else d3
  }

  /** The first truthy source wins; a truthy description always comes from one of
      the sources. */
  lemma RawDescriptionSources(page: Page, ld: Option<string>)
    ensures page.desc.Some? && TabDescription(page.desc.value) != "" ==>
      RawDescription(page, ld) == Some(TabDescription(page.desc.value))
    ensures ((page.desc.None? || TabDescription(page.desc.value) == "") && OptTruthy(page.metaDesc) &&
             Text.Strip(page.metaDesc.value) != "") ==> RawDescription(page, ld) == Some(Text.Strip(page.metaDesc.value))
    ensures OptTruthy(RawDescription(page, ld)) ==>
      || (page.desc.Some? && RawDescription(page, ld) == Some(TabDescription(page.desc.value)))
      || (page.metaDesc.Some? && RawDescription(page, ld) == Some(Text.Strip(page.metaDesc.value)))
      || RawDescription(page, ld) == page.otherDesc
      || RawDescription(page, ld) == ld
    ensures !OptTruthy(RawDescription(page, ld)) ==> !OptTruthy(ld) && !OptTruthy(page.otherDesc)
  {
  }

  /** Descriptions longer than 2000 characters are cut to their first 1997 followed
      by "...". */
  function Cap(d: string): (r: string)
    ensures |r| <= 2000
    ensures |d| <= 2000 ==> r == d
    ensures |d| > 2000 ==> |r| == 2000 && r[..1997] == d[..1997] && r[1997..] == "..."
  {
    if |d| > 2000 then d[..1997] + "..." else d
  }

  /** Capping twice is capping once. */
  lemma CapIdempotent(d: string)
    ensures Cap(Cap(d)) == Cap(d)
  {
  }

  /** The description field: the raw description with its HTML entities decoded
      (`unescape`) and capped, when it is truthy. */
  function Description(page: Page, ld: Option<string>, unescape: string -> string): (r: Option<string>)
    ensures r.Some? ==> |r.value| <= 2000
    ensures OptTruthy(RawDescription(page, ld)) ==> r == Some(Cap(unescape(RawDescription(page, ld).value)))
    ensures !OptTruthy(RawDescription(page, ld)) ==> !OptTruthy(r)
  {
    var raw := RawDescription(page, ld);
    if OptTruthy(raw) then Some(Cap(unescape(raw.value))) else raw
  }

  /* ---------- category ---------- */

  /** The breadcrumb texts after the first ("Home"). */
  function CategoryPath(breadcrumb: seq<string>): (path: seq<string>)
    ensures breadcrumb != [] ==> breadcrumb == [breadcrumb[0]] + path
    ensures breadcrumb == [] ==> path == []
  {
    if breadcrumb != [] then breadcrumb[1..] else []
  }

  /** The last path element, lower-cased, with its spaces turned into dashes. */
  function CategoryOf(path: seq<string>): (category: Option<string>)
    ensures category.Some? <==> path != []
    ensures category.Some? ==> ' ' !in category.value
    ensures category.Some? ==> |category.value| == |path[|path| - 1]|
  {
    if path != [] then
      var s := Text.Lower(path[|path| - 1]);
      Text.ReplaceCharGone(s, ' ', "-");
      ReplaceSameLength(s, ' ', '-');
      Some(Text.ReplaceAll(s, " ", "-"))
    else None
  }

  lemma {:induction false} ReplaceSameLength(s: string, c: char, d: char)
    ensures |Text.ReplaceAll(s, [c], [d])| == |s|
    decreases |s|
  {
    if s != [] { ReplaceSameLength(s[1..], c, d); }
  }

  /* ---------- specifications ---------- */

  /** `zip(dts, dds)`: pairs up to the shorter list. */
  function Zip(a: seq<string>, b: seq<string>): (r: seq<(string, string)>)
    ensures |r| == if |a| <= |b| then |a| else |b|
    ensures forall i :: 0 <= i < |r| ==> r[i] == (a[i], b[i])
  {
    seq(if |a| <= |b| then |a| else |b|, i requires 0 <= i < |a| && i < |b| => (a[i], b[i]))
  }

  /** A characteristics pair is kept when key and value are non-empty and the key is
      not the reference (already read as the SKU). */
  predicate KeepCarac(p: (string, string)) {
    p.0 != "" && p.1 != "" && Text.Lower(p.0) != "referência"
  }

  /** A table row is kept when it has two cells, both non-empty. */
  predicate KeepRow(cells: seq<string>) {
    |cells| >= 2 && cells[0] != "" && cells[1] != ""
  }

  /** The characteristics assigned in order, a repeated key keeping its first
      position and its last value. */
  function CaracSpecs(pairs: seq<(string, string)>): Dicts.Dict<string, string>
    decreases |pairs|
  {
    if pairs == [] then []
    else
      var d := CaracSpecs(pairs[..|pairs| - 1]);
      var p := pairs[|pairs| - 1];
      if KeepCarac(p) then Dicts.Put(d, p.0, p.1) else d
  }

  /** The table rows assigned in order. */
  function RowSpecs(rows: seq<seq<string>>): Dicts.Dict<string, string>
    decreases |rows|
  {
    if rows == [] then []
    else
      var d := RowSpecs(rows[..|rows| - 1]);
      var row := rows[|rows| - 1];
      if KeepRow(row) then Dicts.Put(d, row[0], row[1]) else d
  }

  /** The characteristics list when it gives anything, else the specification table. */
  function Specs(page: Page): Dicts.Dict<string, string> {
    var c := if page.carac.Some? then CaracSpecs(Zip(page.carac.value.0, page.carac.value.1)) else [];
    if c != [] then c else RowSpecs(page.specRows)
  }

  /** The two specification loops: the dt/dd pairs, then, only while nothing was
      found, the table rows. */
  method BuildSpecs(page: Page) returns (specs: Dicts.Dict<string, string>)
    ensures specs == Specs(page)
  {
    specs := [];
    if page.carac.Some? {
      var pairs := Zip(page.carac.value.0, page.carac.value.1);
      var i := 0;
      while i < |pairs|
        invariant 0 <= i <= |pairs|
        invariant specs == CaracSpecs(pairs[..i])
      {
        assert pairs[..i + 1][..i] == pairs[..i];
        var (key, value) := pairs[i];
        if key != "" && value != "" && Text.Lower(key) != "referência" {
          specs := Dicts.Put(specs, key, value);
        }
        i := i + 1;
      }
      assert pairs[..i] == pairs;
    }
    if specs == [] {
      var i := 0;
      while i < |page.specRows|
        invariant 0 <= i <= |page.specRows|
        invariant specs == RowSpecs(page.specRows[..i])
      {
        assert page.specRows[..i + 1][..i] == page.specRows[..i];
        var cells := page.specRows[i];
        if |cells| >= 2 {
          var key := cells[0];
          var value := cells[1];
          if key != "" && value != "" {
            specs := Dicts.Put(specs, key, value);
          }
        }
        i := i + 1;
      }
      assert page.specRows[..i] == page.specRows;
    }
  }

  /** Every specification has a unique, non-empty key and a non-empty value. */
  predicate GoodSpecs(d: Dicts.Dict<string, string>) {
    Dicts.Valid(d) && forall e :: e in d ==> e.0 != "" && e.1 != ""
  }

  lemma PutGood(d: Dicts.Dict<string, string>, k: string, v: string)
    requires GoodSpecs(d) && k != "" && v != ""
    ensures GoodSpecs(Dicts.Put(d, k, v))
  {
    Dicts.PutValid(d, k, v);
    Dicts.PutEntries(d, k, v);
  }

  lemma {:induction false} CaracSpecsGood(pairs: seq<(string, string)>)
    ensures GoodSpecs(CaracSpecs(pairs))
    ensures forall e :: e in CaracSpecs(pairs) ==> Text.Lower(e.0) != "referência"
    decreases |pairs|
  {
    if pairs != [] {
      var d := CaracSpecs(pairs[..|pairs| - 1]);
      CaracSpecsGood(pairs[..|pairs| - 1]);
      var p := pairs[|pairs| - 1];
      if KeepCarac(p) {
        PutGood(d, p.0, p.1);
        Dicts.PutEntries(d, p.0, p.1);
      }
    }
  }

  lemma {:induction false} RowSpecsGood(rows: seq<seq<string>>)
    ensures GoodSpecs(RowSpecs(rows))
    decreases |rows|
  {
    if rows != [] {
      RowSpecsGood(rows[..|rows| - 1]);
      var row := rows[|rows| - 1];
      if KeepRow(row) {
        PutGood(RowSpecs(rows[..|rows| - 1]), row[0], row[1]);
      }
    }
  }

  /** The specifications never hold an empty key or value or a repeated key, and
      the reference never comes from the characteristics list. */
  lemma SpecsGood(page: Page)
    ensures GoodSpecs(Specs(page))
    ensures page.carac.Some? && CaracSpecs(Zip(page.carac.value.0, page.carac.value.1)) != [] ==>
      Specs(page) == CaracSpecs(Zip(page.carac.value.0, page.carac.value.1))
      && forall e :: e in Specs(page) ==> Text.Lower(e.0) != "referência"
  {
    RowSpecsGood(page.specRows);
    if page.carac.Some? {
      CaracSpecsGood(Zip(page.carac.value.0, page.carac.value.1));
    }
  }

  /** A key given twice keeps the later value. */
  lemma CaracSpecsLastWins(pairs: seq<(string, string)>, p: (string, string))
    requires KeepCarac(p)
    ensures Dicts.Get(CaracSpecs(pairs + [p]), p.0) == Some(p.1)
  {
    assert (pairs + [p])[..|pairs|] == pairs;
    Dicts.PutGet(CaracSpecs(pairs), p.0, p.1, p.0);
  }

  /* ---------- datasheet, slug ---------- */

  /** The datasheet link's `href`, made absolute when it is relative. */
  function Datasheet(page: Page, urljoin: string -> string): (ds: Option<string>)
    ensures page.datasheet.None? ==> ds.None?
    ensures page.datasheet.Some? && OptTruthy(page.datasheet.value) && "http" <= page.datasheet.value.value ==>
      ds == page.datasheet.value
    ensures page.datasheet.Some? && OptTruthy(page.datasheet.value) && !("http" <= page.datasheet.value.value) ==>
      ds == Some(urljoin(page.datasheet.value.value))
  {
    if page.datasheet.Some? then
      var href := page.datasheet.value;
      if OptTruthy(href) && !("http" <= href.value) then Some(urljoin(href.value)) else href
    else None
  }

  predicate IsSlash(c: char) {
    c == '/'
  }

  /** The URL without the site's base URL and without leading or trailing slashes. */
  function Slug(url: string): (slug: string)
    ensures slug == [] || (slug[0] != '/' && slug[|slug| - 1] != '/')
  {
    Text.StripBy(Text.ReplaceAll(url, Scraper.BaseUrl, ""), IsSlash)
  }

  /* ---------- the product record ---------- */

  /** The record `parse_product` returns for a page with a name, from the results
      of its loops. `priceFormatted` is not modelled. */
  function Assemble(url: string, page: Page, name: string, sku: Option<string>, images: seq<string>,
                    specs: Dicts.Dict<string, string>, ld: Option<string>,
                    unescape: string -> string, urljoin: string -> string): Product
  {
    var path := CategoryPath(page.breadcrumb);
    var stock := Stock(page);
    Product(
      id := Val(if OptTruthy(sku) then sku.value else Slug(url)),
      sku := OptField(sku),
      name := Val(name),
      slug := Val(Slug(url)),
      brand := OptField(page.brand),
      price := OptField(Price(page)),
      stock := OptField(stock.1),
      inStock := Val(stock.0),
      description := OptField(Description(page, ld, unescape)),
      specs := if specs != [] then Val(specs) else Null,
      category := OptField(CategoryOf(path)),
      categoryPath := if path != [] then Val(path) else Null,
      image := OptField(MainImage(page.imgs, images, urljoin)),
      images := if |images| > 1 then Val(images) else Null,
      datasheet := OptField(Datasheet(page, urljoin)),
      sourceUrl := Val(url),
      supplier := Absent,
      warranty := Absent,
      ean := Absent,
      gtin := Absent)
  }

  /** The record of a page with a name. */
  function ProductOf(url: string, page: Page, itemId: string -> Option<string>,
                     unescape: string -> string, urljoin: string -> string): Product
    requires OptTruthy(Name(page))
  {
    Assemble(url, page, Name(page).value, Sku(page, FirstScriptSku(page.scripts, itemId)),
             Images(page.imgs), Specs(page), LdAsWritten(page.ldScripts, None), unescape, urljoin)
  }

  /** What every record satisfies: a truthy id and name, the SKU as id when there is
      one, a gallery of more than one absolute non-SVG URL whose first is the main
      image, a capped description, a dash-separated category taken from a non-empty
      path, well-formed specifications, and no stock when out of stock. */
  lemma ProductShape(url: string, page: Page, itemId: string -> Option<string>,
                     unescape: string -> string, urljoin: string -> string)
    requires OptTruthy(Name(page))
    ensures var p := ProductOf(url, page, itemId, unescape, urljoin);
      && Truthy(p.name) && p.sourceUrl == Val(url)
      && var sku := Sku(page, FirstScriptSku(page.scripts, itemId));
      && (OptTruthy(sku) ==> p.id == Val(sku.value) && p.sku == Val(sku.value))
      && (!OptTruthy(sku) ==> p.id == p.slug)
      && (p.images.Val? ==> (|p.images.value| > 1 && p.image == Val(p.images.value[0]) &&
          forall i :: 0 <= i < |p.images.value| ==>
            "http" <= p.images.value[i] && !Text.Contains(p.images.value[i], "svg")))
      && (p.description.Val? ==> |p.description.value| <= 2000)
      && (p.category.Val? ==> ' ' !in p.category.value && p.categoryPath.Val?)
      && (p.categoryPath.Val? ==> p.categoryPath.value != [])
      && (p.specs.Val? ==> p.specs.value != [] && GoodSpecs(p.specs.value))
      && (p.inStock == Val(false) ==> p.stock == Val(0))
      && p.supplier.Absent? && p.warranty.Absent? && p.ean.Absent? && p.gtin.Absent?
  {
    ImagesShape(page.imgs);
    SpecsGood(page);
  }

  /** `parse_product` on the fetched page `html` (`None` when the fetch failed):
      `select` stands for the CSS selectors, `itemId` for the analytics pattern and
      `unescape`, `urljoin` for the library calls. Pages without a name give no
      record. */
  method ParseProduct(url: string, html: Option<string>, select: string -> Page,
                      itemId: string -> Option<string>, unescape: string -> string,
                      urljoin: string -> string) returns (r: Option<Product>)
    ensures r.None? <==> !OptTruthy(html) || !OptTruthy(Name(select(html.value)))
    ensures r.Some? ==> r.value == ProductOf(url, select(html.value), itemId, unescape, urljoin)
  {
    if !OptTruthy(html) {
      return None;
    }
    var page := select(html.value);
    var name := Name(page);
    if !OptTruthy(name) {
      return None;
    }
    var sku := page.ref;
    if !OptTruthy(sku) && page.skuText.Some? {
      sku := Some(StripSkuLabel(page.skuText.value));
    }
    if !OptTruthy(sku) {
      var found := ScriptSku(page.scripts, itemId);
      if found.Some? {
        sku := found;
      }
    }
    var images := CollectImages(page.imgs);
    var specs := BuildSpecs(page);
    var ld := LdLoop(page.ldScripts);
    assert sku == Sku(page, FirstScriptSku(page.scripts, itemId));
    r := Some(Assemble(url, page, name.value, sku, images, specs, ld, unescape, urljoin));
  }
}

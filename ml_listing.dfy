/** The text rules shared by the marketplace API client and the CSV exporter: the
    listing title (`clean_title`, identical in both scripts) and the listing
    description (tag removal, whitespace collapse, extra lines, footer, cap). */
module MlListing {
  import opened Py
  import Text
  import opened Catalog

  /* ---------- title ---------- */

  /** The characters `[|\\/<>]` the title must not hold. */
  predicate BadTitleChar(c: char) {
    c == '|' || c == '\\' || c == '/' || c == '<' || c == '>'
  }

  predicate CleanChars(s: string) {
    forall i :: 0 <= i < |s| ==> !BadTitleChar(s[i])
  }

  /** `re.sub(r'[|\\/<>]', ' ', s)`. */
  function MaskBad(s: string): (r: string)
    ensures |r| == |s|
    ensures CleanChars(r)
    ensures forall i :: 0 <= i < |s| ==> r[i] == if BadTitleChar(s[i]) then ' ' else s[i]
  {
    seq(|s|, i requires 0 <= i < |s| => if BadTitleChar(s[i]) then ' ' else s[i])
  }

  /** `clean_title`: whitespace collapsed, forbidden characters blanked, whitespace
      collapsed again; a result longer than `maxLength` is cut to `maxLength - 3`
      characters, back to its last space, and given "...". */
  function CleanTitle(name: string, maxLength: int): string {
    var t := Text.Normalize(MaskBad(Text.Normalize(name)));
    if |t| <= maxLength then t
    else Text.RSplitHead(SliceTo(t, maxLength - 3), ' ') + "..."
  }

  /** The title is never longer than the limit (for a limit of at least 3) and never
      holds a forbidden character. */
  lemma CleanTitleShape(name: string, maxLength: int)
    requires maxLength >= 3
    ensures |CleanTitle(name, maxLength)| <= maxLength
    ensures CleanChars(CleanTitle(name, maxLength))
    ensures Text.IsNormalized(Text.Normalize(MaskBad(Text.Normalize(name))))
  {
    var m := MaskBad(Text.Normalize(name));
    var t := Text.Normalize(m);
    Text.NormalizeShape(m);
    assert CleanChars(t) by {
      forall i | 0 <= i < |t| ensures !BadTitleChar(t[i]) {
        assert t[i] in t;
        if t[i] != ' ' {
          var k :| 0 <= k < |m| && m[k] == t[i];
        }
      }
    }
    if |t| > maxLength {
      var cut := Text.RSplitHead(SliceTo(t, maxLength - 3), ' ');
      assert forall i :: 0 <= i < |cut| ==> cut[i] == t[i];
      var r := cut + "...";
      assert forall i :: 0 <= i < |r| ==> r[i] == if i < |cut| then cut[i] else '.';
    }
  }

  /** A truncated title is the first `maxLength - 3` characters of the cleaned name
      cut back to their last space, followed by "...". */
  lemma CleanTitleTruncates(name: string, maxLength: int)
    requires maxLength >= 3
    requires |Text.Normalize(MaskBad(Text.Normalize(name)))| > maxLength
    ensures var t := Text.Normalize(MaskBad(Text.Normalize(name)));
      && Text.EndsWith(CleanTitle(name, maxLength), "...")
      && CleanTitle(name, maxLength)[..|CleanTitle(name, maxLength)| - 3] <= t[..maxLength - 3]
      && (' ' in t[..maxLength - 3] ==> t[|CleanTitle(name, maxLength)| - 3] == ' ')
  {
  }

  /** A name that is already clean and short enough is returned unchanged. */
  lemma CleanTitleKeepsClean(name: string, maxLength: int)
    requires Text.IsNormalized(name) && CleanChars(name) && |name| <= maxLength
    ensures CleanTitle(name, maxLength) == name
  {
    Text.NormalizeFixpoint(name);
    assert MaskBad(name) == name;
  }

  /** Cleaning is idempotent on titles that were not truncated. */
  lemma CleanTitleIdempotent(name: string, maxLength: int)
    requires maxLength >= 3
    requires |Text.Normalize(MaskBad(Text.Normalize(name)))| <= maxLength
    ensures CleanTitle(CleanTitle(name, maxLength), maxLength) == CleanTitle(name, maxLength)
  {
    CleanTitleShape(name, maxLength);
    CleanTitleKeepsClean(CleanTitle(name, maxLength), maxLength);
  }

  /* ---------- tags ---------- */

  /** `s` starts with a tag `<[^>]+>`: a `<`, at least one character other than `>`,
      then a `>`. */
  predicate TagAt(s: string, i: int) {
    0 <= i && i + 1 < |s| && s[i] == '<' && s[i + 1] != '>' && '>' in s[i + 1..]
  }

  predicate NoTags(s: string) {
    forall i :: 0 <= i < |s| ==> !TagAt(s, i)
  }

  /** The index of the first `>` in `s`. */
  function CloseAt(s: string): (k: nat)
    requires '>' in s
    ensures k < |s| && s[k] == '>' && '>' !in s[..k]
    decreases |s|
  {
    if s[0] == '>' then 0
    else
      var k := CloseAt(s[1..]) + 1;
      assert s[..k] == [s[0]] + s[1..][..k - 1];
      k
  }

  /** `re.sub(r'<[^>]+>', ' ', s)`: each tag, left to right, becomes one space. */
  function StripTags(s: string): string
    decreases |s|
  {
    if s == [] then []
    else if TagAt(s, 0) then
      var k := CloseAt(s[1..]) + 1;
      " " + StripTags(s[k + 1..])
    else [s[0]] + StripTags(s[1..])
  }

  /** Every character of the result is a space or comes from `s`, and the first
      character survives unless a tag starts there. */
  lemma {:induction false} StripTagsChars(s: string)
    ensures forall c :: c in StripTags(s) ==> c == ' ' || c in s
    ensures s != [] && !TagAt(s, 0) ==> StripTags(s) != [] && StripTags(s)[0] == s[0]
    decreases |s|
  {
    if s != [] {
      if TagAt(s, 0) {
        var k := CloseAt(s[1..]) + 1;
        StripTagsChars(s[k + 1..]);
        Text.SuffixChars(s, s[k + 1..]);
      } else {
        StripTagsChars(s[1..]);
        Text.SuffixChars(s, s[1..]);
      }
    }
  }

  /** No tag survives. */
  lemma {:induction false} StripTagsComplete(s: string)
    ensures NoTags(StripTags(s))
    decreases |s|
  {
    if s != [] {
      var rest := if TagAt(s, 0) then s[CloseAt(s[1..]) + 2..] else s[1..];
      StripTagsComplete(rest);
      var r := StripTags(s);
      var tail := StripTags(rest);
      assert r == [r[0]] + tail;
      forall i | 0 <= i < |r| ensures !TagAt(r, i) {
        if i > 0 {
          assert r[i..] == tail[i - 1..];
          assert !TagAt(tail, i - 1);
        } else if r[0] == '<' {
          assert !TagAt(s, 0) && s[0] == '<';
          if 1 < |s| && s[1] == '>' {
            StripTagsChars(s[1..]);
          } else if 1 < |r| {
            StripTagsChars(s[1..]);
            assert '>' !in s[1..];
            assert '>' !in r[1..] by {
              forall c | c in r[1..] ensures c != '>' {
                assert c in tail;
              }
            }
          }
        }
      }
    }
  }

  lemma StripTagsPlain(s: string)
    requires '<' !in s
    ensures StripTags(s) == s
    decreases |s|
  {
    if s != [] {
      assert s[0] != '<';
      StripTagsPlain(s[1..]);
    }
  }

  /* ---------- description ---------- */

  /** The wording that differs between the API client and the exporter. */
  datatype DescStyle = DescStyle(noName: string, skuLabel: string, footer: string)

  const ApiStyle := DescStyle("Sem descrição", "Código: ",
    "\n\n---\nProduto novo, com nota fiscal.\nBlumenau Automação - Qualidade e confiança.")

  const ExportStyle := DescStyle("Sem nome", "SKU: ",
    "\n\n---\nProduto novo, com nota fiscal.\nEnvio imediato após confirmação do pagamento.")

  /** The marketplace's description limit. */
  const MaxDescription: int := 50000

  /** The description text before cleaning: the product's, or "Produto: <name>" when
      it is falsy (a `null` name prints as "None"). */
  function BaseText(description: Field<string>, p: Product, style: DescStyle): string {
    if Truthy(description) then description.value
    else "Produto: " + Str(GetOr(p.name, Val(style.noName)))
  }

  /** The brand, warranty and SKU lines, in that order, each only when truthy. */
  function Extras(p: Product, style: DescStyle): (lines: seq<string>)
    ensures |lines| <= 3
    ensures lines == [] <==> !Truthy(p.brand) && !Truthy(p.warranty) && !Truthy(p.sku)
    ensures Truthy(p.brand) ==> lines[0] == "Marca: " + p.brand.value
    ensures Truthy(p.warranty) ==> "Garantia: " + p.warranty.value in lines
    ensures Truthy(p.sku) ==> lines[|lines| - 1] == style.skuLabel + p.sku.value
  {
    (if Truthy(p.brand) then ["Marca: " + p.brand.value] else [])
    + (if Truthy(p.warranty) then ["Garantia: " + p.warranty.value] else [])
    + (if Truthy(p.sku) then [style.skuLabel + p.sku.value] else [])
  }

  /** The full description before the cap. */
  function FullDescription(description: Field<string>, p: Product, style: DescStyle): string {
    var body := Text.Normalize(StripTags(BaseText(description, p, style)));
    var lines := Extras(p, style);
    (if lines != [] then body + "\n\n" + Text.Join("\n", lines) else body) + style.footer
  }

  /** `clean_description` (and the same steps inside `prepare_listing`). */
  function ListingDescription(description: Field<string>, p: Product, style: DescStyle): (r: string)
    ensures |r| <= MaxDescription
    ensures r <= FullDescription(description, p, style)
    ensures |FullDescription(description, p, style)| <= MaxDescription ==>
      r == FullDescription(description, p, style) && Text.EndsWith(r, style.footer)
  {
    SliceTo(FullDescription(description, p, style), MaxDescription)
  }

  /** The cleaned body holds no tag remnant's whitespace runs: it is normalized and
      every non-space character comes from the tag-free text. */
  lemma DescriptionBody(description: Field<string>, p: Product, style: DescStyle)
    ensures var body := Text.Normalize(StripTags(BaseText(description, p, style)));
      Text.IsNormalized(body) && Text.CharsFrom(body, StripTags(BaseText(description, p, style)))
    ensures NoTags(StripTags(BaseText(description, p, style)))
    ensures !Truthy(description) ==> BaseText(description, p, style) == "Produto: " + Str(GetOr(p.name, Val(style.noName)))
  {
    Text.NormalizeShape(StripTags(BaseText(description, p, style)));
    StripTagsComplete(BaseText(description, p, style));
  }
}

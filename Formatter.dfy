/** The webpage formatter (integration_example.py): reads the saved run, renders one
    card per product and a detail record keyed by a product id derived from the
    product url.

    A product read back from the file is a JSON object: `None` in an `Entry` field
    is a missing key, `Null` a key present with JSON null. Only the values a card
    embeds are modelled, not the surrounding markup. */
module Formatter {
  import opened Wrappers
  import opened Text
  import Scraper

  const UnknownId := "unknown"
  const DescriptionLimit := 150
  const Ellipsis := "..."
  const UsedLabel := "Usado"

  /** A scalar read from the file: JSON null or a string. */
  datatype Value = Null | Str(s: string)

  datatype ImageEntry = ImageEntry(url: Option<string>)

  /** One product object of the file; `None` is a missing key. */
  datatype Entry = Entry(
    title: Option<string>,
    price: Option<string>,
    url: Option<string>,
    location: Option<Value>,
    description: Option<Value>,
    condition: Option<Value>,
    sellerInfo: Option<Value>,
    images: Option<seq<ImageEntry>>)

  /** The top-level object of the file; `None` is a missing key. */
  datatype RunFile = RunFile(niche: Option<string>, timestamp: Option<string>, products: Option<seq<Entry>>)

  /** `load_marketplace_products`: `None` is a missing file or invalid JSON, for which
      an object holding only an empty product list stands in. */
  function LoadMarketplaceProducts(file: Option<RunFile>): (data: RunFile)
    ensures file.None? ==> data.products == Some([]) && data.niche.None? && data.timestamp.None?
    ensures file.Some? ==> data == file.value
  {
    file.GetOr(RunFile(None, None, Some([])))
  }

  /** `product.get('url', '').split('/')[-1] or 'unknown'`. */
  function ProductId(url: Option<string>): string
  {
    var segment := LastSegment(url.GetOr(""));
    if segment != "" then segment else UnknownId
  }

  /** The id is never empty and has no '/'. A url that is present, not empty and does
      not end in '/' gets its tail after the last '/' (or the whole url when it has
      none); a missing url, an empty one and one ending in '/' all get "unknown". */
  lemma ProductIdShape(url: Option<string>)
    ensures var id := ProductId(url);
      id != "" && '/' !in id &&
      (url.Some? && url.value != "" && !EndsWith(url.value, "/") ==>
        id == LastSegment(url.value) && EndsWith(url.value, id) &&
        (|id| == |url.value| || url.value[|url.value| - |id| - 1] == '/')) &&
      (url.None? || url.value == "" || EndsWith(url.value, "/") ==> id == UnknownId)
  {
    var u := url.GetOr("");
    var seg := LastSegment(u);
    LastSegmentShape(u);
    assert '/' !in UnknownId;
    if u != [] && u[|u| - 1] == '/' {
      assert seg == [];
    }
    if u != [] && u[|u| - 1] != '/' {
      assert seg != [] by { assert seg == LastSegment(u[..|u| - 1]) + [u[|u| - 1]]; }
      assert !EndsWith(u, "/") by { assert u[|u| - 1..] != "/"; }
    }
    if seg != "" {
      assert ProductId(url) == seg;
      assert url.Some? by { assert u != ""; }
    } else {
      assert ProductId(url) == UnknownId;
    }
  }

  /** An url whose last segment is a number gets that number as id; one ending in
      '/' gets "unknown". */
  lemma ProductIdExamples()
    ensures ProductId(Some("https://www.facebook.com/marketplace/item/123")) == "123"
    ensures ProductId(Some("https://www.facebook.com/marketplace/item/123/")) == UnknownId
    ensures ProductId(None) == UnknownId
  {
    LastSegmentOfJoin("https://www.facebook.com/marketplace/item", "123");
    assert "https://www.facebook.com/marketplace/item" + "/" + "123" == "https://www.facebook.com/marketplace/item/123";
  }

  // ---------------------------------------------------------------------------
  // Cards

  datatype Status = Ok | Warn

  /** The values a card embeds: id, title, price, the shortened description, the
      optional location line, the status pill and the link to the listing. */
  datatype Card = Card(
    id: string,
    title: string,
    price: string,
    description: string,
    location: Option<string>,
    status: Status,
    statusText: string,
    link: string)

  /** Python's truth value of a looked-up field: a non-empty string. */
  predicate Truthy(v: Option<Value>)
  {
    v.Some? && v.value.Str? && v.value.s != ""
  }

  /** `description[:150]` followed by "..." exactly when something was cut. */
  function ShortDescription(d: string): (r: string)
    ensures |d| <= DescriptionLimit ==> r == d
    ensures |d| > DescriptionLimit ==> r == d[..DescriptionLimit] + Ellipsis
  {
    Take(d, DescriptionLimit) + if |d| > DescriptionLimit then Ellipsis else ""
  }

  /** A shortened description keeps the first min(|d|, 150) characters of d and is
      never longer than 153. */
  lemma ShortDescriptionBounds(d: string)
    ensures StartsWith(ShortDescription(d), Take(d, DescriptionLimit))
    ensures |ShortDescription(d)| <= DescriptionLimit + |Ellipsis|
    ensures EndsWith(ShortDescription(d), Ellipsis) || ShortDescription(d) == d
  {
  }

  /** A description that is JSON null would make `None[:150]` raise, so the cards are
      only defined for entries without one. */
  predicate UsableDescription(e: Entry)
  {
    e.description != Some(Null)
  }

  predicate Formattable(es: seq<Entry>)
  {
    forall i :: 0 <= i < |es| ==> UsableDescription(es[i])
  }

  function CardDescription(e: Entry): string
    requires UsableDescription(e)
  {
    if e.description.None? then "No description available" else e.description.value.s
  }

  function StatusOf(condition: Option<Value>): Status
  {
    if Truthy(condition) && Contains(Lower(condition.value.s), "new") then Ok else Warn
  }

  /** `generate_product_html`. */
  function GenerateProductHtml(e: Entry): Card
    requires UsableDescription(e)
  {
    Card(ProductId(e.url),
         e.title.GetOr("Product"),
         e.price.GetOr("Price not available"),
         ShortDescription(CardDescription(e)),
         if Truthy(e.location) then Some(e.location.value.s) else None,
         StatusOf(e.condition),
         if Truthy(e.condition) then e.condition.value.s else UsedLabel,
         e.url.GetOr("#"))
  }

  /** What a card shows: the description in full up to 150 characters, otherwise its
      first 150 and "..."; a location line exactly when the location is a non-empty
      string; the ok pill exactly when the condition is a non-empty string whose
      lower-case form contains "new", with the condition as text or "Usado" when it
      is empty or missing. */
  lemma CardRule(e: Entry)
    requires UsableDescription(e)
    ensures var c := GenerateProductHtml(e);
      c.id == ProductId(e.url) &&
      c.title == e.title.GetOr("Product") && c.price == e.price.GetOr("Price not available") &&
      c.link == e.url.GetOr("#") &&
      (|CardDescription(e)| <= DescriptionLimit ==> c.description == CardDescription(e)) &&
      (|CardDescription(e)| > DescriptionLimit ==> c.description == CardDescription(e)[..DescriptionLimit] + Ellipsis) &&
      (c.location.Some? <==> Truthy(e.location)) &&
      (c.location.Some? ==> c.location == Some(e.location.value.s)) &&
      (c.status == Ok <==> Truthy(e.condition) && Contains(Lower(e.condition.value.s), "new")) &&
      c.statusText == (if Truthy(e.condition) then e.condition.value.s else UsedLabel)
  {
  }

  /** Only a condition containing "new" in some capitalisation gets the ok pill: the
      Spanish "Nuevo" does not, and a missing condition shows "Usado". */
  lemma StatusExamples()
    ensures StatusOf(Some(Str("New"))) == Ok
    ensures StatusOf(Some(Str("Used - Like New"))) == Ok
    ensures StatusOf(Some(Str("Nuevo"))) == Warn
    ensures StatusOf(None) == Warn && StatusOf(Some(Null)) == Warn && StatusOf(Some(Str(""))) == Warn
  {
    assert Lower("New") == "new";
    assert StartsWith(Lower("New"), "new");
    var u := Lower("Used - Like New");
    assert u[12..15] == "new";
    ContainsAt(u, "new", 12);
    var n := Lower("Nuevo");
    assert n == "nuevo";
    assert !StartsWith(n, "new") by { assert n[..3][1] != "new"[1]; }
    assert !StartsWith(n[1..], "new") by { assert n[1..][..3][0] != "new"[0]; }
    assert !StartsWith(n[2..], "new") by { assert n[2..][..3][0] != "new"[0]; }
    assert !Contains(n[3..], "new") by {
      if Contains(n[3..], "new") {
        ContainsNeedsLength(n[3..], "new");
      }
    }
  }

  // ---------------------------------------------------------------------------
  // Detail records

  datatype Detail = Detail(
    nombre: string,
    descripcion: string,
    screenshot: Value,
    facturaPdf: Value,
    productUrl: string,
    price: string,
    condition: Value,
    location: Value,
    sellerInfo: Value,
    images: seq<Value>)

  /** How an f-string shows a looked-up value: JSON null reads as "None". */
  function Render(v: Value): string
  {
    match v
    case Null => "None"
    case Str(s) => s
  }

  /** `img.get('url')`. */
  function ImageUrl(img: ImageEntry): Value
  {
    match img.url
    case Some(u) => Str(u)
    case None => Null
  }

  function DetailOf(e: Entry): Detail
  {
    var images := e.images.GetOr([]);
    Detail(
      e.title.GetOr("Product"),
      Render(e.description.GetOr(Str("No description"))) +
        " | Condición: " + Render(e.condition.GetOr(Str("N/A"))) +
        " | Ubicación: " + Render(e.location.GetOr(Str("N/A"))),
      if images != [] then ImageUrl(images[0]) else Null,
      Null,
      e.url.GetOr("#"),
      e.price.GetOr("N/A"),
      e.condition.GetOr(Str("N/A")),
      e.location.GetOr(Str("N/A")),
      e.sellerInfo.GetOr(Str("N/A")),
      seq(|images|, i requires 0 <= i < |images| => ImageUrl(images[i])))
  }

  /** `generate_product_detail_json`: a single-key map from the product id to a record
      whose image list follows the product's images in order, whose screenshot is
      the first of them (null when there are none) and which never has a PDF. */
  function GenerateProductDetailJson(e: Entry): (m: map<string, Detail>)
    ensures m.Keys == {ProductId(e.url)}
    ensures var d := m[ProductId(e.url)];
      d.facturaPdf == Null &&
      d.screenshot == (if |d.images| == 0 then Null else d.images[0]) &&
      |d.images| == |e.images.GetOr([])| &&
      forall i :: 0 <= i < |d.images| ==> d.images[i] == ImageUrl(e.images.GetOr([])[i])
  {
    map[ProductId(e.url) := DetailOf(e)]
  }

  // ---------------------------------------------------------------------------
  // Conversion

  datatype Metadata = Metadata(niche: string, totalProducts: nat, timestamp: string)

  datatype WebOutput = WebOutput(metadata: Metadata, htmlCards: seq<Card>, productDetails: map<string, Detail>)

  /** The cards of the given products, as the loop appends them. */
  function Cards(es: seq<Entry>): seq<Card>
    requires Formattable(es)
    decreases |es|
  {
    if es == [] then []
    else Cards(es[..|es| - 1]) + [GenerateProductHtml(es[|es| - 1])]
  }

  /** The detail map of the given products, as the loop's `update` calls build it. */
  function Details(es: seq<Entry>): map<string, Detail>
    decreases |es|
  {
    if es == [] then map[]
    else Details(es[..|es| - 1]) + GenerateProductDetailJson(es[|es| - 1])
  }

  /** The ids derived from the given products. */
  function Ids(es: seq<Entry>): set<string>
    decreases |es|
  {
    if es == [] then {} else Ids(es[..|es| - 1]) + {ProductId(es[|es| - 1].url)}
  }

  /** Ids are exactly the ids of the products. */
  lemma {:induction false} IdsOfProducts(es: seq<Entry>)
    ensures forall k :: k in Ids(es) <==> exists i :: 0 <= i < |es| && ProductId(es[i].url) == k
    decreases |es|
  {
    if es != [] {
      var n := |es|;
      var init := es[..n - 1];
      IdsOfProducts(init);
      forall k ensures k in Ids(es) <==> exists i :: 0 <= i < n && ProductId(es[i].url) == k {
        if k in Ids(init) {
          var i :| 0 <= i < n - 1 && ProductId(init[i].url) == k;
          assert es[i] == init[i];
        }
        if exists i :: 0 <= i < n && ProductId(es[i].url) == k {
          var i :| 0 <= i < n && ProductId(es[i].url) == k;
          if i < n - 1 { assert init[i] == es[i]; }
        }
      }
    }
  }

  /** There is one card per product, in product order. */
  lemma {:induction false} CardsFollowProducts(es: seq<Entry>)
    requires Formattable(es)
    ensures |Cards(es)| == |es|
    ensures forall i :: 0 <= i < |es| ==> Cards(es)[i] == GenerateProductHtml(es[i])
    decreases |es|
  {
    if es != [] {
      var init := es[..|es| - 1];
      assert Formattable(init) by {
        forall i | 0 <= i < |init| ensures UsableDescription(init[i]) { assert init[i] == es[i]; }
      }
      CardsFollowProducts(init);
      forall i | 0 <= i < |es| - 1 ensures Cards(es)[i] == GenerateProductHtml(es[i]) {
        assert init[i] == es[i];
      }
    }
  }

  /** Merging a product's detail map stores its record under its id. */
  lemma DetailUpdate(m: map<string, Detail>, e: Entry)
    ensures m + GenerateProductDetailJson(e) == m[ProductId(e.url) := DetailOf(e)]
  {
    var k, v := ProductId(e.url), DetailOf(e);
    assert GenerateProductDetailJson(e) == map[k := v];
    assert m + map[k := v] == m[k := v];
  }

  /** One step of the detail loop. */
  lemma DetailsStep(es: seq<Entry>)
    requires es != []
    ensures Details(es) == Details(es[..|es| - 1])[ProductId(es[|es| - 1].url) := DetailOf(es[|es| - 1])]
  {
    DetailUpdate(Details(es[..|es| - 1]), es[|es| - 1]);
  }

  /** The detail map has exactly the derived ids as keys: one entry per distinct id. */
  lemma {:induction false} DetailsKeys(es: seq<Entry>)
    ensures Details(es).Keys == Ids(es)
    decreases |es|
  {
    if es != [] {
      DetailsKeys(es[..|es| - 1]);
      DetailsStep(es);
    }
  }

  /** An id maps to the record of the last product that has it: a later product with
      the same id overwrites an earlier one. */
  lemma {:induction false} DetailsLastWriterWins(es: seq<Entry>, i: nat)
    requires i < |es|
    requires forall j :: i < j < |es| ==> ProductId(es[j].url) != ProductId(es[i].url)
    ensures ProductId(es[i].url) in Details(es)
    ensures Details(es)[ProductId(es[i].url)] == DetailOf(es[i])
    decreases |es|
  {
    var n := |es|;
    var init := es[..n - 1];
    var k, last := ProductId(es[i].url), ProductId(es[n - 1].url);
    DetailsStep(es);
    if i < n - 1 {
      assert init[i] == es[i];
      forall j | i < j < n - 1 ensures ProductId(init[j].url) != ProductId(init[i].url) {
        assert init[j] == es[j];
      }
      DetailsLastWriterWins(init, i);
      assert k != last;
      assert Details(es)[k] == Details(init)[k];
    } else {
      assert es[i] == es[n - 1];
    }
  }

  /** The output `convert_to_webpage_format` builds, or `None` when there are no
      products and nothing is written. */
  function Converted(file: Option<RunFile>): Option<WebOutput>
    requires Formattable(LoadMarketplaceProducts(file).products.GetOr([]))
  {
    var data := LoadMarketplaceProducts(file);
    var es := data.products.GetOr([]);
    if es == [] then None
    else Some(WebOutput(Metadata(data.niche.GetOr("unknown"), |es|, data.timestamp.GetOr("")), Cards(es), Details(es)))
  }

  /** `convert_to_webpage_format`: returns without output when the loaded product list
      is empty; otherwise one card per product, the detail map and the metadata
      (niche defaulting to "unknown", timestamp to "", the product count). */
  method ConvertToWebpageFormat(file: Option<RunFile>) returns (out: Option<WebOutput>)
    requires Formattable(LoadMarketplaceProducts(file).products.GetOr([]))
    ensures out == Converted(file)
    ensures out.None? <==> LoadMarketplaceProducts(file).products.GetOr([]) == []
    ensures out.Some? ==>
      |out.value.htmlCards| == out.value.metadata.totalProducts == |LoadMarketplaceProducts(file).products.GetOr([])| &&
      out.value.productDetails.Keys == Ids(LoadMarketplaceProducts(file).products.GetOr([]))
  {
    var data := LoadMarketplaceProducts(file);
    var products := data.products.GetOr([]);
    if products == [] {
      return None;
    }
    var htmlCards: seq<Card> := [];
    var productDetails: map<string, Detail> := map[];
    for i := 0 to |products|
      invariant Formattable(products[..i])
      invariant htmlCards == Cards(products[..i])
      invariant productDetails == Details(products[..i])
    {
      assert products[..i + 1][..i] == products[..i];
      htmlCards := htmlCards + [GenerateProductHtml(products[i])];
      productDetails := productDetails + GenerateProductDetailJson(products[i]);
    }
    assert products[..|products|] == products;
    CardsFollowProducts(products);
    DetailsKeys(products);
    out := Some(WebOutput(Metadata(data.niche.GetOr("unknown"), |products|, data.timestamp.GetOr("")),
                          htmlCards, productDetails));
  }

  // ---------------------------------------------------------------------------
  // From the collection run to the formatter

  function NullOr(s: Option<string>): Value
  {
    match s
    case Some(x) => Str(x)
    case None => Null
  }

  /** A saved product as read back: every key present, `None` fields as null. */
  function EntryOf(p: Scraper.Product): Entry
  {
    Entry(Some(p.title), Some(p.price), Some(p.url),
          Some(NullOr(p.location)), Some(NullOr(p.description)), Some(NullOr(p.condition)),
          Some(NullOr(p.sellerInfo)),
          Some(seq(|p.images|, i requires 0 <= i < |p.images| => ImageEntry(Some(p.images[i].url)))))
  }

  /** The saved run as read back by the loader. */
  function SavedFile(r: Scraper.RunResult): RunFile
  {
    RunFile(Some(r.niche), Some(r.timestamp),
            Some(seq(|r.products|, i requires 0 <= i < |r.products| => EntryOf(r.products[i]))))
  }

  /** Saving a run and loading it back gives total_products products in their saved
      order; when they can be formatted, the metadata repeats niche, count and
      timestamp and there is one card per product. */
  lemma SaveThenConvert(r: Scraper.RunResult)
    requires r.totalProducts == |r.products|
    ensures var es := LoadMarketplaceProducts(Some(SavedFile(r))).products.GetOr([]);
      |es| == r.totalProducts && forall i :: 0 <= i < |es| ==> es[i] == EntryOf(r.products[i])
    ensures (forall i :: 0 <= i < |r.products| ==> r.products[i].description.Some?) && r.products != [] ==>
      Formattable(SavedFile(r).products.value) &&
      var out := Converted(Some(SavedFile(r)));
      out.Some? && out.value.metadata == Metadata(r.niche, r.totalProducts, r.timestamp) &&
      |out.value.htmlCards| == r.totalProducts &&
      forall i :: 0 <= i < r.totalProducts ==> out.value.htmlCards[i].id == ProductId(Some(r.products[i].url))
  {
    var es := SavedFile(r).products.value;
    if (forall i :: 0 <= i < |r.products| ==> r.products[i].description.Some?) && r.products != [] {
      assert Formattable(es) by {
        forall i | 0 <= i < |es| ensures UsableDescription(es[i]) {
          assert es[i] == EntryOf(r.products[i]);
        }
      }
      CardsFollowProducts(es);
    }
  }

  /** A fallback product has no description, which is saved as null: such a product
      cannot be formatted. */
  lemma FallbackNotFormattable(basic: Scraper.BasicInfo)
    ensures !UsableDescription(EntryOf(Scraper.CreateFallbackProduct(basic)))
  {
  }

  /** A 200-character description is cut to its first 150 characters and "...". */
  lemma LongDescriptionCut()
    ensures ShortDescription(seq(200, _ => 'A')) == seq(150, _ => 'A') + Ellipsis
  {
    assert seq(200, _ => 'A')[..150] == seq(150, _ => 'A');
  }

  /** One product with a 200-character description and one image: a single card
      showing the first 150 characters and "...", and a detail map whose only key
      is "123" with that image as screenshot. */
  lemma EndToEndScenario()
    ensures var e := Entry(Some("Zapatillas Nike"), Some("S/ 120"), Some("https://www.facebook.com/marketplace/item/123"),
                           None, Some(Str(seq(200, _ => 'A'))), None, None,
                           Some([ImageEntry(Some("http://fbcdn/x.jpg"))]));
      var out := Converted(Some(RunFile(Some("zapatillas"), Some("2024-01-01 00:00:00"), Some([e]))));
      out.Some? && |out.value.htmlCards| == 1 &&
      out.value.htmlCards[0].description == seq(150, _ => 'A') + Ellipsis &&
      out.value.productDetails.Keys == {"123"} &&
      out.value.productDetails["123"].screenshot == Str("http://fbcdn/x.jpg")
  {
    var e := Entry(Some("Zapatillas Nike"), Some("S/ 120"), Some("https://www.facebook.com/marketplace/item/123"),
                   None, Some(Str(seq(200, _ => 'A'))), None, None,
                   Some([ImageEntry(Some("http://fbcdn/x.jpg"))]));
    assert ProductId(e.url) == "123" by { ProductIdExamples(); }
    assert Cards([e]) == [GenerateProductHtml(e)] by { assert [e][..0] == []; }
    assert GenerateProductHtml(e).description == seq(150, _ => 'A') + Ellipsis by { LongDescriptionCut(); }
    assert Details([e]) == map["123" := DetailOf(e)] by { DetailsStep([e]); assert [e][..0] == []; }
  }
}

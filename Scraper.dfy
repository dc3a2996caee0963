/** The deterministic core of the collection pipeline (marketplace_scraper.py):
    link discovery over the anchors of a search page, image and markup capture of
    one product page, the merge of the language model's answer with the locally
    captured record, the per-run accumulation of products and the saved record.

    The browser is represented by what it hands back (anchor hrefs, a rendered page
    with its image attributes), and the language model together with its output
    parser by an oracle from the markup snippet to an optional Product, `None`
    standing for a failed request or an unparsable answer. */
module Scraper {
  import opened Wrappers
  import opened Text

  const DefaultNiche := "zapatillas"
  const DefaultMaxProducts := 10
  /** Only anchors whose href contains this are product links. */
  const ItemPattern := "/marketplace/item/"
  /** Prefixed to hrefs that do not start with "http". */
  const SiteOrigin := "https://www.facebook.com"
  /** How many img elements of a product page are examined. */
  const MaxImages := 5
  /** How much markup the basic record keeps. */
  const StoredMarkupLimit := 5000
  /** How much markup is sent to the language model. */
  const SnippetLimit := 8000
  const FallbackTitle := "Product information extracted"
  const FallbackPrice := "See listing"

  datatype ProductImage = ProductImage(url: string, altText: Option<string>)

  /** The structured product record; `None` is Python's `None` in an optional field. */
  datatype Product = Product(
    title: string,
    price: string,
    location: Option<string>,
    description: Option<string>,
    condition: Option<string>,
    images: seq<ProductImage>,
    url: string,
    sellerInfo: Option<string>,
    htmlContent: Option<string>)

  /** The record captured without the language model. Every capture builds it with
      all three keys, so the `get` defaults of the source never apply to it. */
  datatype BasicInfo = BasicInfo(url: string, images: seq<ProductImage>, htmlContent: string)

  /** The object written to the output file by `save_to_json`. */
  datatype RunResult = RunResult(niche: string, totalProducts: nat, timestamp: string, products: seq<Product>)

  // ---------------------------------------------------------------------------
  // Link discovery

  /** Relative hrefs are made absolute; hrefs starting with "http" are kept. */
  function Absolute(href: string): string
  {
    if StartsWith(href, "http") then href else SiteOrigin + href
  }

  predicate IsItemHref(href: string)
  {
    href != "" && Contains(href, ItemPattern)
  }

  /** The URL one anchor contributes, if any. `None` is an anchor without an href
      or one whose attribute could not be read: both are skipped. */
  function Candidate(href: Option<string>): Option<string>
  {
    match href
    case Some(h) => if IsItemHref(h) then Some(Absolute(h)) else None
    case None => None
  }

  function AddIfNew(links: seq<string>, c: Option<string>): seq<string>
  {
    match c
    case Some(u) => if u in links then links else links + [u]
    case None => links
  }

  /** The links collected from the given anchors, in the order the loop appends them. */
  function Discovered(anchors: seq<Option<string>>): seq<string>
    decreases |anchors|
  {
    if anchors == [] then []
    else AddIfNew(Discovered(anchors[..|anchors| - 1]), Candidate(anchors[|anchors| - 1]))
  }

  predicate NoDuplicates(s: seq<string>)
  {
    forall i, j :: 0 <= i < j < |s| ==> s[i] != s[j]
  }

  /** Some anchor contributes u. */
  predicate Nominated(anchors: seq<Option<string>>, u: string)
  {
    exists i :: 0 <= i < |anchors| && Candidate(anchors[i]) == Some(u)
  }

  /** The discovered links are duplicate-free, no more than the anchors, and are
      exactly the URLs some anchor contributes. */
  lemma {:induction false} DiscoveredShape(anchors: seq<Option<string>>)
    ensures |Discovered(anchors)| <= |anchors|
    ensures NoDuplicates(Discovered(anchors))
    ensures forall u :: u in Discovered(anchors) <==> Nominated(anchors, u)
    decreases |anchors|
  {
    if anchors != [] {
      var n := |anchors|;
      var init := anchors[..n - 1];
      DiscoveredShape(init);
      forall u
        ensures Nominated(anchors, u) <==> Nominated(init, u) || Candidate(anchors[n - 1]) == Some(u)
      {
        if Nominated(init, u) {
          var i :| 0 <= i < |init| && Candidate(init[i]) == Some(u);
          assert anchors[i] == init[i];
        }
        if Nominated(anchors, u) {
          var i :| 0 <= i < n && Candidate(anchors[i]) == Some(u);
          if i < n - 1 {
            assert init[i] == anchors[i];
          }
        }
      }
    }
  }

  /** The links contributed by the first k anchors are a prefix of the result: the
      result lists each link at the place of its first occurrence. */
  lemma {:induction false} DiscoveredGrows(anchors: seq<Option<string>>, k: nat)
    requires k <= |anchors|
    ensures Discovered(anchors[..k]) <= Discovered(anchors)
    decreases |anchors|
  {
    if k < |anchors| {
      var init := anchors[..|anchors| - 1];
      assert init[..k] == anchors[..k];
      DiscoveredGrows(init, k);
    } else {
      assert anchors[..k] == anchors;
    }
  }

  /** Every discovered link contains the item pattern and is an examined href itself
      (when it starts with "http") or the site origin followed by that href. */
  lemma DiscoveredAreItemUrls(anchors: seq<Option<string>>)
    ensures forall u :: u in Discovered(anchors) ==>
      Contains(u, ItemPattern) &&
      exists i :: 0 <= i < |anchors| && anchors[i].Some? && IsItemHref(anchors[i].value) &&
        u == (if StartsWith(anchors[i].value, "http") then anchors[i].value else SiteOrigin + anchors[i].value)
  {
    DiscoveredShape(anchors);
    forall u | u in Discovered(anchors)
      ensures Contains(u, ItemPattern)
    {
      var i :| 0 <= i < |anchors| && Candidate(anchors[i]) == Some(u);
      var h := anchors[i].value;
      if !StartsWith(h, "http") {
        ContainsAfterPrefix(SiteOrigin, h, ItemPattern);
      }
    }
  }

  /** The cap is applied to the anchors before duplicates are dropped, so a repeated
      anchor uses up a slot: with a cap of 2 and anchors a, a, b only one link is
      returned although two distinct ones exist. */
  lemma CapAppliesBeforeDedup()
    ensures var a, b := Some("/marketplace/item/1"), Some("/marketplace/item/2");
      |Discovered([a, a, b])| == 2 &&
      Discovered(Take([a, a, b], 2)) == [SiteOrigin + "/marketplace/item/1"]
  {
    var a, b := Some("/marketplace/item/1"), Some("/marketplace/item/2");
    var ua, ub := SiteOrigin + a.value, SiteOrigin + b.value;
    assert StartsWith(a.value, ItemPattern) && StartsWith(b.value, ItemPattern);
    assert !StartsWith(a.value, "http") by { assert a.value[..4][0] != "http"[0]; }
    assert !StartsWith(b.value, "http") by { assert b.value[..4][0] != "http"[0]; }
    assert Candidate(a) == Some(ua) && Candidate(b) == Some(ub);
    assert ua != ub by { assert ua[|SiteOrigin| + 18] != ub[|SiteOrigin| + 18]; }
    assert [a, a, b][..2] == [a, a] && [a, a][..1] == [a] && [a][..0] == [];
    assert Discovered([a]) == [ua];
    assert Discovered([a, a]) == [ua];
    assert Discovered([a, a, b]) == [ua, ub];
  }

  /** `extract_product_links`: examines the first maxProducts anchors, keeps item
      links, makes them absolute and drops repeats; the final cap never cuts. */
  method ExtractProductLinks(anchors: seq<Option<string>>, maxProducts: nat) returns (links: seq<string>)
    ensures links == Discovered(Take(anchors, maxProducts))
    ensures |links| <= maxProducts
  {
    var examined := Take(anchors, maxProducts);
    links := [];
    var i := 0;
    while i < |examined|
      invariant 0 <= i <= |examined|
      invariant links == Discovered(examined[..i])
    {
      assert examined[..i + 1][..i] == examined[..i];
      match examined[i] {
        case Some(href) =>
          if IsItemHref(href) {
            var fullUrl := Absolute(href);
            if fullUrl !in links {
              links := links + [fullUrl];
            }
          }
        case None =>
      }
      i := i + 1;
    }
    assert examined[..i] == examined;
    DiscoveredShape(examined);
    links := Take(links, maxProducts);
  }

  // ---------------------------------------------------------------------------
  // Page capture

  /** The src and alt attributes of one img element; a src of `None` also stands
      for an element whose attributes could not be read (it is skipped). */
  datatype ImgAttrs = ImgAttrs(src: Option<string>, alt: Option<string>)

  /** What loading a product page yields: nothing (navigation or wait failed) or the
      rendered markup and the img elements, `None` when listing them failed. */
  datatype PageVisit = Unreachable | Rendered(markup: string, imgs: Option<seq<ImgAttrs>>)

  /** A successful capture: the full markup and the basic record. */
  datatype Capture = Capture(markup: string, basic: BasicInfo)

  predicate IsCdnSource(src: string)
  {
    src != "" && (Contains(src, "scontent") || Contains(src, "fbcdn"))
  }

  /** The image one element contributes: CDN sources only, a missing alt read as "". */
  function ImageOf(img: ImgAttrs): Option<ProductImage>
  {
    match img.src
    case Some(s) => if IsCdnSource(s) then Some(ProductImage(s, Some(img.alt.GetOr("")))) else None
    case None => None
  }

  function KeptImages(imgs: seq<ImgAttrs>): seq<ProductImage>
    decreases |imgs|
  {
    if imgs == [] then []
    else
      KeptImages(imgs[..|imgs| - 1]) +
      match ImageOf(imgs[|imgs| - 1])
      case Some(p) => [p]
      case None => []
  }

  /** The images of a page: those kept among its first MaxImages elements. */
  function ImagesFound(imgs: Option<seq<ImgAttrs>>): seq<ProductImage>
  {
    match imgs
    case None => []
    case Some(l) => KeptImages(Take(l, MaxImages))
  }

  /** Kept images are no more than the elements and are exactly the images some
      element contributes. */
  lemma {:induction false} KeptImagesShape(imgs: seq<ImgAttrs>)
    ensures |KeptImages(imgs)| <= |imgs|
    ensures forall p :: p in KeptImages(imgs) <==> exists i :: 0 <= i < |imgs| && ImageOf(imgs[i]) == Some(p)
    decreases |imgs|
  {
    if imgs != [] {
      var n := |imgs|;
      var init := imgs[..n - 1];
      KeptImagesShape(init);
      forall p
        ensures (exists i :: 0 <= i < n && ImageOf(imgs[i]) == Some(p)) <==>
                ((exists i :: 0 <= i < |init| && ImageOf(init[i]) == Some(p)) || ImageOf(imgs[n - 1]) == Some(p))
      {
        if exists i :: 0 <= i < |init| && ImageOf(init[i]) == Some(p) {
          var i :| 0 <= i < |init| && ImageOf(init[i]) == Some(p);
          assert imgs[i] == init[i];
        }
        if exists i :: 0 <= i < n && ImageOf(imgs[i]) == Some(p) {
          var i :| 0 <= i < n && ImageOf(imgs[i]) == Some(p);
          if i < n - 1 {
            assert init[i] == imgs[i];
          }
        }
      }
    }
  }

  /** The images kept from the first k elements come first, in element order. */
  lemma {:induction false} KeptImagesGrow(imgs: seq<ImgAttrs>, k: nat)
    requires k <= |imgs|
    ensures KeptImages(imgs[..k]) <= KeptImages(imgs)
    decreases |imgs|
  {
    if k < |imgs| {
      var init := imgs[..|imgs| - 1];
      assert init[..k] == imgs[..k];
      KeptImagesGrow(init, k);
    } else {
      assert imgs[..k] == imgs;
    }
  }

  /** At most MaxImages images are captured; each has a non-empty CDN url and the
      element's alt text ("" when missing), and every qualifying element among the
      first MaxImages is captured. */
  lemma ImagesFoundRule(imgs: seq<ImgAttrs>)
    ensures |ImagesFound(Some(imgs))| <= MaxImages
    ensures forall p :: p in ImagesFound(Some(imgs)) ==>
      IsCdnSource(p.url) &&
      exists i :: 0 <= i < |imgs| && i < MaxImages && imgs[i].src == Some(p.url) &&
        p.altText == Some(if imgs[i].alt.Some? then imgs[i].alt.value else "")
    ensures forall i :: 0 <= i < |imgs| && i < MaxImages && imgs[i].src.Some? && IsCdnSource(imgs[i].src.value) ==>
      ProductImage(imgs[i].src.value, Some(imgs[i].alt.GetOr(""))) in ImagesFound(Some(imgs))
  {
    var first := Take(imgs, MaxImages);
    KeptImagesShape(first);
    forall p | p in ImagesFound(Some(imgs))
      ensures exists i :: (0 <= i < |imgs| && i < MaxImages && imgs[i].src == Some(p.url) &&
        p.altText == Some(if imgs[i].alt.Some? then imgs[i].alt.value else ""))
    {
      var i :| 0 <= i < |first| && ImageOf(first[i]) == Some(p);
      assert first[i] == imgs[i];
    }
    forall i | 0 <= i < |imgs| && i < MaxImages && imgs[i].src.Some? && IsCdnSource(imgs[i].src.value)
      ensures ProductImage(imgs[i].src.value, Some(imgs[i].alt.GetOr(""))) in ImagesFound(Some(imgs))
    {
      assert first[i] == imgs[i];
    }
  }

  /** The image loop of `scrape_product_page`. */
  method CaptureImages(imgs: Option<seq<ImgAttrs>>) returns (images: seq<ProductImage>)
    ensures images == ImagesFound(imgs)
  {
    images := [];
    if imgs.Some? {
      var elements := Take(imgs.value, MaxImages);
      var i := 0;
      while i < |elements|
        invariant 0 <= i <= |elements|
        invariant images == KeptImages(elements[..i])
      {
        assert elements[..i + 1][..i] == elements[..i];
        var src := elements[i].src;
        var alt := elements[i].alt.GetOr("");
        if src.Some? && IsCdnSource(src.value) {
          images := images + [ProductImage(src.value, Some(alt))];
        }
        i := i + 1;
      }
      assert elements[..i] == elements;
    }
  }

  /** The capture a page visit yields. */
  function Captured(url: string, visit: PageVisit): Option<Capture>
  {
    match visit
    case Unreachable => None
    case Rendered(m, imgs) => Some(Capture(m, BasicInfo(url, ImagesFound(imgs), Take(m, StoredMarkupLimit))))
  }

  /** `scrape_product_page`: a failed visit yields nothing; otherwise the full markup
      and a basic record with the url, the images and the first StoredMarkupLimit
      characters of the markup. */
  method ScrapeProductPage(url: string, visit: PageVisit) returns (r: Option<Capture>)
    ensures r == Captured(url, visit)
    ensures r.None? <==> visit.Unreachable?
    ensures r.Some? ==> r.value.markup == visit.markup && r.value.basic.url == url
    ensures r.Some? ==> |r.value.basic.htmlContent| == Min(|visit.markup|, StoredMarkupLimit)
    ensures r.Some? ==> StartsWith(visit.markup, r.value.basic.htmlContent)
  {
    match visit {
      case Unreachable =>
        r := None;
      case Rendered(markup, imgs) =>
        var images := CaptureImages(imgs);
        r := Some(Capture(markup, BasicInfo(url, images, Take(markup, StoredMarkupLimit))));
    }
  }

  // ---------------------------------------------------------------------------
  // Extraction with the language model

  /** The markup sent to the model: its first SnippetLimit characters ("" for ""). */
  function Snippet(markup: string): (r: string)
    ensures |r| == Min(|markup|, SnippetLimit)
    ensures StartsWith(markup, r)
  {
    if markup != "" then Take(markup, SnippetLimit) else ""
  }

  /** `create_fallback_product`. */
  function CreateFallbackProduct(basic: BasicInfo): Product
  {
    Product(FallbackTitle, FallbackPrice, None, None, None, basic.images, basic.url, None, Some(basic.htmlContent))
  }

  /** An optional string Python treats as false: `None` or "". */
  predicate Blank(s: Option<string>)
  {
    s == None || s == Some("")
  }

  /** The model's product with images, url and markup taken from the basic record
      wherever the model left them empty. */
  function Backfilled(p: Product, basic: BasicInfo): Product
  {
    p.(images := if p.images == [] then basic.images else p.images,
       url := if p.url == "" then basic.url else p.url,
       htmlContent := if Blank(p.htmlContent) then Some(basic.htmlContent) else p.htmlContent)
  }

  /** The product `analyze_with_ai` returns for a given answer of the model. */
  function Analyzed(basic: BasicInfo, reply: Option<Product>): Product
  {
    match reply
    case Some(p) => Backfilled(p, basic)
    case None => CreateFallbackProduct(basic)
  }

  /** The fallback product: placeholder title and price, url, images and markup of
      the basic record, every other field absent. */
  lemma FallbackFromBasic(basic: BasicInfo)
    ensures var p := CreateFallbackProduct(basic);
      p.title == FallbackTitle && p.price == FallbackPrice &&
      p.url == basic.url && p.images == basic.images && p.htmlContent == Some(basic.htmlContent) &&
      p.location == None && p.description == None && p.condition == None && p.sellerInfo == None
  {
  }

  /** The fallback is what the backfill makes of an answer that carries only the
      placeholders, so it is a fixed point of the backfill. */
  lemma FallbackIsBackfilledPlaceholder(basic: BasicInfo)
    ensures CreateFallbackProduct(basic) ==
      Backfilled(Product(FallbackTitle, FallbackPrice, None, None, None, [], "", None, None), basic)
    ensures Backfilled(CreateFallbackProduct(basic), basic) == CreateFallbackProduct(basic)
  {
  }

  /** Whatever the model supplied survives the backfill: non-empty images, url and
      markup, and every other field, are unchanged. */
  lemma BackfillKeepsModelValues(p: Product, basic: BasicInfo)
    ensures var r := Backfilled(p, basic);
      r.title == p.title && r.price == p.price && r.location == p.location &&
      r.description == p.description && r.condition == p.condition && r.sellerInfo == p.sellerInfo &&
      (p.images != [] ==> r.images == p.images) &&
      (p.url != "" ==> r.url == p.url) &&
      (!Blank(p.htmlContent) ==> r.htmlContent == p.htmlContent)
  {
  }

  /** Exactly the omitted fields are taken from the basic record. */
  lemma BackfillFillsOmitted(p: Product, basic: BasicInfo)
    ensures var r := Backfilled(p, basic);
      (p.images == [] ==> r.images == basic.images) &&
      (p.url == "" ==> r.url == basic.url) &&
      (Blank(p.htmlContent) ==> r.htmlContent == Some(basic.htmlContent))
  {
  }

  /** Backfilling twice changes nothing more. */
  lemma BackfillIdempotent(p: Product, basic: BasicInfo)
    ensures Backfilled(Backfilled(p, basic), basic) == Backfilled(p, basic)
  {
  }

  /** `analyze_with_ai`: sends the snippet to the model; a failed request or parse
      gives the fallback product, an answer is backfilled field by field. */
  method AnalyzeWithAi(markup: string, basic: BasicInfo, llm: string -> Option<Product>) returns (product: Product)
    ensures product == Analyzed(basic, llm(Snippet(markup)))
  {
    var snippet := Snippet(markup);
    var reply := llm(snippet);
    match reply {
      case None =>
        product := CreateFallbackProduct(basic);
      case Some(answer) =>
        product := answer;
        if product.images == [] && basic.images != [] {
          product := product.(images := basic.images);
        }
        if product.url == "" {
          product := product.(url := basic.url);
        }
        if Blank(product.htmlContent) {
          product := product.(htmlContent := Some(basic.htmlContent));
        }
    }
  }

  // ---------------------------------------------------------------------------
  // Orchestration

  /** A capture the loop goes on with: `html_content and basic_info` is true, so the
      markup must be non-empty. */
  predicate Usable(c: Option<Capture>)
  {
    c.Some? && c.value.markup != ""
  }

  /** The product one link yields, given how its page loads and how the model answers
      for it. */
  function ProductFor(url: string, visit: string -> PageVisit, model: string -> string -> Option<Product>): Option<Product>
  {
    var c := Captured(url, visit(url));
    if Usable(c) then Some(Analyzed(c.value.basic, model(url)(Snippet(c.value.markup)))) else None
  }

  /** The products a run appends for the given links, in link order. */
  function Collected(links: seq<string>, visit: string -> PageVisit, model: string -> string -> Option<Product>): seq<Product>
    decreases |links|
  {
    if links == [] then []
    else
      Collected(links[..|links| - 1], visit, model) +
      match ProductFor(links[|links| - 1], visit, model)
      case Some(p) => [p]
      case None => []
  }

  /** The links whose capture is usable, in link order. */
  function Succeeded(links: seq<string>, visit: string -> PageVisit): seq<string>
    decreases |links|
  {
    if links == [] then []
    else
      Succeeded(links[..|links| - 1], visit) +
      if Usable(Captured(links[|links| - 1], visit(links[|links| - 1]))) then [links[|links| - 1]] else []
  }

  /** A run appends one product per successfully captured link, in link order: the
      k-th product is what the k-th such link yields. */
  lemma {:induction false} CollectedFollowsLinks(links: seq<string>, visit: string -> PageVisit, model: string -> string -> Option<Product>)
    ensures |Collected(links, visit, model)| == |Succeeded(links, visit)| <= |links|
    ensures forall k :: 0 <= k < |Succeeded(links, visit)| ==>
      ProductFor(Succeeded(links, visit)[k], visit, model) == Some(Collected(links, visit, model)[k])
    ensures forall u :: u in Succeeded(links, visit) <==> u in links && Usable(Captured(u, visit(u)))
    decreases |links|
  {
    if links != [] {
      var init := links[..|links| - 1];
      CollectedFollowsLinks(init, visit, model);
      assert links == init + [links[|links| - 1]];
    }
  }

  /** The links with a usable capture among the first k links come first: products
      are appended in link order. */
  lemma {:induction false} SucceededGrows(links: seq<string>, visit: string -> PageVisit, k: nat)
    requires k <= |links|
    ensures Succeeded(links[..k], visit) <= Succeeded(links, visit)
    decreases |links|
  {
    if k < |links| {
      var init := links[..|links| - 1];
      assert init[..k] == links[..k];
      SucceededGrows(init, visit, k);
    } else {
      assert links[..k] == links;
    }
  }

  /** The products of the first k links are a prefix of the products of all links. */
  lemma {:induction false} CollectedGrows(links: seq<string>, visit: string -> PageVisit,
                                          model: string -> string -> Option<Product>, k: nat)
    requires k <= |links|
    ensures Collected(links[..k], visit, model) <= Collected(links, visit, model)
    decreases |links|
  {
    if k < |links| {
      var init := links[..|links| - 1];
      assert init[..k] == links[..k];
      CollectedGrows(init, visit, model, k);
    } else {
      assert links[..k] == links;
    }
  }

  /** The scraper object; `products` accumulates over every run of the object. */
  class MarketplaceScraper {
    const email: string
    const password: string
    const niche: string
    var products: seq<Product>

    constructor (email: string, password: string, niche: string, apiKey: string)
      requires apiKey != ""
      ensures this.email == email && this.password == password && this.niche == niche
      ensures products == []
    {
      this.email := email;
      this.password := password;
      this.niche := niche;
      products := [];
    }

    /** `scrape_marketplace`: when login and navigation succeed, appends the products
        of the discovered links; a failed login or navigation ends the run with the
        products unchanged. The list is never reset. */
    method ScrapeMarketplace(maxProducts: nat, loginOk: bool, navigationOk: bool,
                             anchors: seq<Option<string>>, visit: string -> PageVisit,
                             model: string -> string -> Option<Product>)
      returns (result: seq<Product>)
      modifies this
      ensures products == old(products) +
        if loginOk && navigationOk then Collected(Discovered(Take(anchors, maxProducts)), visit, model) else []
      ensures |old(products)| <= |products| <= |old(products)| + maxProducts
      ensures result == products
    {
      if loginOk && navigationOk {
        var links := ExtractProductLinks(anchors, maxProducts);
        var i := 0;
        while i < |links|
          invariant 0 <= i <= |links|
          invariant products == old(products) + Collected(links[..i], visit, model)
        {
          assert links[..i + 1][..i] == links[..i];
          var url := links[i];
          var capture := ScrapeProductPage(url, visit(url));
          if Usable(capture) {
            var product := AnalyzeWithAi(capture.value.markup, capture.value.basic, model(url));
            products := products + [product];
          }
          i := i + 1;
        }
        assert links[..i] == links;
        CollectedFollowsLinks(links, visit, model);
      }
      result := products;
    }

    /** The record `save_to_json` writes: the niche, the products and their count. */
    function SaveRecord(timestamp: string): (r: RunResult)
      reads this
      ensures r.products == products && r.totalProducts == |r.products|
      ensures r.niche == niche && r.timestamp == timestamp
    {
      RunResult(niche, |products|, timestamp, products)
    }
  }
}

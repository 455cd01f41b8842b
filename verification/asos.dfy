/** The ASOS scraper (scraper_asos.py): scroll the listing page until the
    number of product links stops growing, then turn the product containers
    the page script collected into products. The browser is an oracle: the
    link counts seen after each scroll and the container records are
    inputs. */
module Asos {
  import opened Text
  import opened Catalog
  import Scroll

  const Origin: string := "https://www.asos.com"

  /** Consecutive scrolls without a new product link after which the page is
      taken to be fully loaded. */
  const Patience: nat := 8

  const MaxScrolls: nat := 200

  /** One record built by the page script: the link's `href`, the image
      source (`src`, else `data-src`, possibly null) and its `alt` text. */
  datatype Container = Container(href: Option<string>, imgSrc: Option<string>, imgAlt: Option<string>)

  /** What the post-processing loop does with one container. */
  datatype Outcome = Emit(product: Product) | NoLink | NoImage | Placeholder

  /** The body of the post-processing loop. */
  function Classify(c: Container): Outcome {
    var name := FirstTruthy([c.imgAlt], UnnamedProduct);
    if !Truthy(c.href) then NoLink
    else
      var link := AbsoluteLink(c.href.value, Origin);
      var imgUrl := if c.imgSrc.Some? then HttpsImage(c.imgSrc.value) else "";
      if imgUrl == "" then NoImage
      else if StartsWith(imgUrl, "data:") then Placeholder
      else Emit(Product(CleanName(name), link, imgUrl, None))
  }

  function Extract(c: Container): Option<Product> {
    match Classify(c)
    case Emit(p) => Some(p)
    case _ => None
  }

  predicate Skipped(c: Container) {
    !Classify(c).Emit?
  }

  predicate SkippedNoUrl(c: Container) {
    Classify(c).NoImage?
  }

  predicate SkippedPlaceholder(c: Container) {
    Classify(c).Placeholder?
  }

  /** The name fallback `alt or "Unnamed Product"`. */
  lemma AltName(c: Container)
    ensures FirstTruthy([c.imgAlt], UnnamedProduct) == if Truthy(c.imgAlt) then c.imgAlt.value else UnnamedProduct
  {
    FirstTruthyCons(c.imgAlt, [], UnnamedProduct);
  }

  /** When a container is emitted, and what the product then holds: the
      link made absolute, a `//` image given `https:`, the `alt` text (or
      "Unnamed Product") stripped and cut to 100 characters, and no price. */
  lemma ExtractMeaning(c: Container)
    ensures Extract(c).Some? <==>
      Truthy(c.href) && Truthy(c.imgSrc) && !StartsWith(HttpsImage(c.imgSrc.value), "data:")
    ensures Extract(c).Some? ==>
      var p := Extract(c).value;
      p.link == AbsoluteLink(c.href.value, Origin) &&
      p.imgUrl == HttpsImage(c.imgSrc.value) && p.imgUrl != [] && !StartsWith(p.imgUrl, "//") &&
      p.name == CleanName(if Truthy(c.imgAlt) then c.imgAlt.value else UnnamedProduct) &&
      |p.name| <= MaxNameLength &&
      p.price.None?
  {
    if c.imgSrc.Some? {
      HttpsImageProperties(c.imgSrc.value);
    }
    if Truthy(c.imgAlt) {
      CleanNameProperties(c.imgAlt.value);
    } else {
      CleanNameProperties(UnnamedProduct);
    }
  }

  /** The post-processing loop: append each accepted container's product and
      count the skipped ones, by reason. */
  method ProcessContainers(productContainers: seq<Container>)
    returns (products: seq<Product>, skippedCount: nat, skippedNoUrl: nat, skippedPlaceholder: nat)
    ensures products == FilterMap(productContainers, Extract)
    ensures skippedCount == Count(productContainers, Skipped)
    ensures skippedNoUrl == Count(productContainers, SkippedNoUrl)
    ensures skippedPlaceholder == Count(productContainers, SkippedPlaceholder)
  {
    products := [];
    skippedCount, skippedNoUrl, skippedPlaceholder := 0, 0, 0;
    for i := 0 to |productContainers|
      invariant products == FilterMap(productContainers[..i], Extract)
      invariant skippedCount == Count(productContainers[..i], Skipped)
      invariant skippedNoUrl == Count(productContainers[..i], SkippedNoUrl)
      invariant skippedPlaceholder == Count(productContainers[..i], SkippedPlaceholder)
    {
      var container := productContainers[i];
      FilterMapStep(productContainers, i, Extract);
      CountStep(productContainers, i, Skipped);
      CountStep(productContainers, i, SkippedNoUrl);
      CountStep(productContainers, i, SkippedPlaceholder);
      var link := container.href;
      var imgUrl := container.imgSrc;
      var name := if Truthy(container.imgAlt) then container.imgAlt.value else UnnamedProduct;
      if !Truthy(link) {
        skippedCount := skippedCount + 1;
      } else {
        var absolute := link.value;
        if StartsWith(absolute, "/") {
          absolute := Origin + absolute;
        }
        if imgUrl.Some? && StartsWith(imgUrl.value, "//") {
          imgUrl := Some("https:" + imgUrl.value);
        }
        assert absolute == AbsoluteLink(link.value, Origin);
        assert imgUrl.Some? ==> imgUrl.value == HttpsImage(container.imgSrc.value);
        if !Truthy(imgUrl) {
          skippedNoUrl := skippedNoUrl + 1;
          skippedCount := skippedCount + 1;
        } else if StartsWith(imgUrl.value, "data:") {
          skippedPlaceholder := skippedPlaceholder + 1;
          skippedCount := skippedCount + 1;
        } else {
          name := Strip(name);
          AltName(container);
          assert Classify(container) == Emit(Product(Take(name, MaxNameLength), absolute, imgUrl.value, None));
          products := products + [Product(Take(name, MaxNameLength), absolute, imgUrl.value, None)];
        }
      }
    }
    assert productContainers[..|productContainers|] == productContainers;
  }

  /** Every container is either emitted or skipped, and the two reasons the
      summary reports separately never add up to more than all skips. */
  lemma SkipAccounting(productContainers: seq<Container>)
    ensures |FilterMap(productContainers, Extract)| + Count(productContainers, Skipped) == |productContainers|
    ensures Count(productContainers, SkippedNoUrl) + Count(productContainers, SkippedPlaceholder)
      <= Count(productContainers, Skipped)
  {
    FilterMapPlusSkipped(productContainers, Extract);
    assert forall c :: Skipped(c) == Extract(c).None?;
    CountSame(productContainers, Skipped, (c: Container) => Extract(c).None?);
    CountDisjointBound(productContainers, SkippedNoUrl, SkippedPlaceholder, Skipped);
  }

  /** `scrape_asos`: a false `pageLoaded` stands for a navigation that
      raised, after which the scraper returns an empty result. Otherwise it
      scrolls, with the page answering `counts`, and processes the
      containers. `scrolls` is the number of scrolls performed. */
  method ScrapeAsos(pageLoaded: bool, counts: nat -> int, productContainers: seq<Container>)
    returns (result: CrawlResult, scrolls: nat)
    ensures !pageLoaded ==> result == EmptyResult() && scrolls == 0
    ensures pageLoaded ==>
      result.products == FilterMap(productContainers, Extract) &&
      result.totalCards == |productContainers| &&
      scrolls <= MaxScrolls &&
      var stop := Scroll.FirstStop(counts, Patience, 0, MaxScrolls);
      scrolls == if stop < MaxScrolls then stop + 1 else MaxScrolls
    ensures Consistent(result)
  {
    if !pageLoaded {
      return EmptyResult(), 0;
    }
    var stalled;
    scrolls, stalled := Scroll.ScrollUntilStable(counts, Patience, MaxScrolls);
    var totalCards := |productContainers|;
    var products, skippedCount, skippedNoUrl, skippedPlaceholder := ProcessContainers(productContainers);
    result := CrawlResult(products, totalCards, |products|);
  }
}

/** The H&M scraper (scraper_hm.py): scroll until the number of product
    articles stops growing, let a page script turn each article into a
    record (name, link, image source), then filter and normalise the
    records. The browser is an oracle: the article counts seen after each
    scroll and the articles' attributes are inputs. */
module Hm {
  import opened Text
  import opened Catalog
  import Scroll

  const Origin: string := "https://www2.hm.com"

  const Patience: nat := 3

  const MaxScrolls: nat := 10

  /** The product link of an article: its `href` property and its `title`
      and `aria-label` attributes. */
  datatype Link = Link(href: string, title: Option<string>, ariaLabel: Option<string>)

  /** The article's first image: its `src` and `alt` properties and its
      `srcset` and `data-src` attributes. */
  datatype Img = Img(src: string, srcset: Option<string>, dataSrc: Option<string>, alt: string)

  /** An `article[data-articlecode]` element: its link and image, if any. */
  datatype Article = Article(link: Option<Link>, img: Option<Img>)

  /** One record the page script pushes. */
  datatype Record = Record(name: string, link: string, imgSrc: string)

  /** The URL of the first `srcset` candidate: the text before the first
      comma, trimmed, up to its first space. */
  function SrcsetFirstUrl(srcset: string): string {
    Split(Trim(Split(srcset, ',')[0]), ' ')[0]
  }

  /** The picked URL holds no space, and for a `srcset` that starts with a
      URL followed by a width or density descriptor it is that URL. */
  lemma SrcsetFirstUrlProperties(srcset: string, url: string, descriptor: string, rest: string)
    ensures ' ' !in SrcsetFirstUrl(srcset)
    ensures url != [] && (forall i :: 0 <= i < |url| ==> !IsSpaceIn(JavaScript, url[i])) && ',' !in url &&
            descriptor != [] && !IsSpaceIn(JavaScript, descriptor[|descriptor| - 1]) && ',' !in descriptor &&
            srcset == url + [' '] + descriptor + [','] + rest
        ==> SrcsetFirstUrl(srcset) == url
  {
    if url != [] && (forall i :: 0 <= i < |url| ==> !IsSpaceIn(JavaScript, url[i])) && ',' !in url &&
       descriptor != [] && !IsSpaceIn(JavaScript, descriptor[|descriptor| - 1]) && ',' !in descriptor &&
       srcset == url + [' '] + descriptor + [','] + rest {
      var first := url + [' '] + descriptor;
      assert ',' !in first;
      assert srcset == first + [','] + rest;
      SplitHead(first, ',', rest);
      assert first[0] == url[0];
      StripUnchanged(JavaScript, first);
      assert ' ' !in url by {
        assert IsSpaceIn(JavaScript, ' ');
      }
      SplitHead(url, ' ', descriptor);
    }
  }

  /** The image source chain: `src`, else the first `srcset` URL, else
      `data-src`, else the empty string. */
  function ImageSource(img: Img): string {
    var fromSrcset := if img.srcset.Some? then Some(SrcsetFirstUrl(img.srcset.value)) else None;
    FirstTruthy([Some(img.src), fromSrcset, img.dataSrc], "")
  }

  /** The name chain: the image's `alt`, else the link's `title`, else its
      `aria-label`, else "Unnamed Product". */
  function NameOf(link: Link, img: Img): string {
    FirstTruthy([Some(img.alt), link.title, link.ariaLabel], UnnamedProduct)
  }

  /** The page script's callback for one article: nothing without a link or
      an image. */
  function ToRecord(a: Article): Option<Record> {
    if a.link.None? || a.img.None? then None
    else Some(Record(NameOf(a.link.value, a.img.value), AbsoluteLink(a.link.value.href, Origin),
                     ImageSource(a.img.value)))
  }

  /** Which source the image URL comes from: the first non-empty one of
      `src`, the first `srcset` URL and `data-src`. */
  lemma ImageSourceMeaning(img: Img)
    ensures img.src != "" ==> ImageSource(img) == img.src
    ensures img.src == "" && img.srcset.Some? && SrcsetFirstUrl(img.srcset.value) != "" ==>
      ImageSource(img) == SrcsetFirstUrl(img.srcset.value)
    ensures img.src == "" && (img.srcset.None? || SrcsetFirstUrl(img.srcset.value) == "") ==>
      ImageSource(img) == if Truthy(img.dataSrc) then img.dataSrc.value else ""
  {
    var fromSrcset := if img.srcset.Some? then Some(SrcsetFirstUrl(img.srcset.value)) else None;
    assert [Some(img.src), fromSrcset, img.dataSrc] == [Some(img.src)] + ([fromSrcset] + [img.dataSrc]);
    FirstTruthyCons(Some(img.src), [fromSrcset] + [img.dataSrc], "");
    FirstTruthyCons(fromSrcset, [img.dataSrc], "");
    FirstTruthyCons(img.dataSrc, [], "");
  }

  /** Which source the name comes from: the first non-empty one of the
      image's `alt`, the link's `title` and its `aria-label`. */
  lemma NameOfMeaning(link: Link, img: Img)
    ensures img.alt != "" ==> NameOf(link, img) == img.alt
    ensures img.alt == "" && Truthy(link.title) ==> NameOf(link, img) == link.title.value
    ensures img.alt == "" && !Truthy(link.title) && Truthy(link.ariaLabel) ==>
      NameOf(link, img) == link.ariaLabel.value
    ensures img.alt == "" && !Truthy(link.title) && !Truthy(link.ariaLabel) ==>
      NameOf(link, img) == UnnamedProduct
  {
    assert [Some(img.alt), link.title, link.ariaLabel] == [Some(img.alt)] + ([link.title] + [link.ariaLabel]);
    FirstTruthyCons(Some(img.alt), [link.title] + [link.ariaLabel], UnnamedProduct);
    FirstTruthyCons(link.title, [link.ariaLabel], UnnamedProduct);
    FirstTruthyCons(link.ariaLabel, [], UnnamedProduct);
  }

  /** The page script's loop: one record per article with a link and an
      image, in document order. */
  method CollectRecords(productElements: seq<Article>) returns (products: seq<Record>)
    ensures products == FilterMap(productElements, ToRecord)
  {
    products := [];
    for i := 0 to |productElements|
      invariant products == FilterMap(productElements[..i], ToRecord)
    {
      var element := productElements[i];
      assert productElements[..i + 1][..i] == productElements[..i];
      if element.link.Some? && element.img.Some? {
        var link, img := element.link.value, element.img.value;
        var imgSrc := ImageSource(img);
        var name := NameOf(link, img);
        var href := link.href;
        if StartsWith(href, "/") {
          href := Origin + href;
        }
        products := products + [Record(name, href, imgSrc)];
      }
    }
    assert productElements[..|productElements|] == productElements;
  }

  /** The Python loop's body for one record. */
  function Extract(item: Record): Option<Product> {
    var name := Strip(item.name);
    var link := AbsoluteLink(item.link, Origin);
    var imgUrl := HttpsImage(item.imgSrc);
    if imgUrl == "" || StartsWith(imgUrl, "data:") then None
    else Some(Product(Take(name, MaxNameLength), link, imgUrl, None))
  }

  predicate Skipped(item: Record) {
    Extract(item).None?
  }

  /** A record is dropped exactly when its image is empty or a `data:` URL;
      a kept one has a stripped name of at most 100 characters, an image
      that does not start with `//`, and no price. */
  lemma ExtractMeaning(item: Record)
    ensures Extract(item).None? <==> item.imgSrc == "" || StartsWith(HttpsImage(item.imgSrc), "data:")
    ensures Extract(item).Some? ==>
      var p := Extract(item).value;
      p.name == CleanName(item.name) && |p.name| <= MaxNameLength &&
      p.imgUrl == HttpsImage(item.imgSrc) && !StartsWith(p.imgUrl, "//") &&
      p.link == AbsoluteLink(item.link, Origin) && p.price.None?
  {
    HttpsImageProperties(item.imgSrc);
    CleanNameProperties(item.name);
  }

  /** The page script has already made root-relative links absolute, so the
      Python loop's own prefixing never changes a link. */
  lemma PythonPrefixIsRedundant(a: Article)
    requires ToRecord(a).Some?
    ensures AbsoluteLink(ToRecord(a).value.link, Origin) == ToRecord(a).value.link
  {
    AbsoluteLinkProperties(a.link.value.href, Origin);
  }

  /** The Python loop: append each kept record's product, count the rest. */
  method ProcessRecords(productData: seq<Record>) returns (products: seq<Product>, skippedCount: nat)
    ensures products == FilterMap(productData, Extract)
    ensures skippedCount == Count(productData, Skipped)
  {
    products := [];
    skippedCount := 0;
    for i := 0 to |productData|
      invariant products == FilterMap(productData[..i], Extract)
      invariant skippedCount == Count(productData[..i], Skipped)
    {
      var item := productData[i];
      assert productData[..i + 1][..i] == productData[..i];
      var name := Strip(item.name);
      var link := item.link;
      var imgUrl := item.imgSrc;
      if StartsWith(link, "/") {
        link := Origin + link;
      }
      if StartsWith(imgUrl, "//") {
        imgUrl := "https:" + imgUrl;
      }
      assert link == AbsoluteLink(item.link, Origin) && imgUrl == HttpsImage(item.imgSrc);
      if imgUrl == "" || StartsWith(imgUrl, "data:") {
        skippedCount := skippedCount + 1;
      } else {
        products := products + [Product(Take(name, MaxNameLength), link, imgUrl, None)];
      }
    }
    assert productData[..|productData|] == productData;
  }

  /** Every record is either emitted or counted as skipped. */
  lemma SkipAccounting(productData: seq<Record>)
    ensures |FilterMap(productData, Extract)| + Count(productData, Skipped) == |productData|
  {
    FilterMapPlusSkipped(productData, Extract);
    CountSame(productData, Skipped, (item: Record) => Extract(item).None?);
  }

  /** `scrape_hm`: a false `pageLoaded` stands for a navigation that raised.
      Otherwise the scraper scrolls with the page answering `counts`, the
      page script builds the records and the Python loop filters them;
      `total_cards` is the number of records. */
  method ScrapeHm(pageLoaded: bool, counts: nat -> int, productElements: seq<Article>)
    returns (result: CrawlResult, scrolls: nat)
    ensures !pageLoaded ==> result == EmptyResult() && scrolls == 0
    ensures pageLoaded ==>
      var productData := FilterMap(productElements, ToRecord);
      result.products == FilterMap(productData, Extract) &&
      result.totalCards == |productData| &&
      scrolls <= MaxScrolls &&
      var stop := Scroll.FirstStop(counts, Patience, 0, MaxScrolls);
      scrolls == if stop < MaxScrolls then stop + 1 else MaxScrolls
    ensures Consistent(result)
  {
    if !pageLoaded {
      return EmptyResult(), 0;
    }
    var stalled;
    scrolls, stalled := Scroll.ScrollUntilStable(counts, Patience, MaxScrolls);
    var productData := CollectRecords(productElements);
    var totalCards := |productData|;
    var products, skippedCount := ProcessRecords(productData);
    result := CrawlResult(products, totalCards, |products|);
  }
}

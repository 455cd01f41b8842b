/** The Fake Store API scraper (scraper_fakestore_api.py): ask the API for
    one category and turn every item that has an image into a product. The
    HTTP exchange is an oracle: the decoded array of the answer is an input,
    and `None` stands for a request that failed. */
module FakeStore {
  import opened Text
  import opened Catalog

  const ProductsUrl: string := "https://fakestoreapi.com/products/"

  const Womens: string := "women's clothing"

  const Mens: string := "men's clothing"

  /** A JSON number: its value and the text Python's `str()` gives for it. */
  datatype Price = Price(value: real, text: string)

  /** One element of the answer. A missing or `null` image, price or id is
      `None`; the title and the description distinguish the two. */
  datatype FakeItem = FakeItem(title: Field, image: Option<string>, price: Option<Price>,
                               description: Field, id: Option<nat>)

  /** The endpoint of a category. */
  function CategoryUrl(category: string): string {
    ProductsUrl + "category/" + category
  }

  /** The link made up from the item's id; a missing id renders as "None". */
  function ProductLink(id: Option<nat>): string {
    ProductsUrl + (if id.Some? then NatToDecimal(id.value) else "None")
  }

  /** The id can be read back from the link: the text after the products
      path is the id's decimal digits. */
  lemma ProductLinkId(id: nat)
    ensures var link := ProductLink(Some(id));
      |ProductsUrl| < |link| && link[..|ProductsUrl|] == ProductsUrl &&
      (forall i :: |ProductsUrl| <= i < |link| ==> '0' <= link[i] <= '9') &&
      DecimalValue(link[|ProductsUrl|..]) == id
  {
    var link := ProductLink(Some(id));
    assert link[|ProductsUrl|..] == NatToDecimal(id);
    DecimalRoundTrip(id);
  }

  /** Different ids give different links. */
  lemma ProductLinkInjective(a: nat, b: nat)
    requires ProductLink(Some(a)) == ProductLink(Some(b))
    ensures a == b
  {
    ProductLinkId(a);
    ProductLinkId(b);
  }

  /** The body of the item loop. `None` is the `continue` taken for an item
      without a truthy image, and also the skip taken when slicing a `null`
      description or title raises inside the per-item `try`. */
  function Extract(item: FakeItem): Option<Product> {
    var name := Get(item.title, UnnamedProduct);
    var description := Get(item.description, "");
    if description.None? || !Truthy(item.image) || name.None? then None
    else
      Some(Product(Take(name.value, MaxNameLength), ProductLink(item.id), item.image.value,
                   if item.price.Some? && item.price.value.value != 0.0
                   then Some("$" + item.price.value.text) else None))
  }

  /** An item is kept exactly when its image is truthy and neither its title
      nor its description is `null`; the product then shows that image, the
      first 100 characters of the title (or of "Unnamed Product"), the
      products address followed by the id's digits (or by "None" when the id
      is missing), and a price exactly when the price is
      present and not zero. */
  lemma ExtractMeaning(item: FakeItem)
    ensures Extract(item).Some? <==>
      Truthy(item.image) && !item.title.Null? && !item.description.Null?
    ensures Extract(item).Some? ==>
      var p := Extract(item).value;
      var title := if item.title.Str? then item.title.s else UnnamedProduct;
      p.imgUrl == item.image.value && p.imgUrl != [] &&
      |p.name| <= MaxNameLength && p.name == title[..|p.name|] &&
      (|title| <= MaxNameLength ==> p.name == title) &&
      (|title| > MaxNameLength ==> |p.name| == MaxNameLength) &&
      p.link == ProductLink(item.id) &&
      (item.id.Some? ==> DecimalValue(p.link[|ProductsUrl|..]) == item.id.value) &&
      (item.id.None? ==> p.link == ProductsUrl + "None") &&
      (p.price.Some? <==> item.price.Some? && item.price.value.value != 0.0) &&
      (p.price.Some? ==> p.price.value == "$" + item.price.value.text)
  {
    if item.id.Some? {
      ProductLinkId(item.id.value);
    }
  }

  /** The item loop: append every item that has an image. */
  method ProcessItems(data: seq<FakeItem>) returns (products: seq<Product>)
    ensures products == FilterMap(data, Extract)
  {
    products := [];
    for idx := 0 to |data|
      invariant products == FilterMap(data[..idx], Extract)
    {
      var item := data[idx];
      assert data[..idx + 1][..idx] == data[..idx];
      var name := Get(item.title, UnnamedProduct);
      var imgUrl := item.image;
      var price := item.price;
      var description := Get(item.description, "");
      if description.None? {
        // slicing a null description raises; the per-item handler skips the item
        continue;
      }
      var link := ProductLink(item.id);
      if !Truthy(imgUrl) {
        continue;
      }
      if name.None? {
        // slicing a null title raises; the per-item handler skips the item
        continue;
      }
      products := products + [Product(Take(name.value, MaxNameLength), link, imgUrl.value,
                                      if price.Some? && price.value.value != 0.0
                                      then Some("$" + price.value.text) else None)];
    }
    assert data[..|data|] == data;
  }

  /** `scrape_fakestore_api`. `response` is the decoded answer to a request
      for `url`, or `None` when the request failed; every count in the
      result is the number of products. */
  method ScrapeFakestoreApi(category: string, response: Option<seq<FakeItem>>)
    returns (result: CrawlResult, url: string)
    ensures url == CategoryUrl(category)
    ensures response.None? ==> result == EmptyResult()
    ensures response.Some? ==>
      result.products == FilterMap(response.value, Extract) &&
      result.totalCards == |result.products|
    ensures Consistent(result)
  {
    url := ProductsUrl + "category/" + category;
    if response.None? {
      return EmptyResult(), url;
    }
    var products := ProcessItems(response.value);
    result := CrawlResult(products, |products|, |products|);
  }

  /** `scrape_fakestore_all_clothing`: the women's products, then the men's,
      as if one answer held both categories' items in that order. */
  method ScrapeAllClothing(womensResponse: Option<seq<FakeItem>>, mensResponse: Option<seq<FakeItem>>)
    returns (result: CrawlResult)
    ensures var womens := if womensResponse.Some? then womensResponse.value else [];
      var mens := if mensResponse.Some? then mensResponse.value else [];
      result.products == FilterMap(womens + mens, Extract)
    ensures Consistent(result) && result.totalCards == |result.products|
  {
    var products := [];
    var womens, womensUrl := ScrapeFakestoreApi(Womens, womensResponse);
    products := products + womens.products;
    var mens, mensUrl := ScrapeFakestoreApi(Mens, mensResponse);
    products := products + mens.products;
    var w := if womensResponse.Some? then womensResponse.value else [];
    var m := if mensResponse.Some? then mensResponse.value else [];
    FilterMapAppend(w, m, Extract);
    result := CrawlResult(products, |products|, |products|);
  }
}

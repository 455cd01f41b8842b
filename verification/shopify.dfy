/** The Shopify scraper (scraper_shopify.py): normalise the store address,
    ask the store's public `products.json` endpoint for one collection, and
    turn every item that has an image into a product. The HTTP exchange is an
    oracle: the decoded `products` array of the answer is an input, and
    `None` stands for a request that failed. */
module Shopify {
  import opened Text
  import opened Catalog

  const Https: string := "https://"
  const Http: string := "http://"

  /** The largest page size the endpoint is asked for. */
  const MaxLimit: int := 250

  const DefaultCollection: string := "womens"

  /** The product budget `scrape_shopify_url` passes on. */
  const UrlMaxProducts: int := 50

  /** Every `https://` removed, then every `http://`: the two chained
      `str.replace` calls. */
  function StripSchemes(url: string): string {
    RemoveAll(RemoveAll(url, Https), Http)
  }

  /** The store domain: what precedes the first `/` once the schemes are gone. */
  function NormalizeStore(storeUrl: string): (store: string)
    ensures '/' !in store
  {
    Split(StripSchemes(storeUrl), '/')[0]
  }

  /** A normalised store is left alone by a second normalisation, which is
      what happens when `scrape_shopify_url` hands its store on. */
  lemma NormalizeStoreIdempotent(storeUrl: string)
    ensures NormalizeStore(NormalizeStore(storeUrl)) == NormalizeStore(storeUrl)
  {
    var s := NormalizeStore(storeUrl);
    assert Https[6] == '/' && Http[5] == '/';
    RemoveAllWithout(s, Https, '/');
    RemoveAllWithout(s, Http, '/');
    SplitHead(s, '/', []);
  }

  /** A host that cannot hold or end the `:` of a scheme in front of a
      path: it has no `/` and does not end with `:`. A port, as in
      `shop.example.com:8443`, is allowed. */
  predicate PlainHost(host: string) {
    '/' !in host && (host == [] || host[|host| - 1] != ':')
  }

  /** A scheme cannot start inside a plain host when what follows the host
      is empty or starts with `/`. */
  lemma SchemeNotInside(host: string, rest: string, pat: string, i: nat)
    requires pat == Https || pat == Http
    requires PlainHost(host) && i < |host|
    requires rest == [] || rest[0] == '/'
    ensures !StartsWith(host[i..] + rest, pat)
  {
    var t := host[i..] + rest;
    var k := if pat == Https then 6 else 5;
    assert pat[k - 1] == ':' && pat[k] == '/';
    assert forall j :: 0 <= j < k ==> pat[j] != '/';
    var d := |host| - i;
    if k < d {
      assert t[k] == host[i + k];
    } else if k == d {
      assert t[k - 1] == host[|host| - 1];
    } else if rest != [] {
      assert t[d] == '/';
    }
  }

  /** Removing a scheme keeps a leading `/` in front. */
  lemma SlashStaysFirst(s: string, pat: string)
    requires pat == Https || pat == Http
    requires s == [] || s[0] == '/'
    ensures RemoveAll(s, pat) == [] || RemoveAll(s, pat)[0] == '/'
  {
    if s != [] && |s| >= |pat| {
      assert s[..|pat|][0] != pat[0];
    }
  }

  /** A plain host in front of an empty or `/`-led path is kept by the
      removal of a scheme. */
  lemma HostKept(host: string, rest: string, pat: string)
    requires pat == Https || pat == Http
    requires PlainHost(host)
    requires rest == [] || rest[0] == '/'
    ensures RemoveAll(host + rest, pat) == host + RemoveAll(rest, pat)
  {
    forall i | 0 <= i < |host|
      ensures !StartsWith(host[i..] + rest, pat)
    {
      SchemeNotInside(host, rest, pat, i);
    }
    RemoveAllKeepsPrefix(host, rest, pat);
  }

  /** A leading occurrence of the pattern is removed. */
  lemma LeadingRemoved(pat: string, s: string)
    requires pat != []
    ensures RemoveAll(pat + s, pat) == RemoveAll(s, pat)
  {
    var t := pat + s;
    assert t[..|pat|] == pat;
    assert t[|pat|..] == s;
  }

  /** `https://` does not start inside `http://`, whatever follows it. */
  lemma HttpsNotInHttp(i: nat, rest: string)
    requires i < |Http|
    ensures !StartsWith(Http[i..] + rest, Https)
  {
    var t := Http[i..] + rest;
    if i == 0 {
      assert t[4] == ':';
    } else {
      assert t[0] == Http[i];
    }
  }

  /** A leading `http://` survives the removal of `https://`. */
  lemma HttpKept(s: string)
    ensures RemoveAll(Http + s, Https) == Http + RemoveAll(s, Https)
  {
    forall i | 0 <= i < |Http|
      ensures !StartsWith(Http[i..] + s, Https)
    {
      HttpsNotInHttp(i, s);
    }
    RemoveAllKeepsPrefix(Http, s, Https);
  }

  /** For an address made of an optional scheme, a plain host (a port
      allowed), and a path, removing the schemes leaves the host in front of
      what is left of the path, which is empty or still starts with `/`. */
  lemma StripSchemesOfUrl(scheme: string, host: string, rest: string)
    requires scheme == Https || scheme == Http || scheme == ""
    requires PlainHost(host)
    requires rest == [] || rest[0] == '/'
    ensures StripSchemes(scheme + host + rest) == host + StripSchemes(rest)
    ensures StripSchemes(rest) == [] || StripSchemes(rest)[0] == '/'
  {
    var r1 := RemoveAll(rest, Https);
    SlashStaysFirst(rest, Https);
    SlashStaysFirst(r1, Http);
    HostKept(host, r1, Http);
    if scheme == Https {
      OnceHttps(host, rest);
    } else if scheme == Http {
      OnceHttp(host, rest);
    } else {
      assert scheme + host + rest == host + rest;
      HostKept(host, rest, Https);
    }
    assert StripSchemes(scheme + host + rest) == RemoveAll(host + r1, Http);
  }

  lemma OnceHttps(host: string, rest: string)
    requires PlainHost(host)
    requires rest == [] || rest[0] == '/'
    ensures RemoveAll(Https + host + rest, Https) == host + RemoveAll(rest, Https)
  {
    assert Https + host + rest == Https + (host + rest);
    LeadingRemoved(Https, host + rest);
    HostKept(host, rest, Https);
  }

  lemma OnceHttp(host: string, rest: string)
    requires PlainHost(host)
    requires rest == [] || rest[0] == '/'
    ensures RemoveAll(RemoveAll(Http + host + rest, Https), Http) == RemoveAll(host + RemoveAll(rest, Https), Http)
  {
    var r1 := RemoveAll(rest, Https);
    assert Http + host + rest == Http + (host + rest);
    HttpKept(host + rest);
    HostKept(host, rest, Https);
    LeadingRemoved(Http, host + r1);
  }

  /** Normalisation keeps exactly the plain host (a port allowed) of an
      address with an optional scheme and a path. */
  lemma NormalizeStoreOfUrl(scheme: string, host: string, rest: string)
    requires scheme == Https || scheme == Http || scheme == ""
    requires PlainHost(host)
    requires rest == [] || rest[0] == '/'
    ensures NormalizeStore(scheme + host + rest) == host
  {
    StripSchemesOfUrl(scheme, host, rest);
    var x := StripSchemes(rest);
    if x == [] {
      assert host + x == host;
      SplitHead(host, '/', []);
    } else {
      assert host + x == host + ['/'] + x[1..];
      SplitHead(host, '/', x[1..]);
    }
  }

  /** The JSON endpoint of a collection; `all` is the whole catalogue. */
  function Endpoint(store: string, collection: string): string {
    if collection == "all" then Https + store + "/products.json"
    else Https + store + "/collections/" + collection + "/products.json"
  }

  /** `min(max_products, 250)`. */
  function RequestLimit(maxProducts: int): (limit: int)
    ensures limit <= MaxLimit && limit <= maxProducts
    ensures limit == MaxLimit || limit == maxProducts
  {
    if maxProducts < MaxLimit then maxProducts else MaxLimit
  }

  /** The store and the collection `scrape_shopify_url` reads from an
      address. */
  datatype Target = Target(store: string, collection: string)

  /** The segment after the first `collections` segment, if there is one,
      else "womens"; the store is the first segment. */
  function ParseShopifyUrl(url: string): (t: Target)
    ensures t.store == NormalizeStore(url)
  {
    var parts := Split(StripSchemes(url), '/');
    var collection :=
      if "collections" in parts && |parts| > IndexOf(parts, "collections") + 1
      then parts[IndexOf(parts, "collections") + 1]
      else DefaultCollection;
    Target(parts[0], collection)
  }

  /** An optional scheme removed from a text without `/` leaves that text. */
  lemma StripSchemesOfBare(scheme: string, store: string)
    requires scheme == Https || scheme == Http || scheme == ""
    requires '/' !in store
    ensures StripSchemes(scheme + store) == store
  {
    assert Https[6] == '/' && Http[5] == '/';
    RemoveAllWithout(store, Https, '/');
    RemoveAllWithout(store, Http, '/');
    if scheme == Https {
      LeadingRemoved(Https, store);
    } else if scheme == Http {
      HttpKept(store);
      LeadingRemoved(Http, store);
    } else {
      assert scheme + store == store;
    }
  }

  /** An address that is only a store, with an optional scheme, falls back
      to "womens"; the store may carry a port. */
  lemma ParseBareStore(scheme: string, store: string)
    requires scheme == Https || scheme == Http || scheme == ""
    requires '/' !in store
    ensures ParseShopifyUrl(scheme + store) == Target(store, DefaultCollection)
  {
    StripSchemesOfBare(scheme, store);
    SplitHead(store, '/', []);
  }

  /** An optional scheme removed in front of a store without `/` followed by
      a path without `:` that starts with a single `/` leaves store and path;
      the store may end with `:` or carry a port. */
  lemma StripSchemesOfPath(scheme: string, store: string, rest: string)
    requires scheme == Https || scheme == Http || scheme == ""
    requires '/' !in store
    requires |rest| >= 2 && rest[0] == '/' && rest[1] != '/' && ':' !in rest
    ensures StripSchemes(scheme + store + rest) == store + rest
  {
    assert Https[5] == ':' && Http[4] == ':';
    RemoveAllWithout(rest, Https, ':');
    RemoveAllWithout(rest, Http, ':');
    HostKeptBeforeSingleSlash(store, rest, Https);
    HostKeptBeforeSingleSlash(store, rest, Http);
    assert scheme + store + rest == scheme + (store + rest);
    if scheme == Https {
      LeadingRemoved(Https, store + rest);
    } else if scheme == Http {
      HttpKept(store + rest);
      LeadingRemoved(Http, store + rest);
    } else {
      assert scheme + (store + rest) == store + rest;
    }
  }

  /** A collection path without `:` holds no `:` at all. */
  lemma CollectionPathColonFree(collection: string, path: string)
    requires ':' !in collection && ':' !in path
    ensures ':' !in "/collections/" + collection + path
  {
    var rest := "/collections/" + collection + path;
    forall j | 0 <= j < |rest|
      ensures rest[j] != ':'
    {
      if j < 13 {
      } else if j < 13 + |collection| {
        assert rest[j] == collection[j - 13];
      } else {
        assert rest[j] == path[j - 13 - |collection|];
      }
    }
  }

  /** The segments of a collection address: the store, `collections`, the
      collection, then whatever the path adds. */
  lemma CollectionSegments(store: string, collection: string, path: string)
    requires '/' !in store && '/' !in collection
    requires path == [] || path[0] == '/'
    ensures var parts := Split(store + "/collections/" + collection + path, '/');
      |parts| >= 3 && parts[0] == store && parts[1] == "collections" && parts[2] == collection
  {
    CollectionsSeparator();
    ThreeSegments(store, "collections", collection, path);
  }

  /** Three `/`-free segments joined by `/`, followed by a path, split back
      into those three first. */
  lemma ThreeSegments(first: string, second: string, third: string, path: string)
    requires '/' !in first && '/' !in second && '/' !in third
    requires path == [] || path[0] == '/'
    ensures var parts := Split(first + (['/'] + second + ['/']) + third + path, '/');
      |parts| >= 3 && parts[0] == first && parts[1] == second && parts[2] == third
  {
    var tail := third + path;
    var mid := second + ['/'] + tail;
    assert first + (['/'] + second + ['/']) + third + path == first + ['/'] + mid;
    FirstSegment(third, path);
    SplitHead(second, '/', tail);
    SplitHead(first, '/', mid);
  }

  lemma CollectionsSeparator()
    ensures "/collections/" == ['/'] + "collections" + ['/']
  {
    var sep := "/collections/";
    assert |sep| == 13;
    forall i | 0 <= i < 13
      ensures sep[i] == (['/'] + "collections" + ['/'])[i]
    {
    }
  }

  /** The first segment of a text is everything up to its first `/`. */
  lemma FirstSegment(segment: string, path: string)
    requires '/' !in segment
    requires path == [] || path[0] == '/'
    ensures Split(segment + path, '/')[0] == segment
  {
    if path == [] {
      assert segment + path == segment;
      SplitHead(segment, '/', []);
    } else {
      assert segment + path == segment + ['/'] + path[1..];
      SplitHead(segment, '/', path[1..]);
    }
  }

  /** A collection address is read back as its store and its collection,
      whatever path follows the collection. */
  lemma ParseCollectionUrl(scheme: string, store: string, collection: string, path: string)
    requires scheme == Https || scheme == Http || scheme == ""
    requires '/' !in store && store != "collections"
    requires ':' !in collection && '/' !in collection
    requires ':' !in path && (path == [] || path[0] == '/')
    ensures ParseShopifyUrl(scheme + store + "/collections/" + collection + path) == Target(store, collection)
  {
    var rest := "/collections/" + collection + path;
    var url := scheme + store + "/collections/" + collection + path;
    assert url == scheme + store + rest;
    assert rest[0] == '/' && rest[1] == 'c';
    CollectionPathColonFree(collection, path);
    StripSchemesOfPath(scheme, store, rest);
    assert StripSchemes(url) == store + "/collections/" + collection + path;
    CollectionSegments(store, collection, path);
    var parts := Split(StripSchemes(url), '/');
    assert parts[1] == "collections";
    assert IndexOf(parts, "collections") == 1;
  }

  /** The endpoint of a named collection is itself an address that
      `scrape_shopify_url` reads back as that store and that collection. */
  lemma EndpointRoundTrip(store: string, collection: string)
    requires '/' !in store && store != "collections"
    requires ':' !in collection && '/' !in collection && collection != "all"
    ensures ParseShopifyUrl(Endpoint(store, collection)) == Target(store, collection)
    ensures NormalizeStore(Endpoint(store, collection)) == store
  {
    assert Endpoint(store, collection) == Https + store + "/collections/" + collection + "/products.json";
    ParseCollectionUrl(Https, store, collection, "/products.json");
  }

  datatype Variant = Variant(price: Option<string>)

  datatype Image = Image(src: Option<string>)

  /** One element of the `products` array. */
  datatype Item = Item(title: Field, handle: Field, variants: seq<Variant>, images: seq<Image>)

  function ProductUrl(store: string, handle: string): string {
    Https + store + "/products/" + handle
  }

  /** The body of the item loop. `None` is the `continue` taken for an item
      whose first image has no truthy `src`, and also the skip taken when
      slicing a `null` title raises inside the per-item `try`. */
  function Extract(store: string, item: Item): Option<Product> {
    var title := Get(item.title, UnnamedProduct);
    var handle := Show(Get(item.handle, ""));
    var price := if item.variants != [] then item.variants[0].price else None;
    var imgUrl := if item.images != [] then item.images[0].src else None;
    if !Truthy(imgUrl) || title.None? then None
    else
      Some(Product(Take(title.value, MaxNameLength), ProductUrl(store, handle), imgUrl.value,
                   if Truthy(price) then Some("$" + price.value) else None))
  }

  /** The loop body for one store, as a function value. */
  function Extractor(store: string): Item -> Option<Product> {
    (item: Item) => Extract(store, item)
  }

  /** A scheme cannot start inside a host without `/` when the host is
      followed by a single `/`. */
  lemma SchemeNotBeforeSingleSlash(host: string, rest: string, pat: string, i: nat)
    requires pat == Https || pat == Http
    requires '/' !in host && i < |host|
    requires |rest| >= 2 && rest[0] == '/' && rest[1] != '/'
    ensures !StartsWith(host[i..] + rest, pat)
  {
    var t := host[i..] + rest;
    var k := if pat == Https then 6 else 5;
    assert pat[k] == '/' && pat[k + 1] == '/';
    assert forall j :: 0 <= j < k ==> pat[j] != '/';
    var d := |host| - i;
    if k < d {
      assert t[k] == host[i + k];
    } else if k == d {
      assert t[k + 1] == rest[1];
    } else {
      assert t[d] == '/';
    }
  }

  /** Such a host is kept by the removal of a scheme. */
  lemma HostKeptBeforeSingleSlash(host: string, rest: string, pat: string)
    requires pat == Https || pat == Http
    requires '/' !in host
    requires |rest| >= 2 && rest[0] == '/' && rest[1] != '/'
    ensures RemoveAll(host + rest, pat) == host + RemoveAll(rest, pat)
  {
    forall i | 0 <= i < |host|
      ensures !StartsWith(host[i..] + rest, pat)
    {
      SchemeNotBeforeSingleSlash(host, rest, pat, i);
    }
    RemoveAllKeepsPrefix(host, rest, pat);
  }

  /** A scheme cannot start at the `/p` that opens the products path. */
  lemma ProductPathHeadKept(tail: string, pat: string)
    requires pat == Https || pat == Http
    ensures RemoveAll(['/', 'p'] + tail, pat) == ['/', 'p'] + RemoveAll(tail, pat)
  {
    assert pat[0] == 'h';
    assert ['/', 'p'] + tail == ['/'] + (['p'] + tail);
    RemoveAllCons('/', ['p'] + tail, pat);
    RemoveAllCons('p', tail, pat);
  }

  /** A product link normalises back to its store whenever the store holds
      no `/`, as every normalised store does; a `:` (a port) may occur. */
  lemma ProductUrlStore(store: string, handle: string)
    requires '/' !in store
    ensures NormalizeStore(ProductUrl(store, handle)) == store
  {
    var rest := "/products/" + handle;
    assert rest[0] == '/' && rest[1] == 'p';
    var tail := rest[2..];
    assert rest == ['/', 'p'] + tail;
    assert ProductUrl(store, handle) == Https + (store + rest);
    LeadingRemoved(Https, store + rest);
    HostKeptBeforeSingleSlash(store, rest, Https);
    ProductPathHeadKept(tail, Https);
    var r1 := RemoveAll(tail, Https);
    HostKeptBeforeSingleSlash(store, ['/', 'p'] + r1, Http);
    ProductPathHeadKept(r1, Http);
    var r2 := RemoveAll(r1, Http);
    assert StripSchemes(ProductUrl(store, handle)) == store + (['/', 'p'] + r2);
    FirstSegment(store, ['/', 'p'] + r2);
  }

  /** An item is kept exactly when its first image has a truthy `src` and
      its title is not `null`; the product then shows that image, the first
      100 characters of the title (or of "Unnamed Product" when there is
      none), the link `https://store/products/handle` (an empty handle when
      the key is missing, "None" when it is `null`), which leads back to the
      same store for any store domain without `/` such as one with a port,
      and a price exactly when the first variant has a truthy one. */
  lemma ExtractMeaning(store: string, item: Item)
    ensures Extract(store, item).Some? <==>
      item.images != [] && Truthy(item.images[0].src) && !item.title.Null?
    ensures Extract(store, item).Some? ==>
      var p := Extract(store, item).value;
      var title := if item.title.Str? then item.title.s else UnnamedProduct;
      p.imgUrl == item.images[0].src.value && p.imgUrl != [] &&
      |p.name| <= MaxNameLength && p.name == title[..|p.name|] &&
      (|title| <= MaxNameLength ==> p.name == title) &&
      (|title| > MaxNameLength ==> |p.name| == MaxNameLength) &&
      p.link == ProductUrl(store, Show(Get(item.handle, ""))) &&
      (item.handle.Str? ==> p.link == Https + store + "/products/" + item.handle.s) &&
      (item.handle.Absent? ==> p.link == Https + store + "/products/") &&
      (item.handle.Null? ==> p.link == Https + store + "/products/None") &&
      ('/' !in store ==> NormalizeStore(p.link) == store) &&
      (p.price.Some? <==> item.variants != [] && Truthy(item.variants[0].price)) &&
      (p.price.Some? ==> p.price.value == "$" + item.variants[0].price.value)
  {
    if '/' !in store {
      ProductUrlStore(store, Show(Get(item.handle, "")));
    }
  }

  /** The item loop: append every item that has an image. */
  method ProcessItems(store: string, shopifyProducts: seq<Item>) returns (products: seq<Product>)
    ensures products == FilterMap(shopifyProducts, Extractor(store))
  {
    products := [];
    for idx := 0 to |shopifyProducts|
      invariant products == FilterMap(shopifyProducts[..idx], Extractor(store))
    {
      var item := shopifyProducts[idx];
      assert shopifyProducts[..idx + 1][..idx] == shopifyProducts[..idx];
      var title := Get(item.title, UnnamedProduct);
      var handle := Get(item.handle, "");
      var productUrl := Https + store + "/products/" + Show(handle);
      var price := None;
      if item.variants != [] {
        price := item.variants[0].price;
      }
      var imgUrl := None;
      if item.images != [] {
        imgUrl := item.images[0].src;
      }
      if !Truthy(imgUrl) {
        continue;
      }
      if title.None? {
        // slicing a null title raises; the per-item handler skips the item
        continue;
      }
      products := products + [Product(Take(title.value, MaxNameLength), productUrl, imgUrl.value,
                                      if Truthy(price) then Some("$" + price.value) else None)];
    }
    assert shopifyProducts[..|shopifyProducts|] == shopifyProducts;
  }

  /** One request to the store's JSON endpoint. */
  datatype Request = Request(url: string, limit: int)

  /** `scrape_shopify_collection`. `response` is the `products` array of the
      answer to `request` (empty when the key is absent), or `None` when the
      request failed; every count in the result is the number of products. */
  method ScrapeShopifyCollection(storeUrl: string, collection: string, maxProducts: int, response: Option<seq<Item>>)
    returns (result: CrawlResult, request: Request)
    ensures request == Request(Endpoint(NormalizeStore(storeUrl), collection), RequestLimit(maxProducts))
    ensures request.limit <= MaxLimit
    ensures response.None? ==> result == EmptyResult()
    ensures response.Some? ==>
      result.products == FilterMap(response.value, Extractor(NormalizeStore(storeUrl))) &&
      result.totalCards == |result.products|
    ensures Consistent(result)
  {
    var store := NormalizeStore(storeUrl);
    var url := if collection == "all" then Https + store + "/products.json"
               else Https + store + "/collections/" + collection + "/products.json";
    request := Request(url, RequestLimit(maxProducts));
    if response.None? {
      return EmptyResult(), request;
    }
    var products := ProcessItems(store, response.value);
    result := CrawlResult(products, |products|, |products|);
  }

  /** `scrape_shopify_url`: read the store and the collection from the
      address and fetch at most 50 products of that collection. */
  method ScrapeShopifyUrl(url: string, response: Option<seq<Item>>)
    returns (result: CrawlResult, request: Request)
    ensures var t := ParseShopifyUrl(url);
      request == Request(Endpoint(t.store, t.collection), UrlMaxProducts) &&
      (response.None? ==> result == EmptyResult()) &&
      (response.Some? ==> result.products == FilterMap(response.value, Extractor(t.store)))
    ensures Consistent(result)
  {
    var target := ParseShopifyUrl(url);
    NormalizeStoreIdempotent(url);
    result, request := ScrapeShopifyCollection(target.store, target.collection, UrlMaxProducts, response);
  }
}

/** The records every scraper produces and the shape of their per-record
    extraction loops: each raw record is either turned into one product or
    skipped, in input order. */
module Catalog {
  import opened Text

  /** Names are cut to this many characters by every scraper that truncates. */
  const MaxNameLength: nat := 100

  const UnnamedProduct: string := "Unnamed Product"

  /** One product listing: the dictionary `{"name", "link", "img_url", "price"}`. */
  datatype Product = Product(name: string, link: string, imgUrl: string, price: Option<string>)

  /** The dictionary `{"products", "total_cards", "unique_products"}` a scraper returns. */
  datatype CrawlResult = CrawlResult(products: seq<Product>, totalCards: int, uniqueProducts: int)

  /** What every scraper promises of its result. */
  predicate Consistent(r: CrawlResult) {
    r.uniqueProducts == |r.products| && |r.products| <= r.totalCards
  }

  /** A string field of a decoded JSON object: missing, `null`, or a string. */
  datatype Field = Absent | Null | Str(s: string)

  /** `obj.get(key, default)` on a string field; `None` is a JSON `null`. */
  function Get(f: Field, default: string): (r: Option<string>)
    ensures r.None? <==> f.Null?
    ensures f.Absent? ==> r == Some(default)
    ensures f.Str? ==> r == Some(f.s)
  {
    match f
    case Absent => Some(default)
    case Null => None
    case Str(s) => Some(s)
  }

  /** How an f-string renders an optional string: `None` becomes "None". */
  function Show(o: Option<string>): string {
    if o.Some? then o.value else "None"
  }

  /** The result returned when the page or the API could not be reached. */
  function EmptyResult(): (r: CrawlResult)
    ensures Consistent(r) && r.products == [] && r.totalCards == 0 && r.uniqueProducts == 0
  {
    CrawlResult([], 0, 0)
  }

  /** A root-relative link (one starting with `/`) made absolute against
      the site's origin; any other link is left as it is. */
  function AbsoluteLink(link: string, origin: string): string {
    if StartsWith(link, "/") then origin + link else link
  }

  /** The link keeps its text at the end, and a non-empty link no longer
      starts with `/` when the origin does not; so applying the rule twice
      changes nothing. */
  lemma AbsoluteLinkProperties(link: string, origin: string)
    requires origin != [] && origin[0] != '/'
    ensures var r := AbsoluteLink(link, origin);
      |link| <= |r| && r[|r| - |link|..] == link &&
      (link != [] ==> !StartsWith(r, "/")) &&
      AbsoluteLink(r, origin) == r
  {
    var r := AbsoluteLink(link, origin);
    if StartsWith(link, "/") {
      assert r[0] == origin[0];
    }
  }

  /** A protocol-relative image URL (`//host/path`) given the `https:` scheme. */
  function HttpsImage(url: string): string {
    if StartsWith(url, "//") then "https:" + url else url
  }

  /** The result never starts with `//`, is the URL itself or the URL behind
      `https:`, and a second application changes nothing. */
  lemma HttpsImageProperties(url: string)
    ensures var r := HttpsImage(url);
      !StartsWith(r, "//") && (r == url || r == "https:" + url) &&
      (url == [] <==> r == []) &&
      HttpsImage(r) == r
  {
    var r := HttpsImage(url);
    if StartsWith(url, "//") {
      assert r[0] == 'h';
    }
  }

  /** A name as the browser scrapers store it: stripped, then cut to
      `MaxNameLength` characters. */
  function CleanName(raw: string): string {
    Take(Strip(raw), MaxNameLength)
  }

  /** A stored name is the first 100 characters of the stripped name (all
      of it when shorter), and does not start with whitespace. */
  lemma CleanNameProperties(raw: string)
    ensures var r := CleanName(raw);
      |r| <= MaxNameLength && r == Strip(raw)[..|r|] && (r == [] || !IsSpace(r[0])) &&
      (|Strip(raw)| <= MaxNameLength ==> r == Strip(raw)) &&
      (|Strip(raw)| > MaxNameLength ==> |r| == MaxNameLength)
  {
    var r := CleanName(raw);
    if r != [] {
      assert r[0] == Strip(raw)[0];
    }
  }

  /** The outputs of `extract` over `xs`, in order, skipping the records it
      rejects: what a loop that appends each accepted record produces. */
  function FilterMap<T, U>(xs: seq<T>, extract: T -> Option<U>): (ys: seq<U>)
    ensures |ys| <= |xs|
    decreases |xs|
  {
    if xs == [] then []
    else
      var prefix := FilterMap(xs[..|xs| - 1], extract);
      match extract(xs[|xs| - 1])
      case Some(y) => prefix + [y]
      case None => prefix
  }

  /** Extraction is record by record: the output for a concatenation is the
      concatenation of the outputs, so input order is kept. */
  lemma {:induction false} FilterMapAppend<T, U>(xs: seq<T>, zs: seq<T>, extract: T -> Option<U>)
    ensures FilterMap(xs + zs, extract) == FilterMap(xs, extract) + FilterMap(zs, extract)
    decreases |zs|
  {
    if zs == [] {
      assert xs + zs == xs;
    } else {
      FilterMapAppend(xs, zs[..|zs| - 1], extract);
      assert (xs + zs)[..|xs + zs| - 1] == xs + zs[..|zs| - 1];
    }
  }

  /** Every output comes from some input record, and every record that is
      accepted shows up in the output. */
  lemma {:induction false} FilterMapMembers<T, U>(xs: seq<T>, extract: T -> Option<U>)
    ensures forall y :: y in FilterMap(xs, extract) ==> exists i :: 0 <= i < |xs| && extract(xs[i]) == Some(y)
    ensures forall i :: 0 <= i < |xs| && extract(xs[i]).Some? ==> extract(xs[i]).value in FilterMap(xs, extract)
    decreases |xs|
  {
    if xs != [] {
      var init := xs[..|xs| - 1];
      FilterMapMembers(init, extract);
      forall y | y in FilterMap(xs, extract)
        ensures exists i :: 0 <= i < |xs| && extract(xs[i]) == Some(y)
      {
        if y in FilterMap(init, extract) {
          var i :| 0 <= i < |init| && extract(init[i]) == Some(y);
          assert xs[i] == init[i];
        } else {
          assert extract(xs[|xs| - 1]) == Some(y);
        }
      }
      forall i | 0 <= i < |xs| && extract(xs[i]).Some?
        ensures extract(xs[i]).value in FilterMap(xs, extract)
      {
        if i < |xs| - 1 {
          assert xs[i] == init[i];
        }
      }
    }
  }

  /** One more record adds its output, if any. */
  lemma FilterMapStep<T, U>(xs: seq<T>, i: nat, extract: T -> Option<U>)
    requires i < |xs|
    ensures FilterMap(xs[..i + 1], extract) ==
      FilterMap(xs[..i], extract) + (if extract(xs[i]).Some? then [extract(xs[i]).value] else [])
  {
    assert xs[..i + 1][..i] == xs[..i];
  }

  /** Number of records satisfying `p`: a counter bumped once per such record. */
  function Count<T>(xs: seq<T>, p: T -> bool): (n: nat)
    ensures n <= |xs|
    decreases |xs|
  {
    if xs == [] then 0
    else Count(xs[..|xs| - 1], p) + (if p(xs[|xs| - 1]) then 1 else 0)
  }

  /** One more record bumps the counter when it satisfies `p`. */
  lemma CountStep<T>(xs: seq<T>, i: nat, p: T -> bool)
    requires i < |xs|
    ensures Count(xs[..i + 1], p) == Count(xs[..i], p) + (if p(xs[i]) then 1 else 0)
  {
    assert xs[..i + 1][..i] == xs[..i];
  }

  /** Every record is either emitted or counted as skipped. */
  lemma {:induction false} FilterMapPlusSkipped<T, U>(xs: seq<T>, extract: T -> Option<U>)
    ensures |FilterMap(xs, extract)| + Count(xs, (x: T) => extract(x).None?) == |xs|
    decreases |xs|
  {
    if xs != [] {
      FilterMapPlusSkipped(xs[..|xs| - 1], extract);
    }
  }

  /** Counting with two predicates that agree everywhere gives the same number. */
  lemma {:induction false} CountSame<T>(xs: seq<T>, p: T -> bool, q: T -> bool)
    requires forall x :: p(x) == q(x)
    ensures Count(xs, p) == Count(xs, q)
    decreases |xs|
  {
    if xs != [] {
      CountSame(xs[..|xs| - 1], p, q);
    }
  }

  /** Two disjoint reasons for skipping, each of which implies the record is
      skipped, together count no more than the skipped records. */
  lemma {:induction false} CountDisjointBound<T>(xs: seq<T>, p: T -> bool, q: T -> bool, r: T -> bool)
    requires forall x :: p(x) ==> r(x)
    requires forall x :: q(x) ==> r(x)
    requires forall x :: !(p(x) && q(x))
    ensures Count(xs, p) + Count(xs, q) <= Count(xs, r)
    decreases |xs|
  {
    if xs != [] {
      CountDisjointBound(xs[..|xs| - 1], p, q, r);
    }
  }
}

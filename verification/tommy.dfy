/** The Tommy Hilfiger scraper (scraper.py, `scrape_us_tommy`): scroll
    until the page height stops changing, then turn every product anchor
    with an image into a listing, keeping only the first card of each raw
    name. The browser is an oracle: the heights seen after each scroll and
    the cards' attributes are inputs. */
module Tommy {
  import opened Text
  import opened Catalog

  const Site: string := "https://usa.tommy.com"

  /** The height loop breaks at observation `i` when it equals the one
      before it; the first observation is compared with `None` and never
      breaks the loop. */
  predicate Repeats(heights: nat -> int, i: nat) {
    i >= 1 && heights(i) == heights(i - 1)
  }

  /** The `while True` loop. `heights(i)` is the height read after the
      (i+1)-th scroll. The loop has no cap, so it ends only on a page whose
      height eventually repeats; `scrolls` is the number of scrolls, and the
      loop stops at the first repeat. */
  method ScrollUntilHeightStable(heights: nat -> int) returns (scrolls: nat)
    requires exists i: nat :: Repeats(heights, i)
    ensures scrolls >= 2 && Repeats(heights, scrolls - 1)
    ensures forall j :: 0 <= j < scrolls - 1 ==> !Repeats(heights, j)
  {
    ghost var bound: nat :| Repeats(heights, bound);
    var previousHeight: Option<int> := None;
    var i := 0;
    while true
      invariant i <= bound
      invariant i == 0 ==> previousHeight == None
      invariant i > 0 ==> previousHeight == Some(heights(i - 1))
      invariant forall j :: 0 <= j < i ==> !Repeats(heights, j)
      decreases bound - i
    {
      var currentHeight := heights(i);
      if previousHeight == Some(currentHeight) {
        break;
      }
      previousHeight := Some(currentHeight);
      i := i + 1;
    }
    scrolls := i + 1;
  }

  /** A product image: its `src`, `data-src`, `title` and `alt` attributes. */
  datatype TommyImg = TommyImg(src: Option<string>, dataSrc: Option<string>, title: Option<string>, alt: Option<string>)

  /** An `a.pdpurl` anchor: its `href` attribute and its image, if any. */
  datatype Card = Card(href: Option<string>, img: Option<TommyImg>)

  /** The dictionary `{"name", "link", "img_url"}`; the link and the image
      URL can be `None`. */
  datatype Listing = Listing(name: string, link: Option<string>, imgUrl: Option<string>)

  /** A truthy link that does not start with `http` is prefixed with the
      site; any other link, `None` included, is kept. */
  function CardLink(href: Option<string>): Option<string> {
    if Truthy(href) && !StartsWith(href.value, "http") then Some(Site + href.value) else href
  }

  /** The link the card gets starts with `http` whenever the `href` is truthy,
      and a link already starting with `http` is left alone. */
  lemma CardLinkProperties(href: Option<string>)
    ensures Truthy(href) ==> CardLink(href).Some? && StartsWith(CardLink(href).value, "http")
    ensures Truthy(href) && StartsWith(href.value, "http") ==> CardLink(href) == href
    ensures !Truthy(href) ==> CardLink(href) == href
    ensures CardLink(CardLink(href)) == CardLink(href)
  {
    if Truthy(href) && !StartsWith(href.value, "http") {
      var l := Site + href.value;
      assert l[..4] == Site[..4];
    }
  }

  /** `src or data-src`. */
  function ImageUrl(img: TommyImg): Option<string> {
    if Truthy(img.src) then img.src else img.dataSrc
  }

  /** `title or alt or "Unnamed Product"`: the name the dedup compares. */
  function RawName(img: TommyImg): string {
    if Truthy(img.title) then img.title.value
    else if Truthy(img.alt) then img.alt.value
    else UnnamedProduct
  }

  /** The listing of a card with an image: the raw name stripped, the
      card's link and its image URL. */
  function ListingOf(c: Card): Listing
    requires c.img.Some?
  {
    Listing(Strip(RawName(c.img.value)), CardLink(c.href), ImageUrl(c.img.value))
  }

  /** The raw names of the cards with an image: `seen_names` after the loop
      has gone over `cards`. */
  function SeenNames(cards: seq<Card>): set<string>
    decreases |cards|
  {
    if cards == [] then {}
    else
      var last := cards[|cards| - 1];
      SeenNames(cards[..|cards| - 1]) + if last.img.Some? then {RawName(last.img.value)} else {}
  }

  predicate AllHaveImages(cs: seq<Card>) {
    forall k :: 0 <= k < |cs| ==> cs[k].img.Some?
  }

  /** The cards the loop lists: each card with an image whose raw name no
      earlier card with an image had. */
  function KeptCards(cards: seq<Card>): (kept: seq<Card>)
    ensures |kept| <= |cards|
    ensures AllHaveImages(kept)
    decreases |cards|
  {
    if cards == [] then []
    else
      var init, last := cards[..|cards| - 1], cards[|cards| - 1];
      if last.img.Some? && RawName(last.img.value) !in SeenNames(init)
      then KeptCards(init) + [last]
      else KeptCards(init)
  }

  /** The listings of some cards with images, in order. */
  function Listings(cs: seq<Card>): (ls: seq<Listing>)
    requires AllHaveImages(cs)
    ensures |ls| == |cs|
    decreases |cs|
  {
    if cs == [] then [] else Listings(cs[..|cs| - 1]) + [ListingOf(cs[|cs| - 1])]
  }

  /** The listing the loop produces for the k-th kept card. */
  lemma {:induction false} ListingsAt(cs: seq<Card>, k: nat)
    requires AllHaveImages(cs) && k < |cs|
    ensures Listings(cs)[k] == ListingOf(cs[k])
    decreases |cs|
  {
    if k < |cs| - 1 {
      ListingsAt(cs[..|cs| - 1], k);
    }
  }

  /** What one more card does to the seen names and to the listings. */
  lemma CardStep(cards: seq<Card>, i: nat)
    requires i < |cards|
    ensures var c := cards[i];
      SeenNames(cards[..i + 1]) ==
        SeenNames(cards[..i]) + (if c.img.Some? then {RawName(c.img.value)} else {}) &&
      Listings(KeptCards(cards[..i + 1])) ==
        if c.img.Some? && RawName(c.img.value) !in SeenNames(cards[..i])
        then Listings(KeptCards(cards[..i])) + [ListingOf(c)]
        else Listings(KeptCards(cards[..i]))
  {
    assert cards[..i + 1][..i] == cards[..i];
    var c := cards[i];
    if c.img.Some? && RawName(c.img.value) !in SeenNames(cards[..i]) {
      var kept := KeptCards(cards[..i]);
      assert (kept + [c])[..|kept|] == kept;
    }
  }

  /** The card loop, over cards `try` never fails on. */
  method ScrapeCards(productCards: seq<Card>) returns (products: seq<Listing>)
    ensures products == Listings(KeptCards(productCards))
  {
    products := [];
    var seenNames: set<string> := {};
    for i := 0 to |productCards|
      invariant products == Listings(KeptCards(productCards[..i]))
      invariant seenNames == SeenNames(productCards[..i])
    {
      var card := productCards[i];
      CardStep(productCards, i);
      var link := card.href;
      if Truthy(link) && !StartsWith(link.value, "http") {
        link := Some(Site + link.value);
      }
      if card.img.None? {
        continue;
      }
      var img := card.img.value;
      var imgUrl := if Truthy(img.src) then img.src else img.dataSrc;
      var name := if Truthy(img.title) then img.title.value
                  else if Truthy(img.alt) then img.alt.value
                  else UnnamedProduct;
      if name !in seenNames {
        seenNames := seenNames + {name};
        products := products + [Listing(Strip(name), link, imgUrl)];
      }
    }
    assert productCards[..|productCards|] == productCards;
  }

  /** `scrape_us_tommy`: scroll until the height repeats, then list the
      cards. */
  method ScrapeUsTommy(heights: nat -> int, productCards: seq<Card>)
    returns (products: seq<Listing>, scrolls: nat)
    requires exists i: nat :: Repeats(heights, i)
    ensures products == Listings(KeptCards(productCards))
    ensures scrolls >= 2 && Repeats(heights, scrolls - 1)
    ensures forall j :: 0 <= j < scrolls - 1 ==> !Repeats(heights, j)
  {
    scrolls := ScrollUntilHeightStable(heights);
    products := ScrapeCards(productCards);
  }

  /** A name is seen exactly when some card with an image carries it. */
  lemma {:induction false} SeenNamesMeaning(cards: seq<Card>, name: string)
    ensures name in SeenNames(cards) <==>
      exists j :: 0 <= j < |cards| && cards[j].img.Some? && RawName(cards[j].img.value) == name
    decreases |cards|
  {
    if cards != [] {
      var init := cards[..|cards| - 1];
      SeenNamesMeaning(init, name);
      if exists j :: 0 <= j < |init| && init[j].img.Some? && RawName(init[j].img.value) == name {
        var j :| 0 <= j < |init| && init[j].img.Some? && RawName(init[j].img.value) == name;
        assert cards[j] == init[j];
      }
      if exists j :: 0 <= j < |cards| && cards[j].img.Some? && RawName(cards[j].img.value) == name {
        var j :| 0 <= j < |cards| && cards[j].img.Some? && RawName(cards[j].img.value) == name;
        if j < |init| {
          assert init[j] == cards[j];
        }
      }
    }
  }

  /** The raw name the k-th kept card was listed under. */
  function KeptName(kept: seq<Card>, k: nat): string
    requires AllHaveImages(kept) && k < |kept|
  {
    RawName(kept[k].img.value)
  }

  /** Every kept card's raw name is a seen name, and there are as many
      listings as distinct raw names. */
  lemma {:induction false} KeptCountsNames(cards: seq<Card>)
    ensures forall k :: 0 <= k < |KeptCards(cards)| ==> KeptName(KeptCards(cards), k) in SeenNames(cards)
    ensures |KeptCards(cards)| == |SeenNames(cards)|
    decreases |cards|
  {
    if cards != [] {
      var init, last := cards[..|cards| - 1], cards[|cards| - 1];
      KeptCountsNames(init);
      var kept, kept0 := KeptCards(cards), KeptCards(init);
      if last.img.Some? && RawName(last.img.value) !in SeenNames(init) {
        assert kept == kept0 + [last];
        assert SeenNames(cards) == SeenNames(init) + {RawName(last.img.value)};
        forall k | 0 <= k < |kept|
          ensures KeptName(kept, k) in SeenNames(cards)
        {
          if k < |kept0| {
            assert kept[k] == kept0[k];
            assert KeptName(kept, k) == KeptName(kept0, k);
          } else {
            assert kept[k] == last;
          }
        }
      } else if last.img.Some? {
        assert SeenNames(cards) == SeenNames(init);
      }
    }
  }

  /** No two listings share a raw name: the dedup the `seen_names` set
      performs. */
  lemma {:induction false} KeptRawNamesDistinct(cards: seq<Card>)
    ensures forall k, l :: 0 <= k < l < |KeptCards(cards)| ==>
      KeptName(KeptCards(cards), k) != KeptName(KeptCards(cards), l)
    decreases |cards|
  {
    if cards != [] {
      var init, last := cards[..|cards| - 1], cards[|cards| - 1];
      KeptRawNamesDistinct(init);
      KeptCountsNames(init);
      var kept, kept0 := KeptCards(cards), KeptCards(init);
      if last.img.Some? && RawName(last.img.value) !in SeenNames(init) {
        assert kept == kept0 + [last];
        forall k, l | 0 <= k < l < |kept|
          ensures KeptName(kept, k) != KeptName(kept, l)
        {
          assert kept[k] == kept0[k];
          assert KeptName(kept, k) == KeptName(kept0, k);
          if l < |kept0| {
            assert kept[l] == kept0[l];
            assert KeptName(kept, l) == KeptName(kept0, l);
          } else {
            assert kept[l] == last;
          }
        }
      }
    }
  }

  /** The card at `i` has an image and no earlier card with an image has
      its raw name. */
  predicate FirstWithName(cards: seq<Card>, i: int) {
    0 <= i < |cards| && cards[i].img.Some? &&
    forall j :: 0 <= j < i && cards[j].img.Some? ==> RawName(cards[j].img.value) != RawName(cards[i].img.value)
  }

  /** Being the first card of a name survives appending cards. */
  lemma FirstWithNameExtends(cards: seq<Card>, i: int)
    requires cards != [] && FirstWithName(cards[..|cards| - 1], i)
    ensures FirstWithName(cards, i)
  {
    var init := cards[..|cards| - 1];
    forall j | 0 <= j < i
      ensures cards[j] == init[j]
    {
    }
    assert cards[i] == init[i];
  }

  /** A last card whose raw name is new is the first card of that name. */
  lemma NewNameIsFirst(cards: seq<Card>)
    requires cards != [] && cards[|cards| - 1].img.Some?
    requires RawName(cards[|cards| - 1].img.value) !in SeenNames(cards[..|cards| - 1])
    ensures FirstWithName(cards, |cards| - 1)
  {
    var init := cards[..|cards| - 1];
    SeenNamesMeaning(init, RawName(cards[|cards| - 1].img.value));
    forall j | 0 <= j < |init|
      ensures cards[j] == init[j]
    {
    }
  }

  /** The first card of each raw name is kept. */
  lemma {:induction false} FirstOccurrencesKept(cards: seq<Card>)
    ensures forall i :: FirstWithName(cards, i) ==> cards[i] in KeptCards(cards)
    decreases |cards|
  {
    if cards != [] {
      var init, last := cards[..|cards| - 1], cards[|cards| - 1];
      FirstOccurrencesKept(init);
      forall i | FirstWithName(cards, i)
        ensures cards[i] in KeptCards(cards)
      {
        if i < |init| {
          assert FirstWithName(init, i);
        } else {
          SeenNamesMeaning(init, RawName(last.img.value));
        }
      }
    }
  }

  /** Every kept card is the first card of its raw name. */
  lemma {:induction false} KeptAreFirstOccurrences(cards: seq<Card>)
    ensures forall c :: c in KeptCards(cards) ==> exists i :: FirstWithName(cards, i) && c == cards[i]
    decreases |cards|
  {
    if cards != [] {
      var init, last := cards[..|cards| - 1], cards[|cards| - 1];
      KeptAreFirstOccurrences(init);
      var kept0 := KeptCards(init);
      if last.img.Some? && RawName(last.img.value) !in SeenNames(init) {
        assert KeptCards(cards) == kept0 + [last];
        NewNameIsFirst(cards);
      } else {
        assert KeptCards(cards) == kept0;
      }
      forall c | c in KeptCards(cards)
        ensures exists i :: FirstWithName(cards, i) && c == cards[i]
      {
        if c in kept0 {
          var i :| FirstWithName(init, i) && c == init[i];
          FirstWithNameExtends(cards, i);
          assert c == cards[i];
        } else {
          assert c == cards[|init|];
        }
      }
    }
  }

  /** Two cards whose raw names differ only in a leading space. */
  function SpacedTwins(name: string): seq<Card> {
    [Card(Some("/item-1"), Some(TommyImg(Some("a.jpg"), None, Some(name), None))),
     Card(Some("/item-2"), Some(TommyImg(Some("b.jpg"), None, Some([' '] + name), None)))]
  }

  /** Two cards with images and different raw names are both listed, each
      under its own stripped raw name. */
  lemma BothListed(a: Card, b: Card)
    requires a.img.Some? && b.img.Some? && RawName(a.img.value) != RawName(b.img.value)
    ensures var ps := Listings(KeptCards([a, b]));
      |ps| == 2 && ps[0].name == Strip(RawName(a.img.value)) && ps[1].name == Strip(RawName(b.img.value))
  {
    var cards := [a, b];
    assert cards[..1] == [a] && cards[..1][..0] == [];
    assert SeenNames([a]) == {RawName(a.img.value)};
    assert KeptCards([a]) == [a];
    assert KeptCards(cards) == cards;
    ListingsAt(cards, 0);
    ListingsAt(cards, 1);
  }

  /** The dedup compares raw names but stores stripped ones: a card titled
      " Polo" after one titled "Polo" is listed too, and both listings are
      named "Polo". */
  lemma StrippedNamesCanRepeat(name: string)
    requires name != [] && !IsSpace(name[0]) && !IsSpace(name[|name| - 1])
    ensures var ps := Listings(KeptCards(SpacedTwins(name)));
      |ps| == 2 && ps[0].name == ps[1].name == name
  {
    var cards := SpacedTwins(name);
    assert RawName(cards[0].img.value) == name;
    assert RawName(cards[1].img.value) == [' '] + name;
    assert ([' '] + name)[0] == ' ' != name[0];
    BothListed(cards[0], cards[1]);
    assert cards == [cards[0], cards[1]];
    LeadingSpaceStripped(name);
  }

  /** One leading space makes no difference to the stripped name. */
  lemma LeadingSpaceStripped(s: string)
    requires s != [] && !IsSpace(s[0]) && !IsSpace(s[|s| - 1])
    ensures Strip([' '] + s) == Strip(s) == s
  {
    TrimStartSpace(Python, ' ', s);
    StripUnchanged(Python, s);
  }
}

# productMatcher: the matching and scraping core, in Dafny

productMatcher finds clothing similar to a query photo. Scrapers collect a catalogue of products from shops:
- ASOS and H&M, through a browser;
- Tommy Hilfiger, through a browser;
- any Shopify store and the Fake Store API, through JSON APIs.

The matcher then scores every product image against the query with CLIP. It reranks the best matches so the final list is not made of near-identical items.

This project models the deterministic logic between the external capabilities:

- **Matcher** (`improved_matcher.py`). The reductions that turn a list of cosine similarities into one score:
  - the image score `0.5·max + 0.35·mean + 0.15·min`;
  - the hybrid score `(1−w)·(0.7·max + 0.3·mean) + w·text`;
  - the text boost.

  It also models the greedy diversity reranker. The reranker always keeps the first result, then repeatedly picks the candidate whose score minus a name-overlap penalty is largest.
- **Scroll** (`scraper_asos.py`, `scraper_hm.py`). The counter loop that scrolls a listing page until the number of products has not changed for a number of consecutive scrolls (8 for ASOS, 3 for H&M), or until a cap (200 or 10).
- **Asos**, **Hm**, **Tommy** (`scraper.py`). Post-processing of the records the page hands over:
  - absolute links and `https:` image URLs;
  - dropping records without a usable image;
  - name fallback chains, stripped and cut to 100 characters;
  - Tommy's first-name-wins dedup and its own height-based scroll loop.
- **Shopify** and **FakeStore**:
  - the store-address normalisation, the parsing of a Shopify collection address, the endpoint and the request limit;
  - the item loops that map each API item to a product;
  - the result dictionaries.
- **Text** and **Catalog**. The Python string semantics the scrapers rely on (`strip`, `split`, `replace`, slicing, truthiness, `dict.get`), and the shared product and result records.

The browser and the network are oracles, passed in as inputs:
- A page is a function from the scroll index to the count or height observed after that scroll.
- A page script's result is a sequence of records.
- An HTTP answer is `Option<seq<Item>>`, where `None` stands for a request that raised.
- A cosine similarity is a function parameter.

Each loop of the source is a method. Each method is proved equal to a specification function: `FilterMap`, `Count`, `FirstStop`, `Rerank`, `Listings(KeptCards(...))`. The properties are then proved about those functions.

## Model

| member | source | states |
|---|---|---|
| Matcher.MaxOf | improved_matcher.py:80 | the maximum is an element of the list and bounds every element from above |
| Matcher.MinOf | improved_matcher.py:82 | the minimum is an element of the list and bounds every element from below |
| Matcher.MeanBounds | improved_matcher.py:81 | the mean of a non-empty list lies between its minimum and its maximum |
| Matcher.ImageScoreBounds | improved_matcher.py:80-89 | the weighted image score lies between the minimum and the maximum similarity |
| Matcher.HybridImageScoreBounds | improved_matcher.py:209-213 | `0.7·max + 0.3·mean` lies between the minimum and the maximum similarity |
| Matcher.BlendMonotone | improved_matcher.py:220 | for a text weight of at most 1, a higher image score never gives a lower hybrid score |
| Matcher.HybridScoreBounds | improved_matcher.py:209-220 | the hybrid score lies between the blends of the minimum and of the maximum similarity |
| Matcher.SumPermutation | improved_matcher.py:81 | two lists with the same elements (a multiset) have the same sum |
| Matcher.MaxMinPermutation | improved_matcher.py:80-82 | two lists with the same elements have the same length, maximum and minimum |
| Matcher.ScoresArePermutationInvariant | improved_matcher.py:77-89 | the image score and the hybrid image score do not depend on the order in which similarities were collected |
| Matcher.CrossSimilaritiesShape | improved_matcher.py:72-75 | the nested loops yield one similarity per (query, product) pair, none exactly when one side has no embedding, and every pair's similarity occurs among them |
| Matcher.CollectSimilarities | improved_matcher.py:72-75 | the loop appends exactly the query-major list of similarities |
| Matcher.ComputeAdvancedSimilarity | improved_matcher.py:61-102 | no score when either side has no embedding (numpy's max of an empty array raises); otherwise the image score, or `(1−w)·image score` on the text path, whose text similarity is a placeholder 0 |
| Matcher.ComputeHybridSimilarity | improved_matcher.py:195-222 | no score when either side has no embedding; otherwise `(1−w)·(0.7·max + 0.3·mean) + w·text` over the collected similarities |
| Matcher.MatchWithTextBoost | improved_matcher.py:225-242 | an absent or whitespace-only query leaves the image score unchanged; otherwise the score rises by exactly `boost·text similarity` |
| Matcher.CombinedAtMostScore | improved_matcher.py:164-172 | with a non-negative diversity weight, the combined score never exceeds the similarity score, and it equals it when no name token is shared with a selected item |
| Matcher.NoOverlapNoPenalty | improved_matcher.py:164-169 | a candidate sharing no lowercase token with any selected item has penalty 0 |
| Matcher.FirstMax | improved_matcher.py:156-176 | the index picked is a maximum of the combined scores, and every earlier index scores strictly less (the strict `>` tie-break) |
| Matcher.FirstMaxUnique | improved_matcher.py:174-176 | only one index has that property, so the pick is determined by the scores |
| Matcher.DiversityPenalty | improved_matcher.py:164-169 | the inner loop computes the sum over the selected items of the shared-token count divided by 10 |
| Matcher.CombinedScore | improved_matcher.py:161-172 | the combined score is the similarity score minus the weight times that penalty |
| Matcher.BestCandidate | improved_matcher.py:156-176 | the scan returns the first index of maximum combined score among the remaining candidates |
| Matcher.GreedyPicksBest | improved_matcher.py:155-178 | while fewer than `top_k` items are selected and candidates remain, the next selected item is the first best candidate, removed from the remaining ones |
| Matcher.GreedyLength | improved_matcher.py:155 | the greedy phase stops at `top_k` selected items or when no candidate remains |
| Matcher.GreedyKeepsSelected | improved_matcher.py:149-178 | items already selected stay at the head of the result, in order |
| Matcher.GreedySubMultiset | improved_matcher.py:150-178 | the greedy phase only moves items from the remaining list to the selected one |
| Matcher.RerankShape | improved_matcher.py:146-178 | the input comes back unchanged when it has at most `top_k` items. Otherwise the result has `max(top_k, 1)` items, starts with `results[0]` and is a sub-multiset of the input. Only an empty input with a negative `top_k` fails (the `pop(0)` of an empty list) |
| Matcher.RerankDistinct | improved_matcher.py:150-178 | an input without repeated items gives an output without repeated items |
| Matcher.RerankWithDiversity | improved_matcher.py:141-180 | the imperative reranker over a copied list computes `Rerank` |
| Scroll.Streak | scraper_asos.py:84-95 | the no-change counter is 0 exactly after an observation that differs from the previous count, and is at most the number of observations |
| Scroll.StreakMeaning | scraper_asos.py:84-95 | the counter has reached k exactly when each of the last k observations repeated the count before it |
| Scroll.FirstStop | scraper_asos.py:97-101 | the stopping observation is within bounds, has a counter at the patience, and no earlier observation has |
| Scroll.FirstStopIsFirst | scraper_asos.py:97-101 | any index with those properties is the stopping observation |
| Scroll.ScrollUntilStable | scraper_asos.py:71-104 | the loop performs at most `max_scrolls` scrolls. It breaks exactly when the counter reaches the patience before the cap, and then it has scrolled once more than the stopping index |
| Scroll.StallWithinPatience | scraper_hm.py:117-147 | a page whose count stops changing from scroll s on makes the loop stop by stalling within `s + patience` scrolls, if the cap allows |
| Catalog.Get | scraper_shopify.py:74-75 | `dict.get` with a default: an absent key gives the default, a string gives itself, a JSON `null` gives `None` |
| Catalog.EmptyResult | scraper_asos.py:53 | the result of a failed navigation or request has no products and both counts 0 |
| Catalog.AbsoluteLinkProperties | scraper_asos.py:213-214 | the link text is kept at the end, a non-empty result no longer starts with `/`, and applying the prefix twice changes nothing |
| Catalog.HttpsImageProperties | scraper_asos.py:217-218 | the result never starts with `//`, is the URL or `https:` + URL, is empty only for an empty URL, and the fix is idempotent |
| Catalog.CleanNameProperties | scraper_asos.py:232-238 | a stored name is a prefix of the stripped name: all of it when it has at most 100 characters, exactly its first 100 otherwise; it does not start with whitespace |
| Catalog.FilterMap | scraper_asos.py:202-242 | the products built from a list of records are never more than the records |
| Catalog.FilterMapAppend | scraper_fakestore_api.py:156-161 | mapping two feeds one after the other gives the concatenation of their products, in feed order |
| Catalog.FilterMapMembers | scraper_asos.py:202-242 | every product comes from some record, and every accepted record's product is present |
| Catalog.FilterMapPlusSkipped | scraper_asos.py:202-255 | emitted plus skipped records add up to all records |
| Asos.ExtractMeaning | scraper_asos.py:204-242 | a container is emitted exactly when its link is truthy and its image is truthy and not a `data:` URL. The product then has the absolute link, the `https:` image, the stripped `alt` text (or "Unnamed Product") cut to 100 characters, and no price |
| Asos.ProcessContainers | scraper_asos.py:198-255 | the loop emits exactly the accepted containers' products in order, and each skip counter counts exactly its containers |
| Asos.SkipAccounting | scraper_asos.py:198-230 | products plus skipped containers are all containers, and `skipped_no_url + skipped_placeholder <= skipped_count` |
| Asos.ScrapeAsos | scraper_asos.py:47-286 | a failed navigation gives the empty result. Otherwise the scroll count is the stopping index + 1, or 200, and the products are those of the containers. `total_cards` is the number of containers and `unique_products == len(products) <= total_cards` |
| Hm.SrcsetFirstUrlProperties | scraper_hm.py:186 | the URL taken from a `srcset` holds no space, and for `url descriptor, ...` it is `url` |
| Hm.ImageSourceMeaning | scraper_hm.py:186 | the image source is `src`, else the first `srcset` URL, else `data-src`, else `''` |
| Hm.NameOfMeaning | scraper_hm.py:189 | the name is `alt`, else the link's `title`, else its `aria-label`, else "Unnamed Product" |
| Hm.CollectRecords | scraper_hm.py:165-206 | the page script pushes one record per article with a link and an image, in document order, with the `/` link made absolute |
| Hm.PythonPrefixIsRedundant | scraper_hm.py:239-240 | a link coming out of the page script is already absolute, so the Python loop's prefixing leaves it unchanged |
| Hm.ExtractMeaning | scraper_hm.py:232-256 | a record is skipped exactly when its image, after the `//` fix, is empty or a `data:` URL. A kept one has the stripped name cut to 100 characters, the fixed image and no price |
| Hm.ProcessRecords | scraper_hm.py:230-268 | the loop emits exactly the kept records' products in order, and `skipped_count` counts the others |
| Hm.SkipAccounting | scraper_hm.py:230-268 | products plus skipped records are all records |
| Hm.ScrapeHm | scraper_hm.py:44-296 | a failed navigation gives the empty result. Otherwise it scrolls at most 10 times with patience 3. `total_cards` is the number of records the script produced, and `unique_products == len(products) <= total_cards` |
| Shopify.NormalizeStore | scraper_shopify.py:31 | the normalised store holds no `/` |
| Shopify.NormalizeStoreIdempotent | scraper_shopify.py:31 | normalising a normalised store changes nothing, so the store `scrape_shopify_url` passes on survives the second normalisation |
| Shopify.StripSchemesOfUrl | scraper_shopify.py:31 | for `scheme + host + path` (scheme `https://`, `http://` or none; host without `/` and not ending in `:`, so a port such as `:8443` is allowed; path empty or starting with `/`) the scheme is removed, the host is kept in front, and what is left of the path is empty or starts with `/` |
| Shopify.NormalizeStoreOfUrl | scraper_shopify.py:31 | the store of `scheme + host + path` is exactly the host, for any host without `/` that does not end in `:` (ports included) and a path that is empty or starts with `/` |
| Shopify.StripSchemesOfBare | scraper_shopify.py:31 | removing the schemes from an optional scheme followed by a text without `/` leaves exactly that text |
| Shopify.StripSchemesOfPath | scraper_shopify.py:31 | removing the schemes from an optional scheme, a store without `/` (any `:` allowed) and a `:`-free path starting with a single `/` leaves exactly store and path |
| Shopify.RequestLimit | scraper_shopify.py:51 | the limit is `min(max_products, 250)`: at most both, and equal to one of them |
| Shopify.ParseShopifyUrl | scraper_shopify.py:190-193 | the store read from an address is its normalised store |
| Shopify.ParseBareStore | scraper_shopify.py:190-194 | an address that is an optional scheme and a store without `/` (a port allowed) gives that store and the `womens` collection |
| Shopify.ParseCollectionUrl | scraper_shopify.py:190-200 | `scheme + store/collections/c + path` gives store and collection `c` for any store without `/` other than `collections` (a port allowed), a collection without `/` or `:`, and a path without `:` that is empty or starts with `/` |
| Shopify.EndpointRoundTrip | scraper_shopify.py:45-48 | parsing the endpoint built for a store without `/` (a port allowed) and a collection other than `all` gives that store and collection back, and the endpoint normalises back to the store |
| Shopify.ProductUrlStore | scraper_shopify.py:31-76 | for every store domain without `/` (a port such as `shop.example.com:8443` included), normalising the product link `https://store/products/handle` gives the store back |
| Shopify.ExtractMeaning | scraper_shopify.py:71-111 | an item is kept exactly when its first image has a truthy `src` and its title is not `null`. The product then has that image, a name that is exactly the first 100 characters of the title (all of it when shorter), the link `https://{store}/products/{handle}` (handle empty when the key is missing, `None` when it is `null`), which normalises back to the store for every store domain without `/` (ports included), and `$` + price exactly when the first variant's price is truthy |
| Shopify.ProcessItems | scraper_shopify.py:71-111 | the loop emits exactly the kept items' products, in feed order |
| Shopify.ScrapeShopifyCollection | scraper_shopify.py:13-145 | the request goes to the endpoint of the normalised store with limit `min(max, 250)`. A failed request gives the empty result; otherwise every count equals the number of products |
| Shopify.ScrapeShopifyUrl | scraper_shopify.py:180-210 | the request is for the parsed store and collection with limit 50, and the products are those of that store's extraction |
| FakeStore.ProductLinkId | scraper_fakestore_api.py:71-72 | a product link is the products path followed by the id's decimal digits, and those digits read back as the id |
| FakeStore.ProductLinkInjective | scraper_fakestore_api.py:71-72 | different ids give different links |
| FakeStore.ExtractMeaning | scraper_fakestore_api.py:61-95 | an item is kept exactly when its image is truthy and neither title nor description is `null`. The product then has that image, a name that is exactly the first 100 characters of the title (all of it when shorter), the link `https://fakestoreapi.com/products/` followed by the id's decimal digits (which read back as the id) or by `None` when the id is missing, and `$` + price exactly when the price is present and not 0 |
| FakeStore.ProcessItems | scraper_fakestore_api.py:61-95 | the loop emits exactly the kept items' products, in feed order |
| FakeStore.ScrapeFakestoreApi | scraper_fakestore_api.py:13-129 | the request goes to the category's address. A failed request gives the empty result; otherwise `total_cards == unique_products == len(products)` |
| FakeStore.ScrapeAllClothing | scraper_fakestore_api.py:149-169 | the women's products come first, then the men's, and both counts equal the combined length |
| Tommy.ScrollUntilHeightStable | scraper.py:33-40 | the loop stops at the first observation equal to the one before it, after at least two scrolls |
| Tommy.CardLinkProperties | scraper.py:48-50 | a truthy link ends up starting with `http`, one already starting with `http` is kept, a missing one stays missing, and the prefixing is idempotent |
| Tommy.KeptCards | scraper.py:52-60 | the kept cards are no more than the cards, and each has an image |
| Tommy.ScrapeCards | scraper.py:46-67 | the card loop lists exactly the kept cards, in order, as stripped name, link and `src or data-src` |
| Tommy.ScrapeUsTommy | scraper.py:13-72 | the listings are those of the kept cards, after a scroll loop that stopped at the first repeated height |
| Tommy.SeenNamesMeaning | scraper.py:59-60 | a name is in `seen_names` exactly when some card with an image carries it as raw name |
| Tommy.KeptCountsNames | scraper.py:59-65 | every listed card's raw name was seen, and there are exactly as many listings as distinct raw names |
| Tommy.KeptRawNamesDistinct | scraper.py:59-65 | no two listed cards share a raw name |
| Tommy.FirstOccurrencesKept | scraper.py:59-65 | the first card with an image of each raw name is listed |
| Tommy.KeptAreFirstOccurrences | scraper.py:59-65 | every listed card is the first card with an image of its raw name |
| Tommy.BothListed | scraper.py:59-65 | two cards with images and different raw names are both listed, in order, each under its own stripped raw name |
| Tommy.StrippedNamesCanRepeat | scraper.py:59-62 | for any name without whitespace at either end, cards titled `name` and `" " + name` are both listed, and both under the stored name `name` |

## Left out

- The browser (Playwright navigation, clicks, `wait_for_selector`, cookie and popup dismissal) and the network (`requests.get`, `raise_for_status`, `.json()`) are inputs. A failed navigation is a `pageLoaded` flag; a failed request is a `None` response.
- An exception raised after navigation in the ASOS and H&M scrapers is not modelled. That is the outer `except` at scraper_asos.py:277-280 and scraper_hm.py:287-290, which returns whatever was collected so far.
- `time.sleep`, `print` and `progress_callback` calls are not modelled; they do not affect results.
- Floating point: similarities, weights and scores are mathematical reals. Rounding, NaN and infinities are not modelled. The reranker's `-inf` starting best score is `None`, below every real score.
- CLIP, torch and PIL are foreign model calls: `get_multi_scale_embeddings`, `get_text_embedding`, encoding, and `extract_color_features`/`color_similarity_boost`. A cosine similarity is a function parameter, and a text similarity a real input.
- app.py (Flask routes, server-sent progress), the global `progress_data` and its lock, and debug_scroll.py, debug_hm.py and test_workflow.py are not part of this model.
- The ASOS embedded-JSON probe (scraper_asos.py:114-147) is not modelled; its result is only printed.
- The page script's `Set`/`JSON.stringify` container dedup (scraper_asos.py:152-178) is not modelled; its output is the input sequence of containers.
- The second, slow scroll pass of the H&M scraper (scraper_hm.py:149-157) is not modelled; it only moves the page.
- Case mapping is ASCII: `lower` maps only `A`–`Z`; Unicode case mappings are not modelled. Whitespace is not simplified: `strip` and `split` use the characters for which Python's `str.isspace` holds (including U+001C–U+001F and U+0085), and the H&M page script's `trim` uses JavaScript's WhiteSpace and LineTerminator set (which has U+FEFF and lacks those five).
- Per-item exceptions are modelled only where a JSON `null` is sliced: a null title (Shopify, Fake Store) or a null description (Fake Store). A non-object item, a null element in `images` or `variants`, or a non-string field are not modelled.
- The Fake Store description is truncated to 200 characters and never used, so only its `null` case is modelled. A price is rendered through the text Python's `str()` gives it, which is an input.
- StripSchemesOfUrl: a host ending in `:` (an empty port, as in `shop:`) is not covered, because there `https:` or `http:` at the end of the host followed by a path starting `//` is a scheme the removal takes out; ParseCollectionUrl and EndpointRoundTrip cover such stores for their paths.
- NormalizeStoreOfUrl: the same host ending in `:` is not covered, for the same reason.
- Tommy.ScrollUntilHeightStable: the source loop has no cap and runs forever on a page whose height never repeats. The method therefore requires a repeat somewhere in the oracle and does not model the non-terminating case.
- The ASOS and H&M scroll loops take the page counts as a total function: every scroll gets an answer.
- Matcher.ComputeAdvancedSimilarity: `clip.tokenize` on the text path is not modelled; only its effect on the score, the placeholder text similarity 0, is kept.
- The code is followed where it differs from the project's own description of it:
  - the reranker's first pick is `results[0]`, not necessarily the best score;
  - the Shopify item count is only passed to the API as `limit`, and the products are not truncated to `max_products`;
  - the scheme removal deletes every `https://` and `http://` in the address, not only a leading one.

/** The matching side of improved_matcher.py: reducing a list of
    cosine similarities to one score (image-only and hybrid), the optional
    text boost, and the greedy diversity reranker. Similarities and weights
    are real numbers; the cosine similarity of two embeddings and the text
    similarity computed by the embedding model are given, not computed. */
module Matcher {
  import opened Text
  import opened Catalog

  /** One scored candidate: `{"product": ..., "score": ...}`. */
  datatype MatchResult = MatchResult(product: Product, score: real)

  // ---------------------------------------------------------------------
  // Score reductions
  // ---------------------------------------------------------------------

  /** `np.max`. */
  function MaxOf(s: seq<real>): (m: real)
    requires |s| > 0
    ensures m in s
    ensures forall i :: 0 <= i < |s| ==> s[i] <= m
  {
    if |s| == 1 then s[0]
    else
      var m := MaxOf(s[1..]);
      if s[0] > m then s[0] else m
  }

  /** `np.min`. */
  function MinOf(s: seq<real>): (m: real)
    requires |s| > 0
    ensures m in s
    ensures forall i :: 0 <= i < |s| ==> m <= s[i]
  {
    if |s| == 1 then s[0]
    else
      var m := MinOf(s[1..]);
      if s[0] < m then s[0] else m
  }

  function Sum(s: seq<real>): real {
    if s == [] then 0.0 else s[0] + Sum(s[1..])
  }

  /** `np.mean`. */
  function Mean(s: seq<real>): real
    requires |s| > 0
  {
    Sum(s) / (|s| as real)
  }

  /** The image-only score of `compute_advanced_similarity`. */
  function ImageScore(s: seq<real>): real
    requires |s| > 0
  {
    0.5 * MaxOf(s) + 0.35 * Mean(s) + 0.15 * MinOf(s)
  }

  /** The image part of `compute_hybrid_similarity`. */
  function HybridImageScore(s: seq<real>): real
    requires |s| > 0
  {
    0.7 * MaxOf(s) + 0.3 * Mean(s)
  }

  /** `(1 - text_weight) * image_score + text_weight * text_sim`. */
  function Blend(imageScore: real, textSim: real, textWeight: real): real {
    (1.0 - textWeight) * imageScore + textWeight * textSim
  }

  lemma {:induction false} SumBounds(s: seq<real>, lo: real, hi: real)
    requires forall i :: 0 <= i < |s| ==> lo <= s[i] <= hi
    ensures (|s| as real) * lo <= Sum(s) <= (|s| as real) * hi
  {
    if s != [] {
      SumBounds(s[1..], lo, hi);
      assert (|s| as real) * lo == lo + (|s[1..]| as real) * lo;
      assert (|s| as real) * hi == hi + (|s[1..]| as real) * hi;
    }
  }

  lemma DivideBounds(total: real, n: real, lo: real, hi: real)
    requires n > 0.0 && n * lo <= total <= n * hi
    ensures lo <= total / n <= hi
  {
    var q := total / n;
    assert q * n == total;
  }

  lemma MeanBetween(s: seq<real>, lo: real, hi: real)
    requires |s| > 0
    requires forall i :: 0 <= i < |s| ==> lo <= s[i] <= hi
    ensures lo <= Mean(s) <= hi
  {
    var n := |s| as real;
    SumBounds(s, lo, hi);
    DivideBounds(Sum(s), n, lo, hi);
  }

  /** The mean lies between the minimum and the maximum. */
  lemma MeanBounds(s: seq<real>)
    requires |s| > 0
    ensures MinOf(s) <= Mean(s) <= MaxOf(s)
  {
    MeanBetween(s, MinOf(s), MaxOf(s));
  }

  /** The image-only score is a weighted average of max, mean and min, so it
      lies between the smallest and the largest similarity. */
  lemma ImageScoreBounds(s: seq<real>)
    requires |s| > 0
    ensures MinOf(s) <= ImageScore(s) <= MaxOf(s)
  {
    MeanBounds(s);
  }

  /** The same holds of the image part of the hybrid score. */
  lemma HybridImageScoreBounds(s: seq<real>)
    requires |s| > 0
    ensures MinOf(s) <= HybridImageScore(s) <= MaxOf(s)
  {
    MeanBounds(s);
  }

  lemma BlendMonotone(a: real, b: real, textSim: real, textWeight: real)
    requires a <= b && textWeight <= 1.0
    ensures Blend(a, textSim, textWeight) <= Blend(b, textSim, textWeight)
  {
    var k := 1.0 - textWeight;
    assert k * b - k * a == k * (b - a);
  }

  /** With a text weight in [0, 1], the hybrid score lies between the blends
      of the text similarity with the smallest and the largest image
      similarity. */
  lemma HybridScoreBounds(s: seq<real>, textSim: real, textWeight: real)
    requires |s| > 0 && 0.0 <= textWeight <= 1.0
    ensures Blend(MinOf(s), textSim, textWeight) <= Blend(HybridImageScore(s), textSim, textWeight)
    ensures Blend(HybridImageScore(s), textSim, textWeight) <= Blend(MaxOf(s), textSim, textWeight)
  {
    HybridImageScoreBounds(s);
    BlendMonotone(MinOf(s), HybridImageScore(s), textSim, textWeight);
    BlendMonotone(HybridImageScore(s), MaxOf(s), textSim, textWeight);
  }

  function Remove<T>(s: seq<T>, k: nat): (r: seq<T>)
    requires k < |s|
    ensures |r| == |s| - 1
    ensures multiset(r) + multiset{s[k]} == multiset(s)
  {
    assert s == s[..k] + [s[k]] + s[k + 1..];
    s[..k] + s[k + 1..]
  }

  lemma {:induction false} SumRemove(s: seq<real>, k: nat)
    requires k < |s|
    ensures Sum(s) == s[k] + Sum(Remove(s, k))
  {
    if k > 0 {
      SumRemove(s[1..], k - 1);
      var rest := Remove(s[1..], k - 1);
      assert Remove(s, k) == [s[0]] + rest;
      assert ([s[0]] + rest)[1..] == rest;
    } else {
      assert Remove(s, k) == s[1..];
    }
  }

  /** Taking equal values out of two permutations of each other leaves
      permutations of each other. */
  lemma RemoveMatching(a: seq<real>, b: seq<real>, k: nat)
    requires a != [] && k < |b| && b[k] == a[0] && multiset(a) == multiset(b)
    ensures multiset(a[1..]) == multiset(Remove(b, k))
  {
    assert a == [a[0]] + a[1..];
    assert multiset(a[1..]) == multiset(a) - multiset{a[0]};
    assert multiset(Remove(b, k)) == multiset(b) - multiset{b[k]};
  }

  /** The sum depends only on the multiset of values. */
  lemma {:induction false} SumPermutation(a: seq<real>, b: seq<real>)
    requires multiset(a) == multiset(b)
    ensures Sum(a) == Sum(b)
    decreases |a|
  {
    if a != [] {
      assert a[0] in multiset(b);
      var k :| 0 <= k < |b| && b[k] == a[0];
      SumRemove(b, k);
      RemoveMatching(a, b, k);
      SumPermutation(a[1..], Remove(b, k));
    } else {
      assert |b| == |multiset(b)|;
    }
  }

  lemma MaxMinPermutation(a: seq<real>, b: seq<real>)
    requires |a| > 0 && multiset(a) == multiset(b)
    ensures |a| == |b| && MaxOf(a) == MaxOf(b) && MinOf(a) == MinOf(b)
  {
    assert |a| == |multiset(a)| == |b|;
    assert MaxOf(a) in multiset(b) && MaxOf(b) in multiset(a);
    assert MinOf(a) in multiset(b) && MinOf(b) in multiset(a);
  }

  /** Both reductions are order-independent: reordering the similarities
      (for instance by enumerating the variants in another order) leaves
      the scores unchanged. */
  lemma ScoresArePermutationInvariant(a: seq<real>, b: seq<real>)
    requires |a| > 0 && multiset(a) == multiset(b)
    ensures |b| > 0
    ensures ImageScore(a) == ImageScore(b)
    ensures HybridImageScore(a) == HybridImageScore(b)
  {
    MaxMinPermutation(a, b);
    SumPermutation(a, b);
  }

  // ---------------------------------------------------------------------
  // The similarity list and the two scoring entry points
  // ---------------------------------------------------------------------

  /** Similarities of one query variant against every product variant. */
  function Row<Q, P>(q: Q, products: seq<P>, cosine: (Q, P) -> real): (r: seq<real>)
    ensures |r| == |products|
    ensures forall j :: 0 <= j < |products| ==> r[j] == cosine(q, products[j])
  {
    seq(|products|, j requires 0 <= j < |products| => cosine(q, products[j]))
  }

  /** The list built by the nested loops: row by row, one row per query
      variant. */
  function CrossSimilarities<Q, P>(queries: seq<Q>, products: seq<P>, cosine: (Q, P) -> real): seq<real>
    decreases |queries|
  {
    if queries == [] then []
    else CrossSimilarities(queries[..|queries| - 1], products, cosine) + Row(queries[|queries| - 1], products, cosine)
  }

  /** The list holds one entry per (query, product) pair, each the cosine of
      that pair; it is empty exactly when one side is. */
  lemma {:induction false} CrossSimilaritiesShape<Q, P>(queries: seq<Q>, products: seq<P>, cosine: (Q, P) -> real)
    ensures var s := CrossSimilarities(queries, products, cosine);
      |s| == |queries| * |products| &&
      (s == [] <==> queries == [] || products == []) &&
      forall i, j :: 0 <= i < |queries| && 0 <= j < |products| ==> cosine(queries[i], products[j]) in s
    decreases |queries|
  {
    if queries != [] {
      var init := queries[..|queries| - 1];
      CrossSimilaritiesShape(init, products, cosine);
      var s := CrossSimilarities(queries, products, cosine);
      assert |s| == |init| * |products| + |products|;
      forall i, j | 0 <= i < |queries| && 0 <= j < |products|
        ensures cosine(queries[i], products[j]) in s
      {
        if i < |queries| - 1 {
          assert queries[i] == init[i];
        } else {
          assert Row(queries[i], products, cosine)[j] == cosine(queries[i], products[j]);
        }
      }
    }
  }

  /** The nested loops collecting `torch.cosine_similarity(q_emb, p_emb)`. */
  method CollectSimilarities<Q, P>(queries: seq<Q>, products: seq<P>, cosine: (Q, P) -> real)
    returns (sims: seq<real>)
    ensures sims == CrossSimilarities(queries, products, cosine)
  {
    sims := [];
    for i := 0 to |queries|
      invariant sims == CrossSimilarities(queries[..i], products, cosine)
    {
      for j := 0 to |products|
        invariant sims == CrossSimilarities(queries[..i], products, cosine) + Row(queries[i], products[..j], cosine)
      {
        sims := sims + [cosine(queries[i], products[j])];
      }
      assert products[..|products|] == products;
      assert queries[..i + 1][..i] == queries[..i];
    }
    assert queries[..|queries|] == queries;
  }

  /** `compute_advanced_similarity`. `None` stands for the error numpy raises
      when the similarity list is empty. When a query text embedding is
      given and the product name is non-empty, the text similarity is the
      placeholder 0, so the score is the image score scaled by
      `1 - textWeight`. */
  method ComputeAdvancedSimilarity<Q, P>(queries: seq<Q>, products: seq<P>, cosine: (Q, P) -> real,
                                          queryTextGiven: bool, productName: string, textWeight: real)
    returns (score: Option<real>)
    ensures score.None? <==> queries == [] || products == []
    ensures score.Some? ==>
      var s := CrossSimilarities(queries, products, cosine);
      |s| > 0 &&
      score.value == if queryTextGiven && productName != "" then (1.0 - textWeight) * ImageScore(s) else ImageScore(s)
  {
    var similarities := CollectSimilarities(queries, products, cosine);
    CrossSimilaritiesShape(queries, products, cosine);
    if similarities == [] {
      return None;
    }
    var imageScore := ImageScore(similarities);
    if queryTextGiven && productName != "" {
      var textSim := 0.0;
      score := Some(Blend(imageScore, textSim, textWeight));
    } else {
      score := Some(imageScore);
    }
  }

  /** `compute_hybrid_similarity`; `textSim` is the cosine similarity of the
      query text embedding and the product-name embedding. */
  method ComputeHybridSimilarity<Q, P>(queries: seq<Q>, products: seq<P>, cosine: (Q, P) -> real,
                                        textSim: real, textWeight: real)
    returns (score: Option<real>)
    ensures score.None? <==> queries == [] || products == []
    ensures score.Some? ==>
      var s := CrossSimilarities(queries, products, cosine);
      |s| > 0 && score.value == Blend(HybridImageScore(s), textSim, textWeight)
  {
    var similarities := CollectSimilarities(queries, products, cosine);
    CrossSimilaritiesShape(queries, products, cosine);
    if similarities == [] {
      return None;
    }
    var imageScore := HybridImageScore(similarities);
    score := Some(Blend(imageScore, textSim, textWeight));
  }

  /** `match_with_text_boost`: a missing, empty or all-whitespace query text
      leaves the image score as it is; otherwise the text similarity, scaled
      by the boost weight, is added. */
  function MatchWithTextBoost(imageScore: real, queryText: Option<string>, textSim: real, boostWeight: real): (r: real)
    ensures queryText.None? || AllSpace(queryText.value) ==> r == imageScore
    ensures queryText.Some? && !AllSpace(queryText.value) ==> r - imageScore == boostWeight * textSim
  {
    if !Truthy(queryText) || Strip(queryText.value) == [] then
      if queryText.Some? then StripEmptyIffBlank(queryText.value); imageScore else imageScore
    else
      StripEmptyIffBlank(queryText.value);
      imageScore + boostWeight * textSim
  }

  // ---------------------------------------------------------------------
  // Diversity reranking
  // ---------------------------------------------------------------------

  /** `set(name.lower().split())`. */
  function Tokens(name: string): set<string> {
    set w | w in Words(Lower(name))
  }

  /** Number of lower-cased whitespace tokens two names share. */
  function NameOverlap(a: string, b: string): nat {
    |Tokens(a) * Tokens(b)|
  }

  /** What one selected item adds to the penalty: the shared tokens divided by 10. */
  function Share(candidate: MatchResult, other: MatchResult): (p: real)
    ensures p >= 0.0
  {
    (NameOverlap(candidate.product.name, other.product.name) as real) / 10.0
  }

  /** `diversity_penalty`: the shares of the selected items, summed. */
  function Penalty(candidate: MatchResult, selected: seq<MatchResult>): (p: real)
    ensures p >= 0.0
    ensures selected == [] ==> p == 0.0
    decreases |selected|
  {
    if selected == [] then 0.0
    else Penalty(candidate, selected[..|selected| - 1]) + Share(candidate, selected[|selected| - 1])
  }

  /** `sim_score - diversity_weight * diversity_penalty`. */
  function Adjusted(simScore: real, penalty: real, weight: real): real {
    simScore - weight * penalty
  }

  /** The score the inner loop compares for one candidate. */
  function Combined(candidate: MatchResult, selected: seq<MatchResult>, weight: real): real {
    Adjusted(candidate.score, Penalty(candidate, selected), weight)
  }

  /** With a non-negative weight the penalty can only lower a candidate's
      score, and a candidate sharing no token with any selected item keeps
      its similarity score. */
  lemma {:induction false} CombinedAtMostScore(candidate: MatchResult, selected: seq<MatchResult>, weight: real)
    requires weight >= 0.0
    ensures Combined(candidate, selected, weight) <= candidate.score
    ensures (forall i :: 0 <= i < |selected| ==> NameOverlap(candidate.product.name, selected[i].product.name) == 0) ==>
      Combined(candidate, selected, weight) == candidate.score
  {
    var p := Penalty(candidate, selected);
    assert weight * p >= 0.0;
    if forall i :: 0 <= i < |selected| ==> NameOverlap(candidate.product.name, selected[i].product.name) == 0 {
      NoOverlapNoPenalty(candidate, selected);
    }
  }

  lemma {:induction false} NoOverlapNoPenalty(candidate: MatchResult, selected: seq<MatchResult>)
    requires forall i :: 0 <= i < |selected| ==> NameOverlap(candidate.product.name, selected[i].product.name) == 0
    ensures Penalty(candidate, selected) == 0.0
    decreases |selected|
  {
    if selected != [] {
      NoOverlapNoPenalty(candidate, selected[..|selected| - 1]);
    }
  }

  /** The combined score of every remaining candidate, in pool order. */
  function CombinedScores(remaining: seq<MatchResult>, selected: seq<MatchResult>, weight: real): (cs: seq<real>)
    ensures |cs| == |remaining|
    decreases |remaining|
  {
    if remaining == [] then []
    else
      CombinedScores(remaining[..|remaining| - 1], selected, weight) +
        [Combined(remaining[|remaining| - 1], selected, weight)]
  }

  /** Entry j of the score list is candidate j's combined score. */
  lemma {:induction false} CombinedScoresAt(remaining: seq<MatchResult>, selected: seq<MatchResult>, weight: real, j: nat)
    requires j < |remaining|
    ensures CombinedScores(remaining, selected, weight)[j] == Combined(remaining[j], selected, weight)
    decreases |remaining|
  {
    if j < |remaining| - 1 {
      CombinedScoresAt(remaining[..|remaining| - 1], selected, weight, j);
    }
  }

  /** Index k holds a maximum of `xs`, and every earlier entry is strictly
      smaller: the strict `>` of the loop keeps the first maximum. */
  predicate IsFirstMax(xs: seq<real>, k: nat) {
    k < |xs| &&
    (forall j :: 0 <= j < |xs| ==> xs[j] <= xs[k]) &&
    (forall j :: 0 <= j < k ==> xs[j] < xs[k])
  }

  function FirstMax(xs: seq<real>): (k: nat)
    requires |xs| > 0
    ensures IsFirstMax(xs, k)
    decreases |xs|
  {
    if |xs| == 1 then 0
    else
      var k := FirstMax(xs[..|xs| - 1]);
      if xs[|xs| - 1] > xs[k] then |xs| - 1 else k
  }

  /** Only one index is the first maximum. */
  lemma FirstMaxUnique(xs: seq<real>, k: nat)
    requires IsFirstMax(xs, k)
    ensures k == FirstMax(xs)
  {
  }

  /** The candidate the inner `for` loop picks. */
  function FirstBest(remaining: seq<MatchResult>, selected: seq<MatchResult>, weight: real): (k: nat)
    requires |remaining| > 0
    ensures k < |remaining|
  {
    FirstMax(CombinedScores(remaining, selected, weight))
  }

  /** The outer `while` loop: keep picking the first best remaining
      candidate until `topK` are selected or none remain. */
  function Greedy(selected: seq<MatchResult>, remaining: seq<MatchResult>, topK: int, weight: real): seq<MatchResult>
    decreases |remaining|
  {
    if |selected| < topK && remaining != [] then
      var k := FirstBest(remaining, selected, weight);
      Greedy(selected + [remaining[k]], Remove(remaining, k), topK, weight)
    else selected
  }

  /** `rerank_with_diversity`. `None` stands for the IndexError of
      `remaining.pop(0)`, raised only for an empty list with a negative
      `top_k`. */
  function Rerank(results: seq<MatchResult>, topK: int, weight: real): Option<seq<MatchResult>> {
    if |results| <= topK then Some(results)
    else if results == [] then None
    else Some(Greedy([results[0]], results[1..], topK, weight))
  }

  lemma {:induction false} GreedyLength(selected: seq<MatchResult>, remaining: seq<MatchResult>, topK: int, weight: real)
    ensures |Greedy(selected, remaining, topK, weight)| ==
      (if |selected| >= topK then |selected|
       else if |selected| + |remaining| <= topK then |selected| + |remaining| else topK)
    decreases |remaining|
  {
    if |selected| < topK && remaining != [] {
      var k := FirstBest(remaining, selected, weight);
      GreedyLength(selected + [remaining[k]], Remove(remaining, k), topK, weight);
    }
  }

  lemma {:induction false} GreedyKeepsSelected(selected: seq<MatchResult>, remaining: seq<MatchResult>, topK: int, weight: real)
    ensures var g := Greedy(selected, remaining, topK, weight);
      |selected| <= |g| && g[..|selected|] == selected
    decreases |remaining|
  {
    if |selected| < topK && remaining != [] {
      var k := FirstBest(remaining, selected, weight);
      var sel' := selected + [remaining[k]];
      GreedyKeepsSelected(sel', Remove(remaining, k), topK, weight);
      var g := Greedy(selected, remaining, topK, weight);
      assert g[..|selected|] == g[..|sel'|][..|selected|];
    }
  }

  lemma {:induction false} GreedySubMultiset(selected: seq<MatchResult>, remaining: seq<MatchResult>, topK: int, weight: real)
    ensures multiset(Greedy(selected, remaining, topK, weight)) <= multiset(selected) + multiset(remaining)
    decreases |remaining|
  {
    if |selected| < topK && remaining != [] {
      var k := FirstBest(remaining, selected, weight);
      var sel' := selected + [remaining[k]];
      GreedySubMultiset(sel', Remove(remaining, k), topK, weight);
      assert multiset(sel') == multiset(selected) + multiset{remaining[k]};
    }
  }

  /** What the reranker returns: the input itself when it is no longer than
      `topK`; otherwise `max(topK, 1)` items, headed by the first input item
      (whatever its score), none taken more often than the input holds it. */
  lemma RerankShape(results: seq<MatchResult>, topK: int, weight: real)
    ensures Rerank(results, topK, weight).None? <==> results == [] && topK < 0
    ensures |results| <= topK ==> Rerank(results, topK, weight) == Some(results)
    ensures |results| > topK && results != [] ==>
      var r := Rerank(results, topK, weight).value;
      |r| == (if topK >= 1 then topK else 1) && r[0] == results[0] && multiset(r) <= multiset(results)
  {
    if |results| > topK && results != [] {
      GreedyLength([results[0]], results[1..], topK, weight);
      GreedyKeepsSelected([results[0]], results[1..], topK, weight);
      GreedySubMultiset([results[0]], results[1..], topK, weight);
      assert results == [results[0]] + results[1..];
    }
  }

  predicate Distinct<T(==)>(s: seq<T>) {
    forall i, j :: 0 <= i < j < |s| ==> s[i] != s[j]
  }

  lemma {:induction false} DistinctMultiplicity<T>(s: seq<T>, x: T)
    requires Distinct(s)
    ensures multiset(s)[x] <= 1
  {
    if s != [] {
      DistinctMultiplicity(s[1..], x);
      assert s == [s[0]] + s[1..];
      if s[0] == x {
        assert x !in s[1..];
      }
    }
  }

  lemma RepeatedMultiplicity<T>(s: seq<T>, i: nat, j: nat)
    requires i < j < |s| && s[i] == s[j]
    ensures multiset(s)[s[i]] >= 2
  {
    assert s == s[..j] + [s[j]] + s[j + 1..];
    assert s[i] in s[..j];
  }

  /** An input with no repeated item gives an output with no repeated item. */
  lemma RerankDistinct(results: seq<MatchResult>, topK: int, weight: real)
    requires Distinct(results) && Rerank(results, topK, weight).Some?
    ensures Distinct(Rerank(results, topK, weight).value)
  {
    RerankShape(results, topK, weight);
    var r := Rerank(results, topK, weight).value;
    forall i, j | 0 <= i < j < |r| ensures r[i] != r[j] {
      if r[i] == r[j] {
        DistinctMultiplicity(results, r[i]);
        RepeatedMultiplicity(r, i, j);
      }
    }
  }

  /** The penalty over one more selected item grows by that item's share. */
  lemma PenaltyStep(candidate: MatchResult, selected: seq<MatchResult>, i: nat)
    requires i < |selected|
    ensures Penalty(candidate, selected[..i + 1]) == Penalty(candidate, selected[..i]) + Share(candidate, selected[i])
  {
    assert selected[..i + 1][..i] == selected[..i];
  }

  /** The inner loop over the selected items, accumulating the penalty. */
  method DiversityPenalty(candidate: MatchResult, selected: seq<MatchResult>) returns (diversityPenalty: real)
    ensures diversityPenalty == Penalty(candidate, selected)
  {
    diversityPenalty := 0.0;
    for i := 0 to |selected|
      invariant diversityPenalty == Penalty(candidate, selected[..i])
    {
      var nameOverlap := NameOverlap(candidate.product.name, selected[i].product.name);
      diversityPenalty := diversityPenalty + (nameOverlap as real) / 10.0;
      PenaltyStep(candidate, selected, i);
    }
    assert selected[..|selected|] == selected;
  }

  /** One iteration's `combined` score. */
  method CombinedScore(candidate: MatchResult, selected: seq<MatchResult>, diversityWeight: real) returns (combined: real)
    ensures combined == Combined(candidate, selected, diversityWeight)
  {
    var simScore := candidate.score;
    var diversityPenalty := DiversityPenalty(candidate, selected);
    combined := Adjusted(simScore, diversityPenalty, diversityWeight);
  }

  /** The `for` loop over `remaining`, starting from a best score of minus
      infinity (`None`) and replacing it only on a strictly larger score. */
  method BestCandidate(remaining: seq<MatchResult>, selected: seq<MatchResult>, diversityWeight: real)
    returns (bestIdx: nat)
    requires |remaining| > 0
    ensures IsFirstMax(CombinedScores(remaining, selected, diversityWeight), bestIdx)
  {
    ghost var scores := CombinedScores(remaining, selected, diversityWeight);
    var bestScore: Option<real> := None;
    bestIdx := 0;
    for idx := 0 to |remaining|
      invariant idx == 0 ==> bestScore == None && bestIdx == 0
      invariant idx > 0 ==> bestIdx < idx && bestScore == Some(scores[bestIdx])
      invariant forall j :: 0 <= j < idx ==> scores[j] <= scores[bestIdx]
      invariant forall j :: 0 <= j < bestIdx ==> scores[j] < scores[bestIdx]
    {
      var combined := CombinedScore(remaining[idx], selected, diversityWeight);
      CombinedScoresAt(remaining, selected, diversityWeight, idx);
      if bestScore.None? || combined > bestScore.value {
        bestScore := Some(combined);
        bestIdx := idx;
      }
    }
  }

  /** One round of the outer loop: a first maximum of the combined scores
      is the candidate the specification moves over. */
  lemma GreedyPicksBest(selected: seq<MatchResult>, remaining: seq<MatchResult>, topK: int, weight: real, k: nat)
    requires |selected| < topK && remaining != []
    requires IsFirstMax(CombinedScores(remaining, selected, weight), k)
    ensures Greedy(selected, remaining, topK, weight) ==
      Greedy(selected + [remaining[k]], remaining[..k] + remaining[k + 1..], topK, weight)
  {
    FirstMaxUnique(CombinedScores(remaining, selected, weight), k);
  }

  /** `rerank_with_diversity`, working on a copy of the input: `results`
      is a value, so the caller's list is never changed. */
  method RerankWithDiversity(results: seq<MatchResult>, topK: int, diversityWeight: real)
    returns (r: Option<seq<MatchResult>>)
    ensures r == Rerank(results, topK, diversityWeight)
  {
    if |results| <= topK {
      return Some(results);
    }
    var selected: seq<MatchResult> := [];
    var remaining := results;
    if remaining == [] {
      return None;
    }
    selected := selected + [remaining[0]];
    remaining := remaining[1..];
    while |selected| < topK && remaining != []
      invariant Greedy(selected, remaining, topK, diversityWeight) == Greedy([results[0]], results[1..], topK, diversityWeight)
      decreases |remaining|
    {
      var bestIdx := BestCandidate(remaining, selected, diversityWeight);
      GreedyPicksBest(selected, remaining, topK, diversityWeight, bestIdx);
      selected := selected + [remaining[bestIdx]];
      remaining := remaining[..bestIdx] + remaining[bestIdx + 1..];
    }
    r := Some(selected);
  }
}

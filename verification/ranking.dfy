/** Ranking of search results by relevance, freshness and source quality. */
module Ranking {
  import opened Common

  /** A search result as it comes in: dates are day numbers, and the quality of its address is a
      number between 0 and 1. */
  datatype Raw = Raw(url: string, published: Option<int>, updated: Option<int>, score: Option<real>, quality: real)

  datatype SourceType = Official | Trusted | ThirdParty | LowQuality

  datatype ScoredSource = ScoredSource(rank: nat, url: string, date: Option<int>, sourceType: SourceType, isOfficial: bool,
                                       relevance: real, freshness: real, quality: real, combined: real)

  /** How scores are rounded to four and to three digits; only monotonicity is used. */
  datatype Rounding = Rounding(four: real -> real, three: real -> real)

  /** The settings of one search. */
  datatype Search = Search(today: int, generalKnowledge: bool, preferOfficial: bool, rounding: Rounding)

  function FreshnessScore(date: Option<int>, today: int): (f: real)
    ensures 0.3 <= f <= 1.0
  {
    if date.None? then 0.35
    else
      var days := if today - date.value < 0 then 0 else today - date.value;
      if days == 0 then 1.0
      else if days <= 3 then 0.95
      else if days <= 7 then 0.85
      else if days <= 30 then 0.6
      else 0.3
  }

  /** Freshness never rises with age, and a source without a date is fresher than exactly those
      dated more than 30 days ago. */
  lemma FreshnessFallsWithAge(older: int, newer: int, today: int)
    requires older <= newer
    ensures FreshnessScore(Some(older), today) <= FreshnessScore(Some(newer), today)
    ensures FreshnessScore(None, today) > FreshnessScore(Some(older), today) <==> today - older > 30
  {
  }

  /** A score above 1 counts as 0. */
  function Relevance(score: Option<real>): (r: real)
    ensures 0.0 <= r <= 1.0
  {
    match score
    case None => 0.5
    case Some(s) =>
      var capped := if s <= 1.0 then s else 0.0;
      if capped < 0.0 then 0.0 else capped
  }

  /** So a higher score may count for less: exactly when the higher one is above 1 and the lower one
      is between. */
  lemma RelevanceIsMonotoneIff(s: real, t: real)
    requires s <= t
    ensures Relevance(Some(s)) <= Relevance(Some(t)) <==> t <= 1.0 || s <= 0.0 || s > 1.0
  {
  }

  /** Freshness by age; a date in the future counts as today. */
  lemma FreshnessByAge(date: int, today: int)
    ensures var f := FreshnessScore(Some(date), today);
            && (f == 1.0 <==> today - date <= 0)
            && (f == 0.95 <==> 1 <= today - date <= 3)
            && (f == 0.85 <==> 4 <= today - date <= 7)
            && (f == 0.6 <==> 8 <= today - date <= 30)
            && (f == 0.3 <==> today - date >= 31)
    ensures FreshnessScore(None, today) == 0.35
  {
  }

  /** A score between 0 and 1 is the relevance; a missing one is a half. */
  lemma RelevanceIsScore(s: real)
    ensures 0.0 <= s <= 1.0 ==> Relevance(Some(s)) == s
    ensures s < 0.0 || s > 1.0 ==> Relevance(Some(s)) == 0.0
    ensures Relevance(None) == 0.5
  {
  }

  function TypeOf(quality: real): SourceType {
    if quality >= 0.95 then Official
    else if quality >= 0.85 then Trusted
    else if quality <= 0.25 then LowQuality
    else ThirdParty
  }

  function Boost(s: Search, quality: real): real {
    if !s.generalKnowledge && s.preferOfficial && quality >= 0.95 then 1.15 else 1.0
  }

  /** The product of the factors. */
  function Product(s: Search, relevance: real, freshness: real, quality: real): real {
    if s.generalKnowledge then relevance * (0.5 + 0.5 * quality)
    else relevance * (0.35 + 0.65 * freshness) * (0.35 + 0.65 * quality) * Boost(s, quality)
  }

  /** With the best freshness and quality nothing is taken off the relevance, and an official source is
      preferred by 15 percent; the worst of each takes off 65 percent. General knowledge does not look at
      freshness, and poor quality takes off half. */
  lemma ProductAtTheEnds(s: Search, relevance: real)
    ensures s.generalKnowledge ==>
              forall f :: Product(s, relevance, f, 1.0) == relevance && Product(s, relevance, f, 0.0) == relevance / 2.0
    ensures !s.generalKnowledge ==>
              && Product(s, relevance, 1.0, 1.0) == relevance * (if s.preferOfficial then 1.15 else 1.0)
              && Product(s, relevance, 0.0, 1.0) == relevance * 0.35 * (if s.preferOfficial then 1.15 else 1.0)
              && Product(s, relevance, 1.0, 0.0) == relevance * 0.35
              && Product(s, relevance, 0.0, 0.0) == relevance * 0.35 * 0.35
  {
  }

  /** In between, freshness counts in proportion, and so does quality as long as the preference for
      official sources is the same. */
  lemma ProductIsProportional(s: Search, relevance: real, f: real, f': real, q: real, q': real)
    requires (q >= 0.95) == (q' >= 0.95) == ((q + q') / 2.0 >= 0.95)
    ensures Product(s, relevance, (f + f') / 2.0, q) == (Product(s, relevance, f, q) + Product(s, relevance, f', q)) / 2.0
    ensures Product(s, relevance, f, (q + q') / 2.0) == (Product(s, relevance, f, q) + Product(s, relevance, f, q')) / 2.0
  {
  }

  /** A product that is not positive counts as a thousandth. */
  function Combined(s: Search, relevance: real, freshness: real, quality: real): real {
    var product := Product(s, relevance, freshness, quality);
    if product <= 0.0 then 0.001 else product
  }

  function DateOf(raw: Raw): Option<int> {
    if raw.published.Some? then raw.published else raw.updated
  }

  function Scored(s: Search, raw: Raw): ScoredSource {
    var relevance, freshness := Relevance(raw.score), FreshnessScore(DateOf(raw), s.today);
    ScoredSource(0, raw.url, DateOf(raw), TypeOf(raw.quality), raw.quality >= 0.95,
                 s.rounding.three(relevance), s.rounding.three(freshness), s.rounding.three(raw.quality),
                 s.rounding.four(Combined(s, relevance, freshness, raw.quality)))
  }

  /** What a scored source says of itself: the date it was published, or else updated; official exactly
      from a quality of 0.95 on, trusted from 0.85, of low quality up to 0.25, and otherwise third-party. */
  lemma ScoredSaysWhatItIs(s: Search, raw: Raw)
    ensures var product := Product(s, Relevance(raw.score), FreshnessScore(DateOf(raw), s.today), raw.quality);
            Scored(s, raw).combined == s.rounding.four(if product > 0.0 then product else 0.001)
    ensures var source := Scored(s, raw);
            && source.url == raw.url
            && source.quality == s.rounding.three(raw.quality)
            && source.freshness == s.rounding.three(FreshnessScore(source.date, s.today))
            && source.relevance == s.rounding.three(Relevance(raw.score))
            && (raw.published.Some? ==> source.date == raw.published) && (raw.published.None? ==> source.date == raw.updated)
            && (source.isOfficial <==> raw.quality >= 0.95) && (source.sourceType.Official? <==> source.isOfficial)
            && (source.sourceType.Trusted? <==> 0.85 <= raw.quality < 0.95)
            && (source.sourceType.LowQuality? <==> raw.quality <= 0.25)
            && (source.sourceType.ThirdParty? <==> 0.25 < raw.quality < 0.85)
  {
  }

  // ---- the sort: descending by (combined, freshness), equal keys in their old order ----

  predicate Below(a: ScoredSource, b: ScoredSource) {
    a.combined < b.combined || (a.combined == b.combined && a.freshness < b.freshness)
  }

  predicate SameKey(a: ScoredSource, b: ScoredSource) {
    a.combined == b.combined && a.freshness == b.freshness
  }

  function Insert(x: ScoredSource, sorted: seq<ScoredSource>): (inserted: seq<ScoredSource>)
    ensures |inserted| == 1 + |sorted|
  {
    if sorted == [] || !Below(x, sorted[0]) then [x] + sorted else [sorted[0]] + Insert(x, sorted[1..])
  }

  function Sorted(s: seq<ScoredSource>): (sorted: seq<ScoredSource>)
    ensures |sorted| == |s|
  {
    if s == [] then [] else Insert(s[0], Sorted(s[1..]))
  }

  predicate Descending(s: seq<ScoredSource>) {
    forall i, j | 0 <= i < j < |s| :: !Below(s[i], s[j])
  }

  function WithKeyOf(s: seq<ScoredSource>, x: ScoredSource): seq<ScoredSource> {
    if s == [] then [] else (if SameKey(s[0], x) then [s[0]] else []) + WithKeyOf(s[1..], x)
  }

  lemma {:induction false} InsertKeepsElements(x: ScoredSource, sorted: seq<ScoredSource>)
    ensures multiset(Insert(x, sorted)) == multiset{x} + multiset(sorted)
  {
    if sorted != [] {
      assert sorted == [sorted[0]] + sorted[1..];
      if Below(x, sorted[0]) {
        InsertKeepsElements(x, sorted[1..]);
      }
    }
  }

  lemma {:induction false} InsertKeepsOrder(x: ScoredSource, sorted: seq<ScoredSource>)
    requires Descending(sorted)
    ensures Descending(Insert(x, sorted))
  {
    if sorted != [] && Below(x, sorted[0]) {
      InsertKeepsOrder(x, sorted[1..]);
      InsertKeepsElements(x, sorted[1..]);
      var rest := Insert(x, sorted[1..]);
      forall j | 0 <= j < |rest| ensures !Below(sorted[0], rest[j]) {
        assert rest[j] in multiset(rest);
        assert rest[j] == x || rest[j] in sorted[1..];
      }
    }
  }

  lemma {:induction false} InsertIsStable(x: ScoredSource, sorted: seq<ScoredSource>, y: ScoredSource)
    ensures WithKeyOf(Insert(x, sorted), y) == (if SameKey(x, y) then [x] else []) + WithKeyOf(sorted, y)
  {
    if sorted != [] && Below(x, sorted[0]) {
      InsertIsStable(x, sorted[1..], y);
      assert Insert(x, sorted)[1..] == Insert(x, sorted[1..]);
    } else {
      assert Insert(x, sorted)[1..] == sorted;
    }
  }

  /** The sort keeps the elements, puts them in descending order, and leaves those of equal key in
      the order in which they came. */
  lemma {:induction false} SortedIsStable(s: seq<ScoredSource>, y: ScoredSource)
    ensures multiset(Sorted(s)) == multiset(s)
    ensures Descending(Sorted(s))
    ensures WithKeyOf(Sorted(s), y) == WithKeyOf(s, y)
  {
    if s != [] {
      SortedIsStable(s[1..], y);
      assert s == [s[0]] + s[1..];
      InsertKeepsElements(s[0], Sorted(s[1..]));
      InsertKeepsOrder(s[0], Sorted(s[1..]));
      InsertIsStable(s[0], Sorted(s[1..]), y);
    }
  }

  function ScoredAll(s: Search, items: seq<Raw>): (scored: seq<ScoredSource>)
    ensures |scored| == |items|
    ensures forall i | 0 <= i < |items| :: scored[i] == Scored(s, items[i])
  {
    if items == [] then [] else ScoredAll(s, items[..|items| - 1]) + [Scored(s, items[|items| - 1])]
  }

  /** The order of the sort: by falling score, and at equal scores by falling freshness. */
  lemma SortedByScoreThenFreshness(s: seq<ScoredSource>, i: nat, j: nat)
    requires i < j < |s|
    ensures var a, b := Sorted(s)[i], Sorted(s)[j]; a.combined > b.combined || (a.combined == b.combined && a.freshness >= b.freshness)
  {
    SortedIsStable(s, s[i]);
    assert !Below(Sorted(s)[i], Sorted(s)[j]);
  }

  /** The items are scored in order, sorted, and ranked 1 to n. */
  method ScoreAndRank(s: Search, items: seq<Raw>) returns (ranked: seq<ScoredSource>)
    ensures |ranked| == |items|
    ensures forall i | 0 <= i < |ranked| :: ranked[i] == Sorted(ScoredAll(s, items))[i].(rank := i + 1)
  {
    var processed: seq<ScoredSource> := [];
    for i := 0 to |items|
      invariant processed == ScoredAll(s, items[..i])
    {
      assert items[..i + 1][..i] == items[..i];
      processed := processed + [Scored(s, items[i])];
    }
    assert items[..|items|] == items;
    ranked := AssignRanks(Sorted(processed));
  }

  method AssignRanks(sorted: seq<ScoredSource>) returns (ranked: seq<ScoredSource>)
    ensures |ranked| == |sorted|
    ensures forall i | 0 <= i < |ranked| :: ranked[i] == sorted[i].(rank := i + 1)
  {
    ranked := sorted;
    for i := 0 to |ranked|
      invariant |ranked| == |sorted|
      invariant forall j | 0 <= j < i :: ranked[j] == sorted[j].(rank := j + 1)
      invariant forall j | i <= j < |ranked| :: ranked[j] == sorted[j]
    {
      ranked := ranked[i := ranked[i].(rank := i + 1)];
    }
  }

  // ---- dominance ----

  /** a is at least as good as b in every dimension. */
  predicate Dominates(s: Search, a: Raw, b: Raw) {
    && Relevance(a.score) >= Relevance(b.score)
    && FreshnessScore(DateOf(a), s.today) >= FreshnessScore(DateOf(b), s.today)
    && a.quality >= b.quality >= 0.0
  }

  ghost predicate Monotone(f: real -> real) {
    forall x, y | x <= y :: f(x) <= f(y)
  }

  lemma ProductsGrow(a: real, b: real, c: real, d: real)
    requires a >= b >= 0.0 && c >= d >= 0.0
    ensures a * c >= b * d >= 0.0
  {
    assert a * c >= b * c;
    assert b * c >= b * d;
  }

  lemma PositiveProduct(a: real, b: real)
    requires b > 0.0
    ensures a * b > 0.0 <==> a > 0.0
  {
  }

  lemma ProductIsMonotone(s: Search, r: real, f: real, q: real, r': real, f': real, q': real)
    requires r >= r' >= 0.0 && f >= f' >= 0.0 && q >= q' >= 0.0
    ensures Product(s, r, f, q) >= Product(s, r', f', q') >= 0.0
    ensures Product(s, r, f, q) > 0.0 <==> r > 0.0
  {
    var x, x' := 0.35 + 0.65 * f, 0.35 + 0.65 * f';
    var y, y' := 0.35 + 0.65 * q, 0.35 + 0.65 * q';
    ProductsGrow(r, r', x, x');
    ProductsGrow(r * x, r' * x', y, y');
    ProductsGrow(r * x * y, r' * x' * y', Boost(s, q), Boost(s, q'));
    ProductsGrow(r, r', 0.5 + 0.5 * q, 0.5 + 0.5 * q');
    PositiveProduct(r, 0.5 + 0.5 * q);
    PositiveProduct(r, x);
    PositiveProduct(r * x, y);
    PositiveProduct(r * x * y, Boost(s, q));
  }

  function CombinedOf(s: Search, raw: Raw): real {
    Combined(s, Relevance(raw.score), FreshnessScore(DateOf(raw), s.today), raw.quality)
  }

  /** The exact condition for a dominating source not to score less, before rounding: the dominated
      one has positive relevance, or both have none, or the dominating one reaches the thousandth
      that a source without relevance is given. */
  lemma DominanceIff(s: Search, a: Raw, b: Raw)
    requires Dominates(s, a, b)
    ensures CombinedOf(s, a) >= CombinedOf(s, b) <==>
              Relevance(b.score) > 0.0 || Relevance(a.score) == 0.0
              || Product(s, Relevance(a.score), FreshnessScore(DateOf(a), s.today), a.quality) >= 0.001
  {
    var r, f := Relevance(a.score), FreshnessScore(DateOf(a), s.today);
    var r', f' := Relevance(b.score), FreshnessScore(DateOf(b), s.today);
    ProductIsMonotone(s, r, f, a.quality, r', f', b.quality);
    ProductIsMonotone(s, r', f', b.quality, r', f', b.quality);
  }

  /** Of two sources of positive relevance the dominating one never has the smaller sort key, through
      product, boost and rounding. */
  lemma DominanceSurvivesRounding(s: Search, a: Raw, b: Raw)
    requires Monotone(s.rounding.four) && Monotone(s.rounding.three)
    requires Dominates(s, a, b) && Relevance(b.score) > 0.0
    ensures !Below(Scored(s, a), Scored(s, b))
  {
    DominanceIff(s, a, b);
    assert s.rounding.four(CombinedOf(s, b)) <= s.rounding.four(CombinedOf(s, a));
  }

  /** So it is ranked before, unless both have the same key. */
  lemma DominatingRanksFirst(s: Search, items: seq<Raw>, a: Raw, b: Raw, i: nat, j: nat)
    requires Monotone(s.rounding.four) && Monotone(s.rounding.three)
    requires Dominates(s, a, b) && Relevance(b.score) > 0.0
    requires i < |Sorted(ScoredAll(s, items))| && j < |Sorted(ScoredAll(s, items))|
    requires Sorted(ScoredAll(s, items))[i] == Scored(s, a) && Sorted(ScoredAll(s, items))[j] == Scored(s, b)
    ensures i <= j || SameKey(Scored(s, a), Scored(s, b))
  {
    DominanceSurvivesRounding(s, a, b);
    SortedIsStable(ScoredAll(s, items), Scored(s, a));
  }

  // ---- the date limit of the evidence ----

  predicate Counts(source: ScoredSource) {
    source.date.Some? && source.sourceType in {Official, Trusted, ThirdParty}
  }

  /** A scored result counts if and only if it was published or updated at a known date, and its quality is
      above 0.25. */
  lemma CountsIff(s: Search, raw: Raw)
    ensures Counts(Scored(s, raw)) <==> (raw.published.Some? || raw.updated.Some?) && raw.quality > 0.25
  {
  }

  /** The newest date of a source that is not of low quality. */
  method EvidenceCutoff(sources: seq<ScoredSource>) returns (newest: Option<int>)
    ensures newest.None? ==> forall k | 0 <= k < |sources| :: !Counts(sources[k])
    ensures newest.Some? ==> exists k | 0 <= k < |sources| :: Counts(sources[k]) && sources[k].date == newest
    ensures forall k | 0 <= k < |sources| && Counts(sources[k]) :: newest.Some? && sources[k].date.value <= newest.value
  {
    newest := None;
    for i := 0 to |sources|
      invariant newest.Some? ==> exists k | 0 <= k < i :: Counts(sources[k]) && sources[k].date == newest
      invariant forall k | 0 <= k < i && Counts(sources[k]) :: newest.Some? && sources[k].date.value <= newest.value
    {
      var s := sources[i];
      if s.date.Some? && s.sourceType in {Official, Trusted, ThirdParty} {
        assert Counts(sources[i]);
        if newest.None? || s.date.value > newest.value {
          newest := s.date;
        }
      }
    }
  }
}

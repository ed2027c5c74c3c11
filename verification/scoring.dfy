/**
 * The relevance score of `search_places_advanced` (api/crud.py): a weighted sum over the six
 * categories, each contributing its whole weight when the preference asks for it and the place
 * matches it. The eligibility gate and the per-category match explanation live here too.
 */
module Scoring {

  import opened Wrappers
  import opened Tags
  import Places

  /** The six scored categories (the keys of the weight dictionary). */
  datatype Category = EntityTypes | AtmosphereTags | PurposeTags | BudgetLevel | Features | BestTime

  /** Weight per category; a category absent from the map is not scored. */
  type Weights = map<Category, real>

  /** The default weights; they add up to 10. */
  const DefaultWeights: Weights := map[
    EntityTypes := 3.0, PurposeTags := 2.0, BudgetLevel := 2.0,
    AtmosphereTags := 1.5, Features := 1.0, BestTime := 0.5]

  /** Every category once. */
  const AllCategories: seq<Category> := [EntityTypes, PurposeTags, BudgetLevel, AtmosphereTags, Features, BestTime]

  /** `weights or default_weights`: a missing or empty weight map falls back to the defaults. */
  function EffectiveWeights(custom: Option<Weights>): (w: Weights)
    ensures custom.Some? && custom.value != map[] ==> w == custom.value
    ensures custom.None? || custom.value == map[] ==> w == DefaultWeights
  {
    if custom.Some? && custom.value != map[] then custom.value else DefaultWeights
  }

  /** No weight is negative. */
  predicate NonNegative(w: Weights) {
    forall c :: c in w ==> w[c] >= 0.0
  }

  /** The categories whose value is a tag list. */
  predicate IsTagList(c: Category) {
    c != BudgetLevel && c != BestTime
  }

  /** The preference's tags of a tag-list category. */
  function WantedTags(pref: Categories, c: Category): seq<string>
    requires IsTagList(c)
  {
    match c
    case EntityTypes => pref.entityTypes
    case AtmosphereTags => pref.atmosphereTags
    case PurposeTags => pref.purposeTags
    case Features => pref.features
  }

  /** The place's tags of a tag-list category. */
  function PlaceTags(p: Places.Place, c: Category): seq<string>
    requires IsTagList(c)
  {
    match c
    case EntityTypes => p.entityTypes
    case AtmosphereTags => p.atmosphereTags
    case PurposeTags => p.purposeTags
    case Features => p.features
  }

  /** The place with the tags of one tag-list category replaced. */
  function WithTags(p: Places.Place, c: Category, tags: seq<string>): (q: Places.Place)
    requires IsTagList(c)
    ensures PlaceTags(q, c) == tags
    ensures forall d :: IsTagList(d) && d != c ==> PlaceTags(q, d) == PlaceTags(p, d)
    ensures q.budgetLevel == p.budgetLevel && q.bestTime == p.bestTime
  {
    match c
    case EntityTypes => p.(entityTypes := tags)
    case AtmosphereTags => p.(atmosphereTags := tags)
    case PurposeTags => p.(purposeTags := tags)
    case Features => p.(features := tags)
  }

  /** `preferences.get(field)` is truthy: a non-empty list, or a non-empty string. */
  predicate Requested(pref: Categories, c: Category) {
    if IsTagList(c) then WantedTags(pref, c) != []
    else if c == BudgetLevel then Truthy(pref.budgetLevel)
    else Truthy(pref.bestTime)
  }

  /** The SQL condition of a category: array overlap, or equality (false against a null column). */
  predicate Matches(pref: Categories, p: Places.Place, c: Category) {
    if IsTagList(c) then Overlaps(PlaceTags(p, c), WantedTags(pref, c))
    else if c == BudgetLevel then p.budgetLevel.Some? && p.budgetLevel == pref.budgetLevel
    else p.bestTime.Some? && p.bestTime == pref.bestTime
  }

  /** What one category adds to the score: its whole weight, or nothing. */
  function Contribution(pref: Categories, p: Places.Place, w: Weights, c: Category): real {
    if c in w && Requested(pref, c) && Matches(pref, p, c) then w[c] else 0.0
  }

  /** The sum of the weights of the listed categories that the map holds. */
  function WeightOver(w: Weights, cs: seq<Category>): real {
    if cs == [] then 0.0
    else (if cs[0] in w then w[cs[0]] else 0.0) + WeightOver(w, cs[1..])
  }

  /** The sum of all weights of the map. */
  function TotalWeight(w: Weights): real {
    WeightOver(w, AllCategories)
  }

  /** The score restricted to the listed categories; between 0 and their total weight. */
  function ScoreOver(pref: Categories, p: Places.Place, w: Weights, cs: seq<Category>): (r: real)
    ensures NonNegative(w) ==> 0.0 <= r <= WeightOver(w, cs)
  {
    if cs == [] then 0.0
    else Contribution(pref, p, w, cs[0]) + ScoreOver(pref, p, w, cs[1..])
  }

  /** The relevance score of a place for a preference under the given weights. */
  function Score(pref: Categories, p: Places.Place, w: Weights): real {
    ScoreOver(pref, p, w, AllCategories)
  }

  /** The score is the sum of the six categories' contributions. */
  lemma ScoreExpanded(pref: Categories, p: Places.Place, w: Weights)
    ensures Score(pref, p, w) ==
      Contribution(pref, p, w, EntityTypes) + Contribution(pref, p, w, PurposeTags)
      + Contribution(pref, p, w, BudgetLevel) + Contribution(pref, p, w, AtmosphereTags)
      + Contribution(pref, p, w, Features) + Contribution(pref, p, w, BestTime)
  {
    var s5 := [BestTime];
    var s4 := [Features] + s5;
    var s3 := [AtmosphereTags] + s4;
    var s2 := [BudgetLevel] + s3;
    var s1 := [PurposeTags] + s2;
    assert AllCategories == [EntityTypes] + s1;
    assert ScoreOver(pref, p, w, s5) == Contribution(pref, p, w, BestTime) by { assert s5[1..] == []; }
    assert s4[1..] == s5 && s3[1..] == s4 && s2[1..] == s3 && s1[1..] == s2 && AllCategories[1..] == s1;
    assert ScoreOver(pref, p, w, s4) == Contribution(pref, p, w, Features) + ScoreOver(pref, p, w, s5);
    assert ScoreOver(pref, p, w, s3) == Contribution(pref, p, w, AtmosphereTags) + ScoreOver(pref, p, w, s4);
    assert ScoreOver(pref, p, w, s2) == Contribution(pref, p, w, BudgetLevel) + ScoreOver(pref, p, w, s3);
    assert ScoreOver(pref, p, w, s1) == Contribution(pref, p, w, PurposeTags) + ScoreOver(pref, p, w, s2);
  }

  /** The expression has at least one term: otherwise the source's sum stays a plain number. */
  predicate HasScoringTerm(pref: Categories, w: Weights) {
    exists c :: c in w && Requested(pref, c)
  }

  /** The default weights are non-negative and total 10. */
  lemma DefaultWeightsTotal()
    ensures NonNegative(DefaultWeights)
    ensures TotalWeight(DefaultWeights) == 10.0
  {
  }

  /** With non-negative weights the score lies between 0 and the total weight. */
  lemma ScoreBounds(pref: Categories, p: Places.Place, w: Weights)
    requires NonNegative(w)
    ensures 0.0 <= Score(pref, p, w) <= TotalWeight(w)
  {
  }

  /** Two places that match the same categories score the same. */
  lemma {:induction false} ScoreOverSameMatches(pref: Categories, p: Places.Place, q: Places.Place, w: Weights, cs: seq<Category>)
    requires forall c :: c in cs ==> Matches(pref, p, c) == Matches(pref, q, c)
    ensures ScoreOver(pref, p, w, cs) == ScoreOver(pref, q, w, cs)
  {
    if cs != [] {
      ScoreOverSameMatches(pref, p, q, w, cs[1..]);
    }
  }

  /** The score depends on a place only through which categories it matches. */
  lemma ScoreDependsOnlyOnMatches(pref: Categories, p: Places.Place, q: Places.Place, w: Weights)
    requires forall c :: Matches(pref, p, c) == Matches(pref, q, c)
    ensures Score(pref, p, w) == Score(pref, q, w)
  {
    ScoreOverSameMatches(pref, p, q, w, AllCategories);
  }

  /**
   * Overlap is binary: once a place shares a tag with the preference in a category, adding
   * more tags to that category leaves the score unchanged.
   */
  lemma OverlapIsBinary(pref: Categories, p: Places.Place, w: Weights, c: Category, extra: seq<string>)
    requires IsTagList(c)
    requires Overlaps(PlaceTags(p, c), WantedTags(pref, c))
    ensures Score(pref, WithTags(p, c, PlaceTags(p, c) + extra), w) == Score(pref, p, w)
  {
    var q := WithTags(p, c, PlaceTags(p, c) + extra);
    forall d ensures Matches(pref, p, d) == Matches(pref, q, d) {
      if d == c {
        var x :| x in PlaceTags(p, c) && x in WantedTags(pref, c);
        assert x in PlaceTags(q, c);
      }
    }
    ScoreDependsOnlyOnMatches(pref, p, q, w);
  }

  /** A category the preference does not ask for contributes nothing, whatever its weight. */
  lemma {:induction false} ScoreOverIgnoresUnrequested(pref: Categories, p: Places.Place, w: Weights, c: Category, cs: seq<Category>)
    requires !Requested(pref, c)
    ensures ScoreOver(pref, p, w, cs) == ScoreOver(pref, p, w - {c}, cs)
  {
    if cs != [] {
      ScoreOverIgnoresUnrequested(pref, p, w, c, cs[1..]);
    }
  }

  /** Weight masking: the weight of a category the preference leaves empty never matters. */
  lemma UnrequestedWeightIrrelevant(pref: Categories, p: Places.Place, w: Weights, c: Category, x: real)
    requires !Requested(pref, c)
    ensures Contribution(pref, p, w, c) == 0.0
    ensures Score(pref, p, w) == Score(pref, p, w - {c})
    ensures Score(pref, p, w) == Score(pref, p, w[c := x])
  {
    ScoreOverIgnoresUnrequested(pref, p, w, c, AllCategories);
    ScoreOverIgnoresUnrequested(pref, p, w[c := x], c, AllCategories);
    assert w[c := x] - {c} == w - {c};
  }

  /** The `match_details` of a result. */
  datatype MatchDetails = MatchDetails(
    entityTypesMatch: seq<string>,
    atmosphereMatch: seq<string>,
    purposeMatch: seq<string>,
    budgetMatch: bool,
    featuresMatch: seq<string>)

  /** The matched tags of a tag-list category. */
  function DetailTags(d: MatchDetails, c: Category): seq<string>
    requires IsTagList(c)
  {
    match c
    case EntityTypes => d.entityTypesMatch
    case AtmosphereTags => d.atmosphereMatch
    case PurposeTags => d.purposeMatch
    case Features => d.featuresMatch
  }

  /**
   * The explanation attached to a result: per tag list, the place's tags that the preference
   * also lists (in the place's order), and whether the budget levels are equal.
   */
  function Details(pref: Categories, p: Places.Place): (d: MatchDetails)
    ensures forall c, x :: IsTagList(c) ==>
      multiset(DetailTags(d, c))[x] == if x in WantedTags(pref, c) then multiset(PlaceTags(p, c))[x] else 0
    ensures forall c :: IsTagList(c) ==> DetailTags(d, c) == Matching(PlaceTags(p, c), WantedTags(pref, c))
    ensures d.budgetMatch <==> p.budgetLevel == pref.budgetLevel
  {
    MatchDetails(
      Matching(p.entityTypes, pref.entityTypes),
      Matching(p.atmosphereTags, pref.atmosphereTags),
      Matching(p.purposeTags, pref.purposeTags),
      p.budgetLevel == pref.budgetLevel,
      Matching(p.features, pref.features))
  }

  /**
   * The details explain the score: a requested, weighted tag list contributes its weight
   * exactly when its matched-tag list is non-empty, and a requested budget level exactly when
   * `budget_match` holds.
   */
  lemma DetailsExplainScore(pref: Categories, p: Places.Place, w: Weights, c: Category)
    requires c in w && Requested(pref, c) && w[c] != 0.0
    ensures IsTagList(c) ==> (Contribution(pref, p, w, c) == w[c] <==> DetailTags(Details(pref, p), c) != [])
    ensures c == BudgetLevel ==> (Contribution(pref, p, w, c) == w[c] <==> Details(pref, p).budgetMatch)
  {
    if IsTagList(c) {
      var m := DetailTags(Details(pref, p), c);
      assert m == Matching(PlaceTags(p, c), WantedTags(pref, c));
    }
  }

  /** Two absent budget levels count as a budget match, though they add nothing to the score. */
  lemma NullBudgetsMatch(pref: Categories, p: Places.Place, w: Weights)
    requires pref.budgetLevel == None && p.budgetLevel == None
    ensures Details(pref, p).budgetMatch
    ensures Contribution(pref, p, w, BudgetLevel) == 0.0
  {
  }

  /**
   * The eligibility gate: when the preference lists entity types the place must share one,
   * and when it names a budget level the place must have that level.
   */
  predicate Eligible(pref: Categories, p: Places.Place) {
    && (Requested(pref, EntityTypes) ==> Overlaps(p.entityTypes, pref.entityTypes))
    && (Requested(pref, BudgetLevel) ==> p.budgetLevel == pref.budgetLevel)
  }

  /** Atmosphere, purpose, features and best time never decide eligibility, on either side. */
  lemma GateIgnoresSoftCategories(pref: Categories, p: Places.Place, pref': Categories, q: Places.Place)
    requires pref'.entityTypes == pref.entityTypes && pref'.budgetLevel == pref.budgetLevel
    requires q.entityTypes == p.entityTypes && q.budgetLevel == p.budgetLevel
    ensures Eligible(pref, p) == Eligible(pref', q)
  {
  }

  /** A café request excludes a bar, whatever else the bar matches. */
  lemma CafeRequestExcludesBar(pref: Categories, p: Places.Place)
    requires pref.entityTypes == ["кафе"] && p.entityTypes == ["бар"]
    ensures !Eligible(pref, p)
  {
  }
}

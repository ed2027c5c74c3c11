/**
 * The two search queries of api/crud.py as pipelines over the table's rows: filter, score,
 * sort by the ORDER BY keys (descending, nulls first as PostgreSQL does), take `limit`.
 */
module Ranking {

  import opened Wrappers
  import opened Tags
  import Places
  import opened Scoring

  /** The ORDER BY clause: the advanced search adds the review count as a third key. */
  datatype Order = ByScoreRatingReviews | ByScoreRating

  /** The sort key of a row. */
  datatype RankKey = RankKey(score: real, rating: Option<real>, reviews: Option<int>)

  /** `x DESC` on a nullable column: PostgreSQL puts nulls first. */
  predicate RatingAtLeast(a: Option<real>, b: Option<real>) {
    a.None? || (b.Some? && a.value >= b.value)
  }

  /** `review_count DESC`, nulls first. */
  predicate ReviewsAtLeast(a: Option<int>, b: Option<int>) {
    a.None? || (b.Some? && a.value >= b.value)
  }

  /** `a` may come before `b`: lexicographically not smaller on the keys of the order. */
  predicate KeyAtLeast(o: Order, a: RankKey, b: RankKey) {
    || a.score > b.score
    || (a.score == b.score &&
         (|| (a.rating != b.rating && RatingAtLeast(a.rating, b.rating))
          || (a.rating == b.rating && (o == ByScoreRating || ReviewsAtLeast(a.reviews, b.reviews)))))
  }

  /** Any two keys are comparable. */
  lemma KeyTotal(o: Order, a: RankKey, b: RankKey)
    ensures KeyAtLeast(o, a, b) || KeyAtLeast(o, b, a)
  {
  }

  /** The key order is transitive. */
  lemma KeyTransitive(o: Order, a: RankKey, b: RankKey, c: RankKey)
    requires KeyAtLeast(o, a, b) && KeyAtLeast(o, b, c)
    ensures KeyAtLeast(o, a, c)
  {
  }

  /** A query's ranking: its ORDER BY clause and the sort key it computes for a row. */
  datatype Ranker = Ranker(order: Order, key: Places.Place -> RankKey) {

    /** `p` may come before `q`. */
    predicate Before(p: Places.Place, q: Places.Place) {
      KeyAtLeast(order, key(p), key(q))
    }

    /** The places are in non-increasing key order. */
    predicate Sorted(s: seq<Places.Place>) {
      forall i, j :: 0 <= i < j < |s| ==> Before(s[i], s[j])
    }

    /** Inserts `x` after every leading place that may precede it. */
    function Insert(x: Places.Place, s: seq<Places.Place>): (r: seq<Places.Place>)
      ensures multiset(r) == multiset(s) + multiset{x}
    {
      if s == [] then [x]
      else if Before(s[0], x) then
        assert s == [s[0]] + s[1..];
        [s[0]] + Insert(x, s[1..])
      else [x] + s
    }

    /** Inserting into a sorted sequence keeps it sorted. */
    lemma {:induction false} InsertSorted(x: Places.Place, s: seq<Places.Place>)
      requires Sorted(s)
      ensures Sorted(Insert(x, s))
    {
      if s != [] {
        if Before(s[0], x) {
          var rest := Insert(x, s[1..]);
          InsertSorted(x, s[1..]);
          assert s == [s[0]] + s[1..];
          forall j | 0 <= j < |rest| ensures Before(s[0], rest[j]) {
            var y := rest[j];
            assert y in multiset(rest);
            if y != x {
              assert y in multiset(s[1..]);
              var k :| 0 <= k < |s[1..]| && s[1..][k] == y;
              assert s[k + 1] == y;
            }
          }
          assert Insert(x, s) == [s[0]] + rest;
        } else {
          KeyTotal(order, key(x), key(s[0]));
          forall j | 0 <= j < |s| ensures Before(x, s[j]) {
            if j > 0 {
              KeyTransitive(order, key(x), key(s[0]), key(s[j]));
            }
          }
        }
      }
    }

    /** Every place may come before itself. */
    lemma BeforeReflexive(p: Places.Place)
      ensures Before(p, p)
    {
    }

    /**
     * A sorted selection of both of two places, one of which may not come before the other,
     * lists them in rank order.
     */
    lemma SortedPair(t: seq<Places.Place>, x: Places.Place, y: Places.Place)
      requires |t| == 2 && multiset(t) <= multiset{x, y}
      requires Sorted(t) && !Before(y, x)
      ensures t == [x, y]
    {
      BeforeReflexive(x);
      assert x != y;
      assert t == [t[0]] + [t[1]];
      assert multiset(t) == multiset{t[0], t[1]};
      assert Before(t[0], t[1]);
    }

    /** The places sorted by key; a permutation of the input. */
    function Sort(s: seq<Places.Place>): (r: seq<Places.Place>)
      ensures multiset(r) == multiset(s)
      ensures Sorted(r)
    {
      if s == [] then []
      else
        assert s == [s[0]] + s[1..];
        InsertSorted(s[0], Sort(s[1..]));
        Insert(s[0], Sort(s[1..]))
    }

    /**
     * `ORDER BY ... LIMIT limit`: the first `limit` places of the sorted order. The result is
     * sorted, drawn from the input, as long as it can be, and no place left out ranks above
     * a place taken.
     */
    function Top(s: seq<Places.Place>, limit: nat): (r: seq<Places.Place>)
      ensures |r| == if limit < |s| then limit else |s|
      ensures multiset(r) <= multiset(s)
      ensures Sorted(r)
      ensures forall x, y :: x in multiset(s) - multiset(r) && y in r ==> Before(y, x)
    {
      var sorted := Sort(s);
      var k := if limit < |s| then limit else |s|;
      assert |sorted| == |s| by { assert |multiset(sorted)| == |multiset(s)|; }
      SplitMultiset(sorted, k);
      PrefixRanksAbove(sorted, k);
      sorted[..k]
    }

    /** In a sorted sequence every place of a prefix may come before every place after it. */
    lemma PrefixRanksAbove(sorted: seq<Places.Place>, k: nat)
      requires Sorted(sorted) && k <= |sorted|
      ensures Sorted(sorted[..k])
      ensures forall x, y :: x in multiset(sorted[k..]) && y in sorted[..k] ==> Before(y, x)
    {
      forall x, y | x in multiset(sorted[k..]) && y in sorted[..k] ensures Before(y, x) {
        var j :| 0 <= j < |sorted[k..]| && sorted[k..][j] == x;
        var i :| 0 <= i < k && sorted[..k][i] == y;
        assert sorted[i] == y && sorted[k + j] == x;
      }
    }
  }

  /** A prefix of a sequence and the rest after it split its multiset. */
  lemma SplitMultiset<T>(s: seq<T>, k: nat)
    requires k <= |s|
    ensures multiset(s[..k]) <= multiset(s)
    ensures multiset(s) - multiset(s[..k]) == multiset(s[k..])
  {
    assert s == s[..k] + s[k..];
  }

  /** The ranking of a query scoring with `w`: the score, then the rating, then (optionally) the review count. */
  function RankerFor(o: Order, pref: Categories, w: Weights): (r: Ranker)
    ensures r.order == o
    ensures forall p :: r.key(p) == RankKey(Score(pref, p, w), p.overallRating, p.reviewCount)
  {
    Ranker(o, p => RankKey(Score(pref, p, w), p.overallRating, p.reviewCount))
  }

  /** The WHERE clause of the advanced search: the eligibility gate and the minimum relevance. */
  predicate Admissible(pref: Categories, w: Weights, minRelevance: real, p: Places.Place) {
    Eligible(pref, p) && Score(pref, p, w) >= minRelevance
  }

  /** The rows the advanced search's WHERE clause keeps, in table order. */
  function Admit(places: seq<Places.Place>, pref: Categories, w: Weights, minRelevance: real): (r: seq<Places.Place>)
    ensures forall p :: multiset(r)[p] == if Admissible(pref, w, minRelevance, p) then multiset(places)[p] else 0
  {
    if places == [] then []
    else
      var rest := Admit(places[1..], pref, w, minRelevance);
      assert places == [places[0]] + places[1..];
      if Admissible(pref, w, minRelevance, places[0]) then [places[0]] + rest else rest
  }

  /** Every place drawn from the admitted rows passes the WHERE clause. */
  lemma AdmittedAreAdmissible(places: seq<Places.Place>, pref: Categories, w: Weights, minRelevance: real, top: seq<Places.Place>)
    requires multiset(top) <= multiset(Admit(places, pref, w, minRelevance))
    ensures forall i :: 0 <= i < |top| ==> Admissible(pref, w, minRelevance, top[i])
  {
    forall i | 0 <= i < |top| ensures Admissible(pref, w, minRelevance, top[i]) {
      assert top[i] in multiset(Admit(places, pref, w, minRelevance));
    }
  }

  /** Why a search fails. */
  datatype SearchError =
    | NoRelevanceTerms   // no weighted category is requested: the score stays a number and `.label`/`.desc` raise

  /** One result of the advanced search: the place, its score and the match explanation. */
  datatype Recommendation = Recommendation(place: Places.Place, relevanceScore: real, matchDetails: MatchDetails)

  /** The places of a result list, in order. */
  function PlacesOf(recs: seq<Recommendation>): (ps: seq<Places.Place>)
    ensures |ps| == |recs|
    ensures forall i :: 0 <= i < |recs| ==> ps[i] == recs[i].place
  {
    seq(|recs|, i requires 0 <= i < |recs| => recs[i].place)
  }

  /** Attaches `relevance_score` and `match_details` to each selected place. */
  function Recommend(pref: Categories, w: Weights, top: seq<Places.Place>): (recs: seq<Recommendation>)
    ensures PlacesOf(recs) == top
    ensures forall i :: 0 <= i < |recs| ==>
      recs[i].relevanceScore == Score(pref, top[i], w) && recs[i].matchDetails == Details(pref, top[i])
  {
    var recs := seq(|top|, i requires 0 <= i < |top| => Recommendation(top[i], Score(pref, top[i], w), Details(pref, top[i])));
    assert PlacesOf(recs) == top;
    recs
  }

  /**
   * `search_places_advanced` over the rows of the table. It fails when no category of the
   * effective weights is requested; otherwise it returns at most `limit` admissible places,
   * best first, each with its score and match details, and leaves out no admissible place
   * that ranks above one it returns.
   */
  function SearchAdvanced(places: seq<Places.Place>, pref: Categories, weights: Option<Weights>,
                          minRelevance: real, limit: nat): (r: Result<seq<Recommendation>, SearchError>)
    ensures var w := EffectiveWeights(weights);
      && (r.Failure? <==> !HasScoringTerm(pref, w))
      && (r.Success? ==>
        var ranker := RankerFor(ByScoreRatingReviews, pref, w);
        var taken := PlacesOf(r.value);
        var admitted := Admit(places, pref, w, minRelevance);
        && |r.value| == (if limit < |admitted| then limit else |admitted|)
        && (forall i :: 0 <= i < |r.value| ==>
              && Eligible(pref, r.value[i].place)
              && r.value[i].relevanceScore == Score(pref, r.value[i].place, w)
              && r.value[i].relevanceScore >= minRelevance
              && r.value[i].matchDetails == Details(pref, r.value[i].place))
        && multiset(taken) <= multiset(admitted)
        && ranker.Sorted(taken)
        && (forall x, y :: x in multiset(admitted) - multiset(taken) && y in taken ==> ranker.Before(y, x)))
  {
    var w := EffectiveWeights(weights);
    if !HasScoringTerm(pref, w) then Failure(NoRelevanceTerms)
    else
      var admitted := Admit(places, pref, w, minRelevance);
      var top := RankerFor(ByScoreRatingReviews, pref, w).Top(admitted, limit);
      AdmittedAreAdmissible(places, pref, w, minRelevance, top);
      Success(Recommend(pref, w, top))
  }

  /**
   * The WHERE clause of the basic search: every requested category among entity types,
   * atmosphere, purpose, budget level and features must match (best time only scores).
   */
  predicate MatchesAllRequested(pref: Categories, p: Places.Place) {
    forall c :: c != BestTime && Requested(pref, c) ==> Matches(pref, p, c)
  }

  /** The rows the basic search's WHERE clause keeps, in table order. */
  function Filter(places: seq<Places.Place>, pref: Categories): (r: seq<Places.Place>)
    ensures forall p :: multiset(r)[p] == if MatchesAllRequested(pref, p) then multiset(places)[p] else 0
  {
    if places == [] then []
    else
      var rest := Filter(places[1..], pref);
      assert places == [places[0]] + places[1..];
      if MatchesAllRequested(pref, places[0]) then [places[0]] + rest else rest
  }

  /** One result of the basic search: the place and its score. */
  datatype ScoredPlace = ScoredPlace(place: Places.Place, relevanceScore: real)

  /** The places of a basic result list, in order. */
  function ScoredPlaces(rs: seq<ScoredPlace>): (ps: seq<Places.Place>)
    ensures |ps| == |rs|
    ensures forall i :: 0 <= i < |rs| ==> ps[i] == rs[i].place
  {
    seq(|rs|, i requires 0 <= i < |rs| => rs[i].place)
  }

  /** Attaches `relevance_score` (default weights) to each selected place. */
  function WithScores(pref: Categories, top: seq<Places.Place>): (rs: seq<ScoredPlace>)
    ensures ScoredPlaces(rs) == top
    ensures forall i :: 0 <= i < |rs| ==> rs[i].relevanceScore == Score(pref, top[i], DefaultWeights)
  {
    var rs := seq(|top|, i requires 0 <= i < |top| => ScoredPlace(top[i], Score(pref, top[i], DefaultWeights)));
    assert ScoredPlaces(rs) == top;
    rs
  }

  /**
   * `search_places_by_preferences`: every requested category except best time is a hard
   * filter; results carry the default-weight score and are ordered by score, then rating.
   */
  function SearchByPreferences(places: seq<Places.Place>, pref: Categories, limit: nat): (r: Result<seq<ScoredPlace>, SearchError>)
    ensures r.Failure? <==> !HasScoringTerm(pref, DefaultWeights)
    ensures r.Success? ==>
      var ranker := RankerFor(ByScoreRating, pref, DefaultWeights);
      var taken := ScoredPlaces(r.value);
      var kept := Filter(places, pref);
      && |r.value| == (if limit < |kept| then limit else |kept|)
      && (forall i :: 0 <= i < |r.value| ==>
            && MatchesAllRequested(pref, r.value[i].place)
            && r.value[i].relevanceScore == Score(pref, r.value[i].place, DefaultWeights))
      && multiset(taken) <= multiset(kept)
      && ranker.Sorted(taken)
      && (forall x, y :: x in multiset(kept) - multiset(taken) && y in taken ==> ranker.Before(y, x))
  {
    if !HasScoringTerm(pref, DefaultWeights) then Failure(NoRelevanceTerms)
    else
      var kept := Filter(places, pref);
      var top := RankerFor(ByScoreRating, pref, DefaultWeights).Top(kept, limit);
      forall i | 0 <= i < |top| ensures MatchesAllRequested(pref, top[i]) {
        assert top[i] in multiset(kept);
      }
      Success(WithScores(pref, top))
  }

  /**
   * A validated preference always names a best time, so with the default weights neither
   * search takes its failure path.
   */
  lemma ValidatedPreferencesAlwaysScore(places: seq<Places.Place>, pref: Categories, minRelevance: real, limit: nat)
    requires Truthy(pref.bestTime)
    ensures SearchAdvanced(places, pref, None, minRelevance, limit).Success?
    ensures SearchByPreferences(places, pref, limit).Success?
  {
    assert BestTime in DefaultWeights && Requested(pref, BestTime);
  }

  /** With equal scores, a higher rating ranks strictly first, whatever the review counts. */
  lemma RatingBreaksScoreTies(o: Order, a: RankKey, b: RankKey)
    requires a.score == b.score && a.rating.Some? && b.rating.Some? && a.rating.value > b.rating.value
    ensures KeyAtLeast(o, a, b) && !KeyAtLeast(o, b, a)
  {
  }

  /** With equal scores and ratings, the advanced search ranks more reviews strictly first. */
  lemma ReviewsBreakRatingTies(a: RankKey, b: RankKey)
    requires a.score == b.score && a.rating == b.rating
    requires a.reviews.Some? && b.reviews.Some? && a.reviews.value > b.reviews.value
    ensures KeyAtLeast(ByScoreRatingReviews, a, b) && !KeyAtLeast(ByScoreRatingReviews, b, a)
  {
  }

  /** The basic search ignores review counts: equal scores and ratings tie both ways. */
  lemma BasicSearchIgnoresReviews(a: RankKey, b: RankKey)
    requires a.score == b.score && a.rating == b.rating
    ensures KeyAtLeast(ByScoreRating, a, b) && KeyAtLeast(ByScoreRating, b, a)
  {
  }

  /** A null rating sorts before every rating under `DESC`. */
  lemma NullRatingFirst(a: RankKey, b: RankKey)
    requires a.score == b.score && a.rating.None? && b.rating.Some?
    ensures forall o :: KeyAtLeast(o, a, b) && !KeyAtLeast(o, b, a)
  {
  }

  /** The quiet Wi-Fi café of the worked example: entity type, atmosphere and features match. */
  function QuietCafe(): Places.Place {
    Places.Place(1, "A", "a", None, None, ["кафе"], ["тихий"], [], ["Wi-Fi"], None, [], None, None, Some(false), Some(4.0), Some(10))
  }

  /** The plain café of the worked example: only the entity type matches. */
  function PlainCafe(): Places.Place {
    Places.Place(2, "B", "b", None, None, ["кафе"], [], [], [], None, [], None, None, Some(false), Some(5.0), Some(100))
  }

  /** The worked example's request: a quiet café with Wi-Fi to work in during the day. */
  function WorkInCafe(): Categories {
    Categories(["кафе"], ["тихий"], ["работа"], None, ["Wi-Fi"], Some("день"))
  }

  /** The example's scores: 3.0 + 1.5 + 1.0 = 5.5 and 3.0. */
  lemma WorkedExampleScores()
    ensures Score(WorkInCafe(), QuietCafe(), DefaultWeights) == 5.5
    ensures Score(WorkInCafe(), PlainCafe(), DefaultWeights) == 3.0
  {
    QuietCafeScore();
    PlainCafeScore();
  }

  /** The quiet café matches on entity type, atmosphere and features. */
  lemma QuietCafeScore()
    ensures Score(WorkInCafe(), QuietCafe(), DefaultWeights) == 5.5
  {
    var pref, q, w := WorkInCafe(), QuietCafe(), DefaultWeights;
    ScoreExpanded(pref, q, w);
    assert Contribution(pref, q, w, EntityTypes) == 3.0 by {
      assert "кафе" in q.entityTypes && "кафе" in pref.entityTypes;
    }
    assert Contribution(pref, q, w, AtmosphereTags) == 1.5 by {
      assert "тихий" in q.atmosphereTags && "тихий" in pref.atmosphereTags;
    }
    assert Contribution(pref, q, w, Features) == 1.0 by {
      assert "Wi-Fi" in q.features && "Wi-Fi" in pref.features;
    }
    assert Contribution(pref, q, w, PurposeTags) == 0.0;
    assert Contribution(pref, q, w, BudgetLevel) == 0.0;
    assert Contribution(pref, q, w, BestTime) == 0.0;
  }

  /** The plain café matches on entity type only. */
  lemma PlainCafeScore()
    ensures Score(WorkInCafe(), PlainCafe(), DefaultWeights) == 3.0
  {
    var pref, p, w := WorkInCafe(), PlainCafe(), DefaultWeights;
    ScoreExpanded(pref, p, w);
    assert Contribution(pref, p, w, EntityTypes) == 3.0 by {
      assert "кафе" in p.entityTypes && "кафе" in pref.entityTypes;
    }
    assert Contribution(pref, p, w, AtmosphereTags) == 0.0 && Contribution(pref, p, w, Features) == 0.0;
    assert Contribution(pref, p, w, PurposeTags) == 0.0;
    assert Contribution(pref, p, w, BudgetLevel) == 0.0;
    assert Contribution(pref, p, w, BestTime) == 0.0;
  }

  /** Both example places pass the advanced search's WHERE clause with no minimum. */
  lemma WorkedExampleAdmitted()
    ensures multiset(Admit([PlainCafe(), QuietCafe()], WorkInCafe(), DefaultWeights, 0.0)) == multiset{PlainCafe(), QuietCafe()}
  {
    WorkedExampleScores();
    assert Eligible(WorkInCafe(), PlainCafe()) by { assert "кафе" in PlainCafe().entityTypes; }
    assert Eligible(WorkInCafe(), QuietCafe()) by { assert "кафе" in QuietCafe().entityTypes; }
    AdmitAll([PlainCafe(), QuietCafe()], WorkInCafe(), DefaultWeights, 0.0);
  }

  /** When every place is admissible, all of them are admitted. */
  lemma AdmitAll(places: seq<Places.Place>, pref: Categories, w: Weights, minRelevance: real)
    requires forall i :: 0 <= i < |places| ==> Admissible(pref, w, minRelevance, places[i])
    ensures multiset(Admit(places, pref, w, minRelevance)) == multiset(places)
  {
    var r := Admit(places, pref, w, minRelevance);
    forall p ensures multiset(r)[p] == multiset(places)[p] {
      if p in places {
        var i :| 0 <= i < |places| && places[i] == p;
      }
    }
  }

  /**
   * When exactly two places are admitted and one ranks strictly above the other, the
   * advanced search returns both, the higher first.
   */
  lemma AdvancedRanksPair(places: seq<Places.Place>, pref: Categories, weights: Option<Weights>,
                          minRelevance: real, limit: nat, x: Places.Place, y: Places.Place)
    requires HasScoringTerm(pref, EffectiveWeights(weights)) && limit >= 2
    requires multiset(Admit(places, pref, EffectiveWeights(weights), minRelevance)) == multiset{x, y}
    requires !RankerFor(ByScoreRatingReviews, pref, EffectiveWeights(weights)).Before(y, x)
    ensures var r := SearchAdvanced(places, pref, weights, minRelevance, limit);
      r.Success? && PlacesOf(r.value) == [x, y]
  {
    var w := EffectiveWeights(weights);
    var r := SearchAdvanced(places, pref, weights, minRelevance, limit);
    var admitted := Admit(places, pref, w, minRelevance);
    assert |admitted| == 2 by { assert |multiset(admitted)| == 2; }
    RankerFor(ByScoreRatingReviews, pref, w).SortedPair(PlacesOf(r.value), x, y);
  }

  /** The advanced search ranks the better-matching café first, despite its lower rating. */
  lemma WorkedExampleRanking()
    ensures var r := SearchAdvanced([PlainCafe(), QuietCafe()], WorkInCafe(), None, 0.0, 10);
      r.Success? && PlacesOf(r.value) == [QuietCafe(), PlainCafe()]
  {
    var pref := WorkInCafe();
    assert HasScoringTerm(pref, DefaultWeights) by { assert EntityTypes in DefaultWeights && Requested(pref, EntityTypes); }
    WorkedExampleAdmitted();
    WorkedExampleScores();
    AdvancedRanksPair([PlainCafe(), QuietCafe()], pref, None, 0.0, 10, QuietCafe(), PlainCafe());
  }
}

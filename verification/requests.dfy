/**
 * The request bodies of the HTTP layer (api/main.py) as the schema library checks them:
 * required and defaulted fields, string lengths, numeric bounds, the list-size bounds of a
 * batch and the budget-level validator. A body is a JSON object; a rejected body names the
 * fields that failed.
 */
module Requests {

  import opened Wrappers
  import opened Json
  import Taxonomy
  import Validation

  /** `validate_budget_level`'s refusal. */
  datatype BudgetError = UnknownBudgetLevel(value: string)

  /** The `budget_level` validator: null or one of the three levels passes through unchanged. */
  function ValidateBudgetLevel(v: Option<string>): (r: Result<Option<string>, BudgetError>)
    ensures r.Success? <==> v.None? || v.value in Taxonomy.BudgetLevels
    ensures r.Success? ==> r.value == v
    ensures r.Failure? ==> r.error == UnknownBudgetLevel(v.value)
  {
    if v.Some? && v.value !in Taxonomy.BudgetLevels then Failure(UnknownBudgetLevel(v.value)) else Success(v)
  }

  /** The request validator and the language-model validator accept the same budget levels. */
  lemma BudgetValidatorsAgree(v: Option<string>)
    ensures ValidateBudgetLevel(v).Success? <==> Validation.IsAllowed("budget_level", OptStr(v))
  {
  }

  // Field decoders. Each yields None when the field is present but unacceptable.

  /** A required string of at least `minLength` characters. */
  function RequiredText(body: Object, key: string, minLength: nat): (r: Option<string>)
    ensures r.Some? <==> key in body && body[key].Str? && |body[key].s| >= minLength
    ensures r.Some? ==> r.value == body[key].s
  {
    if key in body && body[key].Str? && |body[key].s| >= minLength then Some(body[key].s) else None
  }

  /** An optional string defaulting to null; an explicit null is accepted. */
  function NullableText(body: Object, key: string): (r: Option<Option<string>>)
    ensures key !in body ==> r == Some(None)
    ensures key in body ==> (r.Some? <==> body[key].Str? || body[key].Null?)
    ensures r.Some? && key in body ==> OptStr(r.value) == body[key]
  {
    if key !in body || body[key].Null? then Some(None)
    else if body[key].Str? then Some(Some(body[key].s))
    else None
  }

  /** A string with a default; null is refused. */
  function TextOr(body: Object, key: string, default: string): (r: Option<string>)
    ensures key !in body ==> r == Some(default)
    ensures key in body ==> (r.Some? <==> body[key].Str?)
    ensures r.Some? && key in body ==> Str(r.value) == body[key]
  {
    if key !in body then Some(default) else if body[key].Str? then Some(body[key].s) else None
  }

  /** A list of strings defaulting to the empty list; null is refused. */
  function TextList(body: Object, key: string): (r: Option<seq<string>>)
    ensures key !in body ==> r == Some([])
    ensures key in body ==> (r.Some? <==> IsStrList(body[key]))
    ensures r.Some? && key in body ==> StrList(r.value) == body[key]
  {
    if key !in body then Some([]) else if IsStrList(body[key]) then Some(Strings(body[key])) else None
  }

  /** A boolean defaulting to `false`. */
  function Flag(body: Object, key: string): (r: Option<bool>)
    ensures key !in body ==> r == Some(false)
    ensures key in body ==> (r.Some? <==> body[key].Bool?)
    ensures r.Some? && key in body ==> Bool(r.value) == body[key]
  {
    if key !in body then Some(false) else if body[key].Bool? then Some(body[key].b) else None
  }

  /** A float in `[lo, hi]` with a default; an integer is widened to a float. */
  function BoundedNumber(body: Object, key: string, default: real, lo: real, hi: real): (r: Option<real>)
    ensures key !in body ==> r == Some(default)
    ensures key in body && r.Some? ==> lo <= r.value <= hi
    ensures key in body && body[key].Num? ==> (r.Some? <==> lo <= body[key].r <= hi)
    ensures key in body && body[key].Num? && r.Some? ==> r.value == body[key].r
    ensures key in body && body[key].Int? ==> (r.Some? <==> lo <= body[key].i as real <= hi)
    ensures key in body && body[key].Int? && r.Some? ==> r.value == body[key].i as real
    ensures key in body && !body[key].Num? && !body[key].Int? ==> r.None?
  {
    if key !in body then Some(default)
    else
      var v := body[key];
      if v.Num? && lo <= v.r <= hi then Some(v.r)
      else if v.Int? && lo <= v.i as real <= hi then Some(v.i as real)
      else None
  }

  /** An integer in `[lo, hi]` with a default. */
  function BoundedInt(body: Object, key: string, default: int, lo: int, hi: Option<int>): (r: Option<int>)
    ensures key !in body ==> r == Some(default)
    ensures key in body ==> (r.Some? <==> body[key].Int? && lo <= body[key].i && (hi.Some? ==> body[key].i <= hi.value))
    ensures key in body && r.Some? ==> Int(r.value) == body[key]
  {
    if key !in body then Some(default)
    else
      var v := body[key];
      if v.Int? && lo <= v.i && (hi.Some? ==> v.i <= hi.value) then Some(v.i) else None
  }

  /** The field's name when its decoder refused it, else nothing. */
  function RefusedIf<T>(key: string, decoded: Option<T>): (r: set<string>)
    ensures key in r <==> decoded.None?
    ensures r <= {key}
  {
    if decoded.None? then {key} else {}
  }

  /** A `PlaceCreate` body after defaults were filled in. */
  datatype PlaceCreate = PlaceCreate(
    title: string,
    url: string,
    photo: Option<string>,
    description: Option<string>,
    entityTypes: seq<string>,
    atmosphereTags: seq<string>,
    purposeTags: seq<string>,
    budgetLevel: Option<string>,
    features: seq<string>,
    bestTime: string,
    workingDays: seq<string>,
    openingHours: Option<string>,
    open24x7: bool,
    overallRating: real,
    reviewCount: int)

  /** The constraints of `PlaceCreate`: a non-empty title, a known or absent budget level, a rating in [0, 5], a non-negative count. */
  predicate ValidPlaceCreate(p: PlaceCreate) {
    && |p.title| >= 1
    && (p.budgetLevel.None? || p.budgetLevel.value in Taxonomy.BudgetLevels)
    && 0.0 <= p.overallRating <= 5.0
    && p.reviewCount >= 0
  }

  /** The budget level field: an optional string the validator then checks. */
  function BudgetField(body: Object): (r: Option<Option<string>>)
    ensures r.Some? ==> ValidateBudgetLevel(r.value).Success?
    ensures r.Some? <==> NullableText(body, "budget_level").Some? && ValidateBudgetLevel(NullableText(body, "budget_level").value).Success?
  {
    match NullableText(body, "budget_level")
    case None => None
    case Some(b) => if ValidateBudgetLevel(b).Success? then Some(b) else None
  }

  /** Every field of a `PlaceCreate` body, decoded on its own. */
  datatype Decoded = Decoded(
    title: Option<string>,
    url: Option<string>,
    photo: Option<Option<string>>,
    description: Option<Option<string>>,
    entityTypes: Option<seq<string>>,
    atmosphereTags: Option<seq<string>>,
    purposeTags: Option<seq<string>>,
    budgetLevel: Option<Option<string>>,
    features: Option<seq<string>>,
    bestTime: Option<string>,
    workingDays: Option<seq<string>>,
    openingHours: Option<Option<string>>,
    open24x7: Option<bool>,
    overallRating: Option<real>,
    reviewCount: Option<int>)

  /** Runs each field's decoder, with the defaults and bounds of `PlaceCreate`. */
  function Decode(body: Object): Decoded {
    Decoded(
      RequiredText(body, "title", 1), RequiredText(body, "url", 0),
      NullableText(body, "photo"), NullableText(body, "description"),
      TextList(body, "entity_types"), TextList(body, "atmosphere_tags"), TextList(body, "purpose_tags"),
      BudgetField(body), TextList(body, "features"), TextOr(body, "best_time", ""),
      TextList(body, "working_days"), NullableText(body, "opening_hours"), Flag(body, "is_24_7"),
      BoundedNumber(body, "overall_rating", 0.0, 0.0, 5.0), BoundedInt(body, "review_count", 0, 0, None))
  }

  /** No decoder refused its field. */
  predicate AllDecoded(d: Decoded) {
    && d.title.Some? && d.url.Some? && d.photo.Some? && d.description.Some?
    && d.entityTypes.Some? && d.atmosphereTags.Some? && d.purposeTags.Some?
    && d.budgetLevel.Some? && d.features.Some? && d.bestTime.Some? && d.workingDays.Some?
    && d.openingHours.Some? && d.open24x7.Some? && d.overallRating.Some? && d.reviewCount.Some?
  }

  /** The names of the fields refused. */
  function Refusals(d: Decoded): (r: set<string>)
    ensures r == {} <==> AllDecoded(d)
  {
    RefusedIf("title", d.title) + RefusedIf("url", d.url) + RefusedIf("photo", d.photo)
    + RefusedIf("description", d.description) + RefusedIf("entity_types", d.entityTypes)
    + RefusedIf("atmosphere_tags", d.atmosphereTags) + RefusedIf("purpose_tags", d.purposeTags)
    + RefusedIf("budget_level", d.budgetLevel) + RefusedIf("features", d.features)
    + RefusedIf("best_time", d.bestTime) + RefusedIf("working_days", d.workingDays)
    + RefusedIf("opening_hours", d.openingHours) + RefusedIf("is_24_7", d.open24x7)
    + RefusedIf("overall_rating", d.overallRating) + RefusedIf("review_count", d.reviewCount)
  }

  /**
   * Parses a `PlaceCreate` body: every field is checked, absent optional fields take their
   * defaults, and the body is either rejected with the set of fields that failed or
   * accepted as a record meeting the model's constraints.
   */
  function ParsePlaceCreate(body: Object): (r: Result<PlaceCreate, set<string>>)
    ensures r.Success? <==> AllDecoded(Decode(body))
    ensures r.Success? ==> ValidPlaceCreate(r.value)
    ensures r.Failure? ==> r.error != {} && r.error == Refusals(Decode(body))
  {
    var d := Decode(body);
    if !AllDecoded(d) then Failure(Refusals(d))
    else
      Success(PlaceCreate(d.title.value, d.url.value, d.photo.value, d.description.value,
        d.entityTypes.value, d.atmosphereTags.value, d.purposeTags.value, d.budgetLevel.value,
        d.features.value, d.bestTime.value, d.workingDays.value, d.openingHours.value,
        d.open24x7.value, d.overallRating.value, d.reviewCount.value))
  }

  /**
   * Absent fields take the defaults of `PlaceCreate`: empty lists, an empty best time, no
   * budget level, `false`, a 0.0 rating and no reviews.
   */
  lemma ParsePlaceCreateDefaults(body: Object)
    requires ParsePlaceCreate(body).Success?
    ensures var p := ParsePlaceCreate(body).value;
      && ("entity_types" !in body ==> p.entityTypes == [])
      && ("atmosphere_tags" !in body ==> p.atmosphereTags == [])
      && ("purpose_tags" !in body ==> p.purposeTags == [])
      && ("features" !in body ==> p.features == [])
      && ("working_days" !in body ==> p.workingDays == [])
      && ("best_time" !in body ==> p.bestTime == "")
      && ("budget_level" !in body ==> p.budgetLevel.None?)
      && ("is_24_7" !in body ==> !p.open24x7)
      && ("overall_rating" !in body ==> p.overallRating == 0.0)
      && ("review_count" !in body ==> p.reviewCount == 0)
  {
  }

  /** The body that describes a record field for field. */
  function PlaceCreateBody(p: PlaceCreate): (body: Object)
    ensures "title" in body && "review_count" in body
  {
    map[
      "title" := Str(p.title), "url" := Str(p.url), "photo" := OptStr(p.photo),
      "description" := OptStr(p.description), "entity_types" := StrList(p.entityTypes),
      "atmosphere_tags" := StrList(p.atmosphereTags), "purpose_tags" := StrList(p.purposeTags),
      "budget_level" := OptStr(p.budgetLevel), "features" := StrList(p.features),
      "best_time" := Str(p.bestTime), "working_days" := StrList(p.workingDays),
      "opening_hours" := OptStr(p.openingHours), "is_24_7" := Bool(p.open24x7),
      "overall_rating" := Num(p.overallRating), "review_count" := Int(p.reviewCount)
    ]
  }

  /** The body holds each field of `p` under its key. */
  predicate Describes(body: Object, p: PlaceCreate) {
    && "title" in body && body["title"] == Str(p.title)
    && "url" in body && body["url"] == Str(p.url)
    && "photo" in body && body["photo"] == OptStr(p.photo)
    && "description" in body && body["description"] == OptStr(p.description)
    && "entity_types" in body && body["entity_types"] == StrList(p.entityTypes)
    && "atmosphere_tags" in body && body["atmosphere_tags"] == StrList(p.atmosphereTags)
    && "purpose_tags" in body && body["purpose_tags"] == StrList(p.purposeTags)
    && "budget_level" in body && body["budget_level"] == OptStr(p.budgetLevel)
    && "features" in body && body["features"] == StrList(p.features)
    && "best_time" in body && body["best_time"] == Str(p.bestTime)
    && "working_days" in body && body["working_days"] == StrList(p.workingDays)
    && "opening_hours" in body && body["opening_hours"] == OptStr(p.openingHours)
    && "is_24_7" in body && body["is_24_7"] == Bool(p.open24x7)
    && "overall_rating" in body && body["overall_rating"] == Num(p.overallRating)
    && "review_count" in body && body["review_count"] == Int(p.reviewCount)
  }

  /** The body written for a record describes it. */
  lemma BodyDescribes(p: PlaceCreate)
    ensures Describes(PlaceCreateBody(p), p)
  {
  }

  /** Any body describing a valid record parses to exactly that record. */
  lemma ParseDescribed(body: Object, p: PlaceCreate)
    requires ValidPlaceCreate(p) && Describes(body, p)
    ensures ParsePlaceCreate(body) == Success(p)
  {
    StringsOfStrList(p.entityTypes);
    StringsOfStrList(p.atmosphereTags);
    StringsOfStrList(p.purposeTags);
    StringsOfStrList(p.features);
    StringsOfStrList(p.workingDays);
    assert BudgetField(body) == Some(p.budgetLevel);
  }

  /** Every valid record survives being written out as a body and parsed back. */
  lemma PlaceCreateRoundTrip(p: PlaceCreate)
    requires ValidPlaceCreate(p)
    ensures ParsePlaceCreate(PlaceCreateBody(p)) == Success(p)
  {
    BodyDescribes(p);
    ParseDescribed(PlaceCreateBody(p), p);
  }

  /** A body with only a title and a url takes every default. */
  lemma MinimalPlaceCreate(title: string, url: string)
    requires |title| >= 1
    ensures ParsePlaceCreate(map["title" := Str(title), "url" := Str(url)])
      == Success(PlaceCreate(title, url, None, None, [], [], [], None, [], "", [], None, false, 0.0, 0))
  {
  }

  /** A rating above five is refused, and named. */
  lemma RatingAboveFiveRefused(title: string, url: string)
    requires |title| >= 1
    ensures ParsePlaceCreate(map["title" := Str(title), "url" := Str(url), "overall_rating" := Num(5.5)])
      == Failure({"overall_rating"})
  {
    var body := map["title" := Str(title), "url" := Str(url), "overall_rating" := Num(5.5)];
    var d := Decode(body);
    assert d.overallRating.None?;
    assert d == Decoded(Some(title), Some(url), Some(None), Some(None), Some([]), Some([]), Some([]),
      Some(None), Some([]), Some(""), Some([]), Some(None), Some(false), None, Some(0));
    assert Refusals(d) == {"overall_rating"};
  }

  /** A `RecommendationRequest` body after defaults. */
  datatype RecommendationRequest = RecommendationRequest(userPrompt: string, limit: int)

  /** The default number of recommendations. */
  const DefaultLimit: int := 10

  /**
   * Parses a `RecommendationRequest`: a prompt of at least five characters and a limit in
   * [1, 50], ten when absent.
   */
  function ParseRecommendationRequest(body: Object): (r: Result<RecommendationRequest, set<string>>)
    ensures r.Success? ==> |r.value.userPrompt| >= 5 && 1 <= r.value.limit <= 50
    ensures r.Success? && "limit" !in body ==> r.value.limit == DefaultLimit
    ensures r.Success? <==>
      && "user_prompt" in body && body["user_prompt"].Str? && |body["user_prompt"].s| >= 5
      && ("limit" in body ==> body["limit"].Int? && 1 <= body["limit"].i <= 50)
    ensures r.Success? ==> Str(r.value.userPrompt) == body["user_prompt"]
    ensures r.Failure? ==> r.error != {} && r.error <= {"user_prompt", "limit"}
    ensures r.Failure? ==>
      && ("user_prompt" in r.error <==> !("user_prompt" in body && body["user_prompt"].Str? && |body["user_prompt"].s| >= 5))
      && ("limit" in r.error <==> "limit" in body && !(body["limit"].Int? && 1 <= body["limit"].i <= 50))
  {
    var prompt := RequiredText(body, "user_prompt", 5);
    var limit := BoundedInt(body, "limit", DefaultLimit, 1, Some(50));
    var refused := RefusedIf("user_prompt", prompt) + RefusedIf("limit", limit);
    if refused != {} then Failure(refused) else Success(RecommendationRequest(prompt.value, limit.value))
  }

  /** Limits 0 and 51 are refused, 1 and 50 accepted. */
  lemma LimitBounds(prompt: string)
    requires |prompt| >= 5
    ensures ParseRecommendationRequest(map["user_prompt" := Str(prompt), "limit" := Int(0)]).Failure?
    ensures ParseRecommendationRequest(map["user_prompt" := Str(prompt), "limit" := Int(51)]).Failure?
    ensures ParseRecommendationRequest(map["user_prompt" := Str(prompt), "limit" := Int(1)]).Success?
    ensures ParseRecommendationRequest(map["user_prompt" := Str(prompt), "limit" := Int(50)]).Success?
  {
  }

  /** Why a batch body is refused. */
  datatype BatchError =
    | BadSize(size: nat)                        // fewer than 1 or more than 100 places
    | BadPlaces(fields: map<nat, set<string>>)  // for each refused place, its refused fields

  /** The smallest and largest batch. */
  const MinBatch: nat := 1
  const MaxBatch: nat := 100

  /** The refusals of the places of a batch, by index. */
  function BatchRefusals(places: seq<Object>): (m: map<nat, set<string>>)
    ensures forall i :: i in m <==> 0 <= i < |places| && ParsePlaceCreate(places[i]).Failure?
    ensures forall i :: i in m ==> m[i] == ParsePlaceCreate(places[i]).error
  {
    map i | 0 <= i < |places| && ParsePlaceCreate(places[i]).Failure? :: ParsePlaceCreate(places[i]).error
  }

  /**
   * Parses a `BatchPlaceCreate` body given as its list of place bodies: one to a hundred
   * places, each of which must parse; the result lists them in order.
   */
  function ParseBatch(places: seq<Object>): (r: Result<seq<PlaceCreate>, BatchError>)
    ensures r.Success? <==>
      MinBatch <= |places| <= MaxBatch && forall i :: 0 <= i < |places| ==> ParsePlaceCreate(places[i]).Success?
    ensures r.Success? ==>
      && |r.value| == |places|
      && forall i :: 0 <= i < |places| ==> Success(r.value[i]) == ParsePlaceCreate(places[i])
    ensures r.Success? ==> forall i :: 0 <= i < |r.value| ==> ValidPlaceCreate(r.value[i])
    ensures r.Failure? && r.error.BadPlaces? ==> r.error.fields.Keys != {}
  {
    if !(MinBatch <= |places| <= MaxBatch) then Failure(BadSize(|places|))
    else
      var refusals := BatchRefusals(places);
      if refusals != map[] then
        assert refusals.Keys != {} by {
          var k :| k in refusals;
        }
        Failure(BadPlaces(refusals))
      else
        assert forall i :: 0 <= i < |places| ==> i !in refusals;
        Success(seq(|places|, i requires 0 <= i < |places| => ParsePlaceCreate(places[i]).value))
  }

  /**
   * The fields of a review: the `Form` parameters of the `/review` route, which carry the same
   * bounds as the `ReviewRequest` schema (a schema the route itself does not use).
   */
  datatype ReviewRequest = ReviewRequest(url: string, placeTitle: string, reviewText: string)

  /**
   * Checks the review fields: a non-empty url, a non-empty title and a review of at least ten
   * characters; a refusal names exactly the fields that failed. The url has no declared
   * bound, but the framework reads an empty form value as a missing one, so an empty url is
   * refused like an absent url.
   */
  function ParseReviewRequest(body: Object): (r: Result<ReviewRequest, set<string>>)
    ensures r.Success? <==>
      && "url" in body && body["url"].Str? && |body["url"].s| >= 1
      && "place_title" in body && body["place_title"].Str? && |body["place_title"].s| >= 1
      && "review_text" in body && body["review_text"].Str? && |body["review_text"].s| >= 10
    ensures r.Success? ==>
      && Str(r.value.url) == body["url"]
      && Str(r.value.placeTitle) == body["place_title"]
      && Str(r.value.reviewText) == body["review_text"]
    ensures r.Failure? ==> r.error != {} && r.error <= {"url", "place_title", "review_text"}
    ensures r.Failure? ==>
      && ("url" in r.error <==> !("url" in body && body["url"].Str? && |body["url"].s| >= 1))
      && ("place_title" in r.error <==> !("place_title" in body && body["place_title"].Str? && |body["place_title"].s| >= 1))
      && ("review_text" in r.error <==> !("review_text" in body && body["review_text"].Str? && |body["review_text"].s| >= 10))
  {
    var url := RequiredText(body, "url", 1);
    var title := RequiredText(body, "place_title", 1);
    var review := RequiredText(body, "review_text", 10);
    var refused := RefusedIf("url", url) + RefusedIf("place_title", title) + RefusedIf("review_text", review);
    if refused != {} then Failure(refused) else Success(ReviewRequest(url.value, title.value, review.value))
  }
}

# Place recommendation core, modelled in Dafny

This project models the core of a place-recommendation service. A user's free-text wish
("a quiet cafe to work in during the day") is turned by a language model into six tag
categories. These are entity types, atmosphere, purpose, budget level, features and best
time of day. The categories are validated against closed vocabularies, and the stored places
are then scored, filtered, ranked and cut to a limit. User reviews add tags to a place or
create it. The model covers the following parts.

- **Places** (`places.dfy`, module `Places`). The sixteen-column place record:
  - nullability and column widths;
  - the 32-bit integer columns;
  - the column names `update_place` may write;
  - `to_dict`.
- **Tags** (`tags.dfy`, `Tags`): the six-field category object, Python truthiness of its
  optional fields, and the tag-set operations.
- **Validation** (`validation.dfy`, `Validation`): `validate_llm_response`:
  - missing fields and wrong types abort at the first one;
  - vocabulary violations and extra keys are collected into one error.
- **Merge** (`merge.dfy`, `Merge`): `merge_categories`. It takes the union of the four tag
  lists. The new best time and budget level win only when truthy.
- **Scoring and ranking** (`scoring.dfy`, `ranking.dfy`). Both searches, modelled as a
  pipeline over the table's rows:
  1. a weighted relevance score;
  2. the eligibility gate;
  3. the minimum-relevance filter;
  4. a sort by score, rating and review count, descending, with SQL NULLs first;
  5. the `limit`;
  6. the per-category match details.
- **Store** (`store.dfy`, `Store`): the table as a sequence of rows, with:
  - the lookups `scalar_one` and `scalar_one_or_none`;
  - `update_place` (every attribute except `title`);
  - `add_place`;
  - `create_or_update_place_from_review`.
- **Conversation** (`conversation.dfy`, `Conversation`): the per-conversation history kept by
  `analyze_user_preferences`:
  - it is sent between the system prompt and the user prompt;
  - it is extended only after a validated answer;
  - it is cut to the last ten messages;
  - `clear_conversation_cache` empties it.
- **Text** (`text.dfy`, `Text`): Python's `str.strip`, `startswith` and `replace`, and the two
  length caps (the explanation and a new place's description).
- **Requests** (`requests.dfy`, `Requests`): the request schemas of the HTTP layer as
  decoders from JSON objects:
  - `PlaceCreate` with its budget validator;
  - `RecommendationRequest`;
  - `BatchPlaceCreate`;
  - the review fields. The `/review` route takes them as multipart `Form` parameters with the
    bounds of the `ReviewRequest` schema (api/main.py:463-466); the schema itself
    (api/main.py:192-195) is declared but no route uses it. The url has no declared bound; an
    empty url is refused because the framework treats an empty form value as absent.
- **Photos** (`photos.dfy`, `Photos`): the path logic of the legacy photo route, as written
  and corrected (see Findings).

The language model, the database and the HTTP server are not modelled as code. Their outputs
become parameters:
- the model's raw reply and its JSON parse;
- the categories extracted from a review;
- the id the database assigns to a new row.

## Model

| member | source | states |
|---|---|---|
| `Validation.FirstNonConforming` | api/agent.py:243-254 | the presence and type checks stop at the first expected field that is missing or of the wrong type, and every earlier field conforms |
| `Validation.CheckStructure` | api/agent.py:243-254 | the structure check passes iff every expected field is present with its expected type; otherwise it names the first missing or mistyped field, every earlier one conforms, and the response is not well formed |
| `Validation.ItemIssues` | api/agent.py:269-275 | a list field reports exactly the items outside its vocabulary |
| `Validation.FieldIssues` | api/agent.py:267-281 | a field's value errors are exactly its offending values, whether the value is a list or a single value |
| `Validation.AllFieldIssues` | api/agent.py:266-281 | the collected errors are exactly the offending values of every field, with none dropped and none invented |
| `Validation.CheckValues` | api/agent.py:256-293 | on a correctly typed response the error list is empty iff the response is well formed; it reports a value iff that value offends, and reports extra fields iff there are keys outside the expected six |
| `Validation.Validate` | api/agent.py:237-295 | accepts iff the response is well formed; an accepted response converts back to the same object and is valid; a missing field or wrong type names the first such field; otherwise the error lists every bad value and every extra key |
| `Validation.ListFieldIff` | api/agent.py:269-275 | a list field is valid iff none of its items offends |
| `Validation.SingleFieldIff` | api/agent.py:276-281 | a single-valued field is valid iff it does not offend |
| `Validation.WellFormedIff` | api/agent.py:256-290 | once every field is present and typed, acceptance is equivalent to "no offending value and no extra key" |
| `Validation.AcceptedIsValid` | api/agent.py:256-281 | an accepted response holds only vocabulary tags, a known or null budget level and a known best time |
| `Validation.ValidateRoundTrip` | api/agent.py:237-295 | every valid category object is accepted and converts back to itself |
| `Validation.ValidIsWellFormed` | api/agent.py:237-295 | the object form of valid categories passes every check of the validator |
| `Validation.ToObjectInjective` | api/agent.py:237-295 | two category records with the same object form are equal, so an accepted response determines its categories |
| `Validation.UnknownEntityTypeRejected` | api/agent.py:243-275 | for every category object with a best time, any entity type outside the vocabulary is reported as a bad value of `entity_types` |
| `Validation.NullBestTimeIsTypeError` | api/agent.py:247-254 | for every category object whose best time is null, validation fails with a type error on `best_time` and on no other field, before any value is checked |
| `Validation.EmptyBestTimeIsValueError` | api/agent.py:276-281 | for every category object whose best time is the empty string, the type check passes and the vocabulary check reports that empty value |
| `Validation.OnlyBestTimeOffends` | api/agent.py:276-281 | with empty tag lists and a null budget, a best time outside the vocabulary is rejected with that value as the only error |
| `Tags.Matching` | api/crud.py:210-214 | the matching tags are exactly the place's tags that the preference names, with multiplicity, and none exist iff the lists do not overlap |
| `Tags.MatchingAppend` | api/crud.py:210-214 | matching a concatenation is matching each part, concatenated in order: the comprehension keeps the place's order |
| `Tags.MatchingSingle` | api/crud.py:210-214 | a single tag is kept iff the preference lists it |
| `Tags.Union` | api/agent.py:499-501 | the union holds exactly the elements of both lists, each once |
| `Tags.DistinctFromTwice` | api/agent.py:499-501 | removing duplicates twice is removing them once |
| `Tags.UnionAbsorbsLeft` | api/agent.py:499-501 | a union already containing the left list's tags is unchanged by a second union with that list |
| `Tags.UnionAbsorbsRight` | api/agent.py:499-501 | a union already containing the right list's tags is unchanged by a second union with that list |
| `Tags.ToObject` | api/agent.py:132-139 | a category object serialises to exactly the six expected keys |
| `Merge.MergeCategories` | api/agent.py:487-511 | each merged tag list holds exactly the existing and the new tags, without duplicates; a truthy new best time or budget level wins, otherwise the existing one is kept |
| `Merge.MergeNeverErases` | api/agent.py:497-509 | no existing tag is lost, and a null or empty new value never erases an existing best time or budget level |
| `Merge.MergeAbsorbsExisting` | api/agent.py:494-511 | merging the existing categories into a merge result changes nothing |
| `Merge.MergeAbsorbsNew` | api/agent.py:494-511 | merging the same new categories a second time changes nothing |
| `Merge.NullBudgetKeepsStored` | api/agent.py:507-509 | any stored budget level survives a review whose budget level is null or empty |
| `Scoring.EffectiveWeights` | api/crud.py:139-147 | a non-empty custom weight map replaces the defaults wholesale; no map or an empty one falls back to the defaults |
| `Scoring.DefaultWeightsTotal` | api/crud.py:139-146 | the default weights are non-negative and sum to 10 |
| `Scoring.ScoreOver` | api/crud.py:150-164 | with non-negative weights, a partial score lies between 0 and the sum of the weights it ranges over |
| `Scoring.ScoreExpanded` | api/crud.py:150-164 | the score is the sum of the six categories' contributions: entity types, purpose, budget, atmosphere, features and best time |
| `Scoring.ScoreBounds` | api/crud.py:139-164 | with non-negative weights, every score lies between 0 and the sum of the weights |
| `Scoring.ScoreOverSameMatches` | api/crud.py:150-164 | two places that match the same categories get the same partial score |
| `Scoring.ScoreDependsOnlyOnMatches` | api/crud.py:150-164 | the score depends on a place only through which categories it matches |
| `Scoring.WithTags` | api/crud.py:161-164 | replacing one tag list of a place leaves its other categories untouched |
| `Scoring.OverlapIsBinary` | api/crud.py:159-164 | adding tags to a list that already overlaps the preference does not change the score |
| `Scoring.ScoreOverIgnoresUnrequested` | api/crud.py:151-152 | a category the preference leaves falsy contributes nothing to a partial score, whatever its weight |
| `Scoring.UnrequestedWeightIrrelevant` | api/crud.py:151-152 | a falsy preference field contributes exactly 0; dropping or changing its weight leaves every score unchanged |
| `Scoring.Details` | api/crud.py:209-215 | each match list is the place's tag list filtered by the preference (`Tags.Matching`, in the place's order, with multiplicity); the budget match is plain equality |
| `Scoring.DetailsExplainScore` | api/crud.py:150-164 | a requested category with a non-zero weight earns its weight iff its match details are non-empty (or, for the budget, iff the budgets match) |
| `Scoring.NullBudgetsMatch` | api/crud.py:213 | two null budgets are reported as matching, yet earn no score |
| `Scoring.GateIgnoresSoftCategories` | api/crud.py:176-188 | eligibility depends only on the entity types and the budget level, never on atmosphere, purpose, features or best time |
| `Scoring.CafeRequestExcludesBar` | api/crud.py:177-178 | a request for a cafe excludes a place that is only a bar |
| `Ranking.KeyTotal` | api/crud.py:193-196 | any two ranking keys are comparable |
| `Ranking.KeyTransitive` | api/crud.py:193-196 | the ranking order is transitive |
| `Ranking.Ranker.Insert` | api/crud.py:193-196 | insertion adds exactly one element |
| `Ranking.Ranker.InsertSorted` | api/crud.py:193-196 | inserting into a sorted list keeps it sorted |
| `Ranking.Ranker.Sort` | api/crud.py:193-196 | the result is a permutation of the input, ordered by the ranking keys |
| `Ranking.Ranker.Top` | api/crud.py:191-197 | the first `limit` places in ranking order: no more than `limit`, drawn from the input, sorted, and outranking every place left out |
| `Ranking.Ranker.PrefixRanksAbove` | api/crud.py:193-197 | a prefix of a sorted list is sorted, and each of its places may come before every place after it |
| `Ranking.Ranker.SortedPair` | api/crud.py:193-196 | two places that are sorted with the second not strictly ahead appear in the stated order |
| `Ranking.RankerFor` | api/crud.py:193-196 | the key is (score, overall rating, review count) under the chosen order |
| `Ranking.Admit` | api/crud.py:176-192 | exactly the eligible places scoring at least the minimum relevance pass, with their multiplicity |
| `Ranking.AdmitAll` | api/crud.py:176-192 | when every place passes the WHERE clause, the admitted rows are exactly the input places, counted with multiplicity |
| `Ranking.SearchAdvanced` | api/crud.py:128-218 | fails iff no weighted category is requested; otherwise it returns `min(limit, admitted)` eligible places scoring at least `min_relevance`, sorted by (score, rating, reviews) and outranking every admitted place left out, each with its score and match details |
| `Ranking.Filter` | api/crud.py:57-70 | exactly the places matching every requested category except best time pass the basic search's WHERE clause |
| `Ranking.SearchByPreferences` | api/crud.py:36-125 | fails iff no category is requested; otherwise it returns `min(limit, kept)` places matching all requested categories, sorted by (score, rating), with their default-weight scores, outranking every place left out |
| `Ranking.ValidatedPreferencesAlwaysScore` | api/crud.py:150-170 | a validated preference always has a best time, so with default weights neither search fails |
| `Ranking.RatingBreaksScoreTies` | api/crud.py:193-195 | among equal scores, the higher rating ranks strictly first |
| `Ranking.ReviewsBreakRatingTies` | api/crud.py:193-196 | among equal scores and ratings, more reviews rank strictly first in the advanced search |
| `Ranking.BasicSearchIgnoresReviews` | api/crud.py:110 | the basic search ties places with equal score and rating, whatever their review counts |
| `Ranking.NullRatingFirst` | api/crud.py:195 | under a descending sort, a place without a rating comes before a rated one with the same score |
| `Ranking.WorkedExampleScores` | api/crud.py:139-164 | a quiet cafe with Wi-Fi scores 5.5 for "quiet cafe to work in during the day", and a plain cafe scores 3.0 |
| `Ranking.WorkedExampleAdmitted` | api/crud.py:176-192 | both cafes pass the gate and the minimum relevance |
| `Ranking.AdvancedRanksPair` | api/crud.py:191-197 | when exactly two places are admitted and the second does not outrank the first, the search returns them in that order |
| `Ranking.WorkedExampleRanking` | api/crud.py:191-197 | the quiet cafe is recommended before the better-rated plain cafe |
| `Places.ColumnNamed` | api/crud.py:242 | a key names a column iff it is that column's attribute name |
| `Places.NameInjective` | api/models.py:14-34 | distinct columns have distinct names |
| `Places.NameRoundTrip` | api/models.py:14-34 | every column's name is a column name and resolves back to that column |
| `Places.ColumnNamesExact` | api/models.py:59-76 | the sixteen column names are exactly the keys that resolve to a column |
| `Places.ToDict` | api/models.py:57-76 | exactly sixteen keys; every column is copied verbatim except that a null best time becomes "" |
| `Places.EntryOf` | api/models.py:57-76 | every column's serialised value sits under that column's name |
| `Store.IndexFrom` | api/crud.py:235-238 | the first matching row at or after a position, or none |
| `Store.TheRow` | api/crud.py:235-238 | `scalar_one`: the unique matching row, "not found" iff none matches, "multiple" iff two do |
| `Store.ByUrl` | api/crud.py:221-228 | `scalar_one_or_none` by url: none iff no row has the url, the row iff exactly one does, an error iff two share it |
| `Store.ByUrlUnique` | api/crud.py:225-228 | with unique urls the lookup never fails |
| `Store.TextOf` | api/models.py:17-19 | a nullable text value decodes back to itself |
| `Store.SetColumn` | api/crud.py:243 | an assignment succeeds iff the column accepts the value; it sets that column and nothing else, and keeps the row storable |
| `Store.SetColumnOwnValue` | api/crud.py:243 | writing a storable row's own value back leaves it unchanged |
| `Store.AllColumnsComplete` | api/models.py:14-34 | the column list names every column |
| `Store.WriteColumns` | api/crud.py:241-243 | succeeds iff every written column accepts its value; written columns take the data, the title and unmentioned columns keep their values; a failure names an offending column |
| `Store.WriteColumnsKeepsTitle` | api/crud.py:242 | the title is never written |
| `Store.UpdatePlace` | api/crud.py:231-247 | succeeds iff exactly one row has the id, every written value fits its column and no other row holds the id the row ends up with; then only that row's named non-title columns change; "not found" iff no row has the id, "multiple" iff two do; a duplicate key names the new id held elsewhere; keeps the table valid |
| `Store.UpdateRow` | api/crud.py:240-247 | once the row is found, the write succeeds iff every written value fits and no other row holds the resulting id, and then rewrites only that row |
| `Store.WrittenId` | api/crud.py:241-243 | after the attribute loop the row's id is the one the data give, or its own |
| `Store.ReplaceKeepsValid` | api/crud.py:240-247 | replacing one row by a storable row whose id no other row has keeps ids distinct and every row storable |
| `Store.AddPlace` | api/crud.py:8-16 | appends the row iff its id is fresh and it is storable; keeps the table valid |
| `Store.FirstUnstorable` | api/models.py:14-34 | an unstorable row has a column that rejects its value |
| `Store.StorableIff` | api/models.py:14-34 | a row is storable iff every column accepts its value |
| `Store.StoredCategories` | api/crud.py:270-277 | the stored categories read a null best time as "" |
| `Store.UpsertData` | api/crud.py:280-284 | the update data are the merged categories, plus the photo only when one was given |
| `Store.NewPlace` | api/crud.py:293-302 | a place created from a review has the user's title and url, the capped review as description, the extracted categories, and column defaults elsewhere |
| `Store.UpsertFromReview` | api/crud.py:250-309 | two rows with the url fail as "multiple"; a new url creates the row iff its id is free and its values fit, appending exactly the new place; in a valid table with unique urls an existing url updates its row iff the merged best time and budget level fit; "created" only for a new url and "updated" only as a merge of the row with the url |
| `Store.UpdateFromReview` | api/crud.py:268-292 | the update branch: in a valid table it succeeds iff the merged best time and budget level fit, and a success rewrites the row as a merge |
| `Store.UpdateByOwnId` | api/crud.py:231-247 | in a valid table, data without an id update a row by its own id iff every value fits |
| `Store.UpsertDataFits` | api/crud.py:279-287 | the upsert's data fit their columns iff the merged best time and budget level fit their `String(20)` columns |
| `Store.StrListInjective` | api/models.py:22-27 | a string list serialises without loss |
| `Store.OptStrInjective` | api/models.py:17-19 | a nullable string serialises without loss |
| `Store.RewrittenCategories` | api/crud.py:280-287 | after the update the row's categories are exactly the merged ones |
| `Store.RewrittenPhoto` | api/crud.py:282-284 | the photo changes only when one was uploaded |
| `Store.UpsertDataKeys` | api/crud.py:280-284 | the update data touch only the six categories and the photo |
| `Store.RewrittenKeepsRest` | api/crud.py:240-243 | id, url, description, working days, hours, the 24/7 flag, rating and review count are untouched by such an update |
| `Store.UpdateFromReviewShape` | api/crud.py:268-292 | the review update rewrites the looked-up row in place: same id, title and url, merged categories, photo only if uploaded, everything else unchanged |
| `Store.UpsertKeepsValid` | api/crud.py:250-309 | the upsert keeps ids distinct and rows storable |
| `Store.UpsertKeepsUrlsUnique` | api/crud.py:265-309 | if urls were unique, they stay unique |
| `Conversation.LastN` | api/agent.py:350-353 | the last `n` messages, or all when there are fewer |
| `Conversation.PromptMessages` | api/agent.py:311-320 | system prompt first, user prompt last, and the stored history of a truthy id in between |
| `Conversation.Remember` | api/agent.py:339-353 | a falsy id changes nothing; otherwise only that id's history changes, to the last ten of history plus the exchange, ending with the exchange |
| `Conversation.Clear` | api/agent.py:418-426 | a truthy id removes that conversation only (absent is no error); otherwise everything is removed |
| `Conversation.ClearedHasNoHistory` | api/agent.py:418-426 | after clearing, the next prompt carries no history |
| `Conversation.AppendExchange` | api/agent.py:343-348 | an alternating history of whole exchanges still alternates after one more exchange |
| `Conversation.DropEven` | api/agent.py:350-353 | dropping whole exchanges from the front keeps the alternation |
| `Conversation.RememberKeepsHistory` | api/agent.py:340-353 | a history of at most ten messages in user/assistant pairs stays so after an update |
| `Conversation.RememberKeepsCache` | api/agent.py:340-353 | every history in the cache stays well formed |
| `Conversation.Analyze` | api/agent.py:302-356 | the prompt carries the history; a reply that is not a JSON object fails; a parsed reply succeeds iff it validates and then round-trips; the cache changes only on success |
| `Conversation.OldestExchangeDropped` | api/agent.py:350-353 | with ten messages stored, the oldest exchange is dropped and the new one appended |
| `Text.SkipSpace` | api/agent.py:402 | the first non-whitespace position, with only whitespace skipped |
| `Text.SkipSpaceBack` | api/agent.py:402 | the end of the text once trailing whitespace is dropped |
| `Text.Strip` | api/agent.py:402 | the slice between the leading and trailing whitespace, neither starting nor ending with whitespace |
| `Text.StripIdempotent` | api/agent.py:402 | stripping twice is stripping once |
| `Text.ShortenExplanation` | api/agent.py:402-406 | at most 200 characters; a stripped reply of up to 200 is kept; a longer one becomes its first 197 characters plus "..." |
| `Text.ShortenIdempotent` | api/agent.py:402-406 | shortening an already shortened explanation changes nothing |
| `Text.ReviewDescription` | api/crud.py:298 | a review of up to 200 characters is kept; a longer one becomes its first 200 characters plus "..." (203 in all) |
| `Text.ReviewDescriptionBounded` | api/crud.py:298 | the description never exceeds 203 characters and starts like the review |
| `Text.ReplaceAll` | api/main.py:540 | a text without the pattern is unchanged |
| `Text.ReplaceCharLength` | api/main.py:532 | replacing one character by another keeps the length and maps each position |
| `Text.ReplaceCharRemoves` | api/main.py:532 | after the replacement the old character is gone |
| `Photos.Normalise` | api/main.py:532 | every backslash becomes a slash, and nothing else changes |
| `Photos.JoinPhotoDir` | api/main.py:542 | POSIX join: an absolute name replaces the photo directory, any other is appended to it |
| `Photos.LegacyPhotoPath` | api/main.py:530-542 | a normalised path without the prefix is a bad request; otherwise every prefix occurrence is removed and the rest joined to the photo directory |
| `Photos.RemovePrefix` | api/main.py:540 | the prefix followed by a name that does not contain it reduces to the name |
| `Photos.NoPrefixWithoutSlash` | api/main.py:540 | a name without a slash never contains the prefix |
| `Photos.LegacyFollowsParentSegments` | api/main.py:540-542 | the legacy route serves `static/photos/../../.env`, which leaves the photo directory |
| `Photos.LegacyServesAbsolutePath` | api/main.py:540-542 | the legacy route serves `/etc/passwd` for `static/photos//etc/passwd` |
| `Photos.ConfinedPhotoPath` | api/main.py:532-542 | the corrected route succeeds iff the normalised path is the prefix plus a plain file name; what it serves never leaves the photo directory |
| `Photos.ConfinedAgreesWithLegacy` | api/main.py:532-542 | wherever the corrected route serves a file, the legacy route serves the same one |
| `Requests.ValidateBudgetLevel` | api/main.py:121-128 | accepts iff the level is null or one of the three budget levels, and returns it unchanged |
| `Requests.BudgetValidatorsAgree` | api/main.py:121-128 | the request validator and the response validator accept the same budget levels |
| `Requests.RequiredText` | api/main.py:105-106 | a required string field is present with at least the minimum length |
| `Requests.NullableText` | api/main.py:107-108 | an optional string field may be absent, null or a string |
| `Requests.TextOr` | api/main.py:114 | a string field with a default takes the default when absent |
| `Requests.TextList` | api/main.py:130-141 | a list field must be a list of strings and defaults to the empty list |
| `Requests.Flag` | api/main.py:117 | a boolean field defaults to false |
| `Requests.BoundedNumber` | api/main.py:118 | the rating defaults to 0.0; a float or an integer is accepted iff it lies in [0, 5], an integer widened to the same real; anything else is refused |
| `Requests.BoundedInt` | api/main.py:119 | an integer field is accepted iff within its bounds, with its default when absent |
| `Requests.RefusedIf` | api/main.py:104-119 | a field is refused iff it did not decode |
| `Requests.BudgetField` | api/main.py:112 | the budget field decodes iff it is a nullable string that the budget validator accepts |
| `Requests.Refusals` | api/main.py:104-141 | no field is refused iff all decode |
| `Requests.ParsePlaceCreate` | api/main.py:104-141 | succeeds iff every field decodes, giving a valid record; otherwise it names every refused field |
| `Requests.ParsePlaceCreateDefaults` | api/main.py:107-119 | absent fields take their declared defaults |
| `Requests.PlaceCreateBody` | api/main.py:104-119 | the body of a record names its title and review count |
| `Requests.BodyDescribes` | api/main.py:104-119 | the body of a record describes it field by field |
| `Requests.ParseDescribed` | api/main.py:104-141 | a body that describes a valid record parses to that record |
| `Requests.PlaceCreateRoundTrip` | api/main.py:104-141 | every valid record survives serialising and parsing |
| `Requests.MinimalPlaceCreate` | api/main.py:105-106 | a title and a url alone make a valid request |
| `Requests.RatingAboveFiveRefused` | api/main.py:118 | a rating of 5.5 refuses exactly the rating field |
| `Requests.ParseRecommendationRequest` | api/main.py:60-66 | accepts iff the prompt has at least 5 characters and the limit, default 10, lies in [1, 50]; a failure names the prompt iff it fails and the limit iff it is given and out of range |
| `Requests.LimitBounds` | api/main.py:64-66 | limits 0 and 51 are refused, 1 and 50 accepted |
| `Requests.BatchRefusals` | api/main.py:167 | exactly the items that fail to parse are reported, each with its refused fields |
| `Requests.ParseBatch` | api/main.py:166-169 | a batch succeeds iff it holds 1 to 100 places that all parse, giving their records in order |
| `Requests.ParseReviewRequest` | api/main.py:463-466 | accepts iff the url and the title are non-empty strings and the review has at least 10 characters; a failure names exactly the fields that fail |

## Left out

- The language-model calls, system prompts and prompt cache. `generate_explanation`'s
  fallback text and `process_place_review` are left out too. They are foreign,
  nondeterministic services. Their outputs are parameters: the reply text, its JSON parse and
  the extracted categories.
- Database sessions, commit/refresh, indexes and the SQL engine. The table is a sequence of
  rows, and the id of a new row is a parameter (`freshId`) standing for autoincrement.
- HTTP routing, status codes other than the modelled errors, uploads, and the photo route's
  file-existence check and `FileResponse`.
- `RecommendationService` timing and running-average metrics (wall-clock floats).
- async execution and the unsynchronised global conversation cache (concurrency).
- Floating point: scores, weights and ratings are exact reals. Double rounding of sums is not
  modelled.
- Row order beyond the three sort keys: SQL promises none, so none is specified.
- The order of `list(set(...))` in `merge_categories`. The model keeps the first occurrence of
  each tag, existing ones first. Only the element sets are promised.
- Custom weight maps with keys outside the six categories. In the source these read other
  place attributes or raise.
- Place tag arrays and working days are non-null lists. The schema declares them
  `nullable=False`, so `to_dict`'s `or []` is the identity there.
- Pydantic coercion (a number sent as a string, and so on). The request decoders accept
  exactly the JSON types the fields declare, widening an integer to a real for the rating.
- A batch that is both the wrong size and holds bad items reports only the size.
- `Text.ReplaceAll`: the contract states only that a text without the pattern is unchanged,
  not the full left-to-right replacement. The uses that matter (one character by another,
  and the prefix followed by a name) are proved separately.
- A place's best time is one nullable `String(20)` column (api/models.py:26), and the
  response validator requires a single string for it (api/agent.py:138).
- The place url is not declared unique (api/models.py:17). A duplicated url makes the review
  upsert fail as `scalar_one_or_none` does; `UniqueUrls` is an invariant the upsert keeps, not
  one the schema enforces.
- Attribute names in `update_place` other than the sixteen columns. `hasattr(place, key)`
  (api/crud.py:242) is true for any attribute of the ORM object (`to_dict`, `metadata`,
  `__table__`, …), which `setattr` would overwrite. The model writes only column names. Its
  one caller, the review upsert (api/crud.py:287), passes only the category keys and `photo`.
- A reply that is valid JSON but not an object (a list, a string, a number). In the source it
  fails inside `validate_llm_response` rather than in `json.loads`. The model gives it the
  `NotJson` failure; either way the analysis fails and the cache is unchanged.
- The default `limit=20` of both search functions (api/crud.py:37, api/crud.py:133) and a
  negative limit. The model's `limit` is a `nat` with no default; the one caller passes the
  request's limit, which lies in [1, 50] (api/main.py:64-66).

## Findings

| source | as written | input that shows it | evidently intended | confidence | as-written member | corrected member |
|---|---|---|---|---|---|---|
| api/main.py:540-542 | the file name is the normalised path with every `static/photos/` removed, joined to `static/photos` with no check for `..` or a leading `/` | `static/photos/../../.env` serves `static/photos/../../.env` (two levels above the photo directory); `static/photos//etc/passwd` serves `/etc/passwd` | only a plain file name directly inside `static/photos` is served | high (not executed) | `Photos.LegacyPhotoPath` with `Photos.LegacyFollowsParentSegments` and `Photos.LegacyServesAbsolutePath` | `Photos.ConfinedPhotoPath` with `Photos.ConfinedAgreesWithLegacy` |

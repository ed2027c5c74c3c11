/**
 * `validate_llm_response` (api/agent.py): the strict check a parsed language-model response
 * must pass before it is used as preferences or as a review's categories.
 */
module Validation {

  import opened Wrappers
  import opened Json
  import opened Tags
  import Taxonomy

  /** The keys of `EXPECTED_STRUCTURE`, in the order the structural check visits them. */
  const ExpectedFields: seq<string> :=
    ["entity_types", "atmosphere_tags", "purpose_tags", "budget_level", "features", "best_time"]

  /** The same six keys as a set. */
  const ExpectedKeys: set<string> :=
    {"entity_types", "atmosphere_tags", "purpose_tags", "budget_level", "features", "best_time"}

  /** One message of the collected value errors. */
  datatype Issue =
    | BadValue(field: string, value: Value)   // a value (or list element) outside the vocabulary
    | ExtraFields(fields: set<string>)        // keys beyond the six expected ones

  /** The `ValueError` the validator raises. */
  datatype ValidationError =
    | MissingField(field: string)
    | WrongType(field: string)
    | Invalid(issues: seq<Issue>)

  /** The index of an expected field in `ExpectedFields`. */
  function Position(f: string): nat {
    match f
    case "entity_types" => 0
    case "atmosphere_tags" => 1
    case "purpose_tags" => 2
    case "budget_level" => 3
    case "features" => 4
    case _ => 5
  }

  /** `isinstance(v, EXPECTED_STRUCTURE[field])`: a list, a string or null, or a string. */
  predicate HasExpectedType(field: string, v: Value) {
    if field == "budget_level" then v.Str? || v.Null?
    else if field == "best_time" then v.Str?
    else v.Arr?
  }

  /** The field is present and has its expected type. */
  predicate Conforms(resp: Object, field: string) {
    field in resp && HasExpectedType(field, resp[field])
  }

  /** The vocabulary of a field (`validators` in the source). */
  function Vocabulary(field: string): seq<string> {
    match field
    case "entity_types" => Taxonomy.EntityTypes
    case "atmosphere_tags" => Taxonomy.AtmosphereTags
    case "purpose_tags" => Taxonomy.PurposeTags
    case "budget_level" => Taxonomy.BudgetLevels
    case "features" => Taxonomy.Features
    case _ => Taxonomy.BestTimes
  }

  /** `v in allowed_values`: a vocabulary string, or null for the budget level. */
  predicate IsAllowed(field: string, v: Value) {
    (v.Str? && v.s in Vocabulary(field)) || (field == "budget_level" && v.Null?)
  }

  /** `v` is one of the values the membership check of `field` rejects, given its value `fv`. */
  predicate Offending(field: string, fv: Value, v: Value) {
    !IsAllowed(field, v) && (if fv.Arr? then v in fv.items else v == fv)
  }

  /** Every element of a list is a string of the vocabulary. */
  predicate ValidTags(v: Value, vocab: seq<string>) {
    v.Arr? && forall i :: 0 <= i < |v.items| ==> v.items[i].Str? && v.items[i].s in vocab
  }

  /** What the validator accepts, stated declaratively. */
  predicate WellFormed(resp: Object) {
    && resp.Keys == ExpectedKeys
    && ValidTags(resp["entity_types"], Taxonomy.EntityTypes)
    && ValidTags(resp["atmosphere_tags"], Taxonomy.AtmosphereTags)
    && ValidTags(resp["purpose_tags"], Taxonomy.PurposeTags)
    && (resp["budget_level"].Null? || (resp["budget_level"].Str? && resp["budget_level"].s in Taxonomy.BudgetLevels))
    && ValidTags(resp["features"], Taxonomy.Features)
    && resp["best_time"].Str? && resp["best_time"].s in Taxonomy.BestTimes
  }

  /** A category object whose every value is drawn from the taxonomy. */
  predicate ValidCategories(c: Categories) {
    && (forall t :: t in c.entityTypes ==> t in Taxonomy.EntityTypes)
    && (forall t :: t in c.atmosphereTags ==> t in Taxonomy.AtmosphereTags)
    && (forall t :: t in c.purposeTags ==> t in Taxonomy.PurposeTags)
    && (c.budgetLevel.Some? ==> c.budgetLevel.value in Taxonomy.BudgetLevels)
    && (forall t :: t in c.features ==> t in Taxonomy.Features)
    && c.bestTime.Some? && c.bestTime.value in Taxonomy.BestTimes
  }

  /** The index of the first field of `fields` that is missing or mistyped; `|fields|` if none. */
  function FirstNonConforming(resp: Object, fields: seq<string>): (k: nat)
    ensures k <= |fields|
    ensures forall j :: 0 <= j < k ==> Conforms(resp, fields[j])
    ensures k < |fields| ==> !Conforms(resp, fields[k])
  {
    if fields == [] then 0
    else if !Conforms(resp, fields[0]) then 0
    else 1 + FirstNonConforming(resp, fields[1..])
  }

  /** The membership errors of the elements of one list, in list order. */
  function ItemIssues(field: string, items: seq<Value>): (r: seq<Issue>)
    ensures forall x :: x in r ==> x.BadValue? && x.field == field
    ensures forall v :: BadValue(field, v) in r <==> v in items && !IsAllowed(field, v)
  {
    if items == [] then []
    else
      var rest := ItemIssues(field, items[1..]);
      assert items == [items[0]] + items[1..];
      if IsAllowed(field, items[0]) then rest else [BadValue(field, items[0])] + rest
  }

  /** The membership errors of one field's value. */
  function FieldIssues(field: string, v: Value): (r: seq<Issue>)
    ensures forall x :: x in r ==> x.BadValue? && x.field == field
    ensures forall u :: BadValue(field, u) in r <==> Offending(field, v, u)
  {
    if v.Arr? then ItemIssues(field, v.items)
    else if IsAllowed(field, v) then []
    else [BadValue(field, v)]
  }

  /** The membership errors of the given fields, field by field. */
  function AllFieldIssues(resp: Object, fields: seq<string>): (r: seq<Issue>)
    requires forall f :: f in fields ==> f in resp
    ensures forall x :: x in r ==> x.BadValue? && x.field in fields
    ensures forall f, u :: f in fields ==> (BadValue(f, u) in r <==> Offending(f, resp[f], u))
  {
    if fields == [] then []
    else
      var head := FieldIssues(fields[0], resp[fields[0]]);
      var rest := AllFieldIssues(resp, fields[1..]);
      assert forall f :: f in fields ==> f == fields[0] || f in fields[1..];
      head + rest
  }

  /** The accepted response as typed categories. */
  function Accepted(resp: Object): (c: Categories)
    requires WellFormed(resp)
    ensures ToObject(c) == resp
  {
    Categories(
      Strings(resp["entity_types"]),
      Strings(resp["atmosphere_tags"]),
      Strings(resp["purpose_tags"]),
      if resp["budget_level"].Null? then None else Some(resp["budget_level"].s),
      Strings(resp["features"]),
      Some(resp["best_time"].s))
  }

  /** `Position` inverts indexing into `ExpectedFields`. */
  lemma PositionOf(k: nat)
    requires k < |ExpectedFields|
    ensures Position(ExpectedFields[k]) == k
  {
  }

  /**
   * The presence and type checks, which raise at the first field of `ExpectedFields` that
   * is missing or mistyped; None when every field conforms.
   */
  function CheckStructure(resp: Object): (r: Option<ValidationError>)
    ensures r.None? <==> forall f :: f in ExpectedFields ==> f in resp && HasExpectedType(f, resp[f])
    ensures r.Some? <==> exists f :: f in ExpectedFields && !Conforms(resp, f)
    ensures r.Some? ==> (r.value.MissingField? || r.value.WrongType?) && !WellFormed(resp)
    ensures r.Some? && r.value.MissingField? ==>
      && r.value.field in ExpectedFields && r.value.field !in resp
      && forall j :: 0 <= j < Position(r.value.field) ==> Conforms(resp, ExpectedFields[j])
    ensures r.Some? && r.value.WrongType? ==>
      && r.value.field in ExpectedFields && r.value.field in resp
      && !HasExpectedType(r.value.field, resp[r.value.field])
      && forall j :: 0 <= j < Position(r.value.field) ==> Conforms(resp, ExpectedFields[j])
  {
    var k := FirstNonConforming(resp, ExpectedFields);
    if k < |ExpectedFields| then
      var f := ExpectedFields[k];
      PositionOf(k);
      assert f in ExpectedKeys;
      if f in resp then Some(WrongType(f)) else Some(MissingField(f))
    else
      assert forall f :: f in ExpectedFields ==> exists j :: 0 <= j < |ExpectedFields| && ExpectedFields[j] == f;
      None
  }

  /**
   * The membership and extra-key checks of a structurally sound response: every offending
   * value of every field, then the extra keys if there are any. None at all iff the response
   * is well formed.
   */
  function CheckValues(resp: Object): (issues: seq<Issue>)
    requires forall f :: f in ExpectedFields ==> f in resp && HasExpectedType(f, resp[f])
    ensures issues == [] <==> WellFormed(resp)
    ensures forall f, u :: f in ExpectedFields ==> (BadValue(f, u) in issues <==> Offending(f, resp[f], u))
    ensures forall x :: x in issues && x.BadValue? ==> x.field in ExpectedFields
    ensures forall s :: ExtraFields(s) in issues <==> s == resp.Keys - ExpectedKeys && s != {}
  {
    var extra := resp.Keys - ExpectedKeys;
    var issues := AllFieldIssues(resp, ExpectedFields)
      + (if extra == {} then [] else [ExtraFields(extra)]);
    assert forall j :: 0 <= j < |ExpectedFields| ==> Conforms(resp, ExpectedFields[j]) by {
      forall j | 0 <= j < |ExpectedFields| ensures Conforms(resp, ExpectedFields[j]) {
        assert ExpectedFields[j] in ExpectedFields;
      }
    }
    WellFormedIff(resp);
    assert issues != [] ==> !WellFormed(resp) by {
      if issues != [] && extra == {} {
        var x := issues[0];
        assert x in AllFieldIssues(resp, ExpectedFields);
        assert Offending(x.field, resp[x.field], x.value);
      }
    }
    issues
  }

  /**
   * `validate_llm_response`. A missing or mistyped field is reported at once, the first in
   * `ExpectedFields` order; otherwise all membership errors and the extra keys are reported
   * together; a response with none of these is accepted.
   */
  function Validate(resp: Object): (r: Result<Categories, ValidationError>)
    ensures r.Success? <==> WellFormed(resp)
    ensures r.Success? ==> ToObject(r.value) == resp && ValidCategories(r.value)
    ensures r.Failure? && r.error.MissingField? ==>
      && r.error.field in ExpectedFields && r.error.field !in resp
      && forall j :: 0 <= j < Position(r.error.field) ==> Conforms(resp, ExpectedFields[j])
    ensures r.Failure? && r.error.WrongType? ==>
      && r.error.field in ExpectedFields && r.error.field in resp
      && !HasExpectedType(r.error.field, resp[r.error.field])
      && forall j :: 0 <= j < Position(r.error.field) ==> Conforms(resp, ExpectedFields[j])
    ensures (r.Failure? && (r.error.MissingField? || r.error.WrongType?))
      <==> exists f :: f in ExpectedFields && !Conforms(resp, f)
    ensures r.Failure? && r.error.Invalid? ==>
      && |r.error.issues| > 0
      && (forall f, u :: f in ExpectedFields ==> (BadValue(f, u) in r.error.issues <==> Offending(f, resp[f], u)))
      && (forall x :: x in r.error.issues && x.BadValue? ==> x.field in ExpectedFields)
      && (forall s :: ExtraFields(s) in r.error.issues <==> s == resp.Keys - ExpectedKeys && s != {})
  {
    match CheckStructure(resp)
    case Some(e) => Failure(e)
    case None =>
      var issues := CheckValues(resp);
      if issues == [] then
        AcceptedIsValid(resp);
        Success(Accepted(resp))
      else
        Failure(Invalid(issues))
  }

  /** For a list value, vocabulary membership of every element is the absence of offending elements. */
  lemma ListFieldIff(f: string, v: Value)
    requires v.Arr? && f != "budget_level"
    ensures ValidTags(v, Vocabulary(f)) <==> forall u :: !Offending(f, v, u)
  {
    if forall u :: !Offending(f, v, u) {
      forall i | 0 <= i < |v.items| ensures v.items[i].Str? && v.items[i].s in Vocabulary(f) {
        assert !Offending(f, v, v.items[i]);
      }
    }
  }

  /** For a single value, membership is the absence of offending values. */
  lemma SingleFieldIff(f: string, v: Value)
    requires !v.Arr?
    ensures IsAllowed(f, v) <==> forall u :: !Offending(f, v, u)
  {
    if forall u :: !Offending(f, v, u) {
      assert !Offending(f, v, v);
    }
  }

  /**
   * For a structurally sound response, being well formed is the same as having no
   * membership error and no extra key.
   */
  lemma WellFormedIff(resp: Object)
    requires forall j :: 0 <= j < |ExpectedFields| ==> Conforms(resp, ExpectedFields[j])
    ensures WellFormed(resp) <==>
      && resp.Keys - ExpectedKeys == {}
      && forall f, u :: f in ExpectedFields && f in resp ==> !Offending(f, resp[f], u)
  {
    assert Conforms(resp, ExpectedFields[0]) && Conforms(resp, ExpectedFields[1]) && Conforms(resp, ExpectedFields[2]);
    assert Conforms(resp, ExpectedFields[3]) && Conforms(resp, ExpectedFields[4]) && Conforms(resp, ExpectedFields[5]);
    assert ExpectedKeys <= resp.Keys;
    ListFieldIff("entity_types", resp["entity_types"]);
    ListFieldIff("atmosphere_tags", resp["atmosphere_tags"]);
    ListFieldIff("purpose_tags", resp["purpose_tags"]);
    ListFieldIff("features", resp["features"]);
    SingleFieldIff("budget_level", resp["budget_level"]);
    SingleFieldIff("best_time", resp["best_time"]);
    assert forall f :: f in ExpectedFields <==> f in ExpectedKeys;
  }

  /** The categories of a well-formed response are drawn from the taxonomy. */
  lemma AcceptedIsValid(resp: Object)
    requires WellFormed(resp)
    ensures ValidCategories(Accepted(resp))
  {
    var c := Accepted(resp);
    forall t | t in c.entityTypes ensures t in Taxonomy.EntityTypes {
      var i :| 0 <= i < |c.entityTypes| && c.entityTypes[i] == t;
      assert resp["entity_types"].items[i].s == t;
    }
    forall t | t in c.atmosphereTags ensures t in Taxonomy.AtmosphereTags {
      var i :| 0 <= i < |c.atmosphereTags| && c.atmosphereTags[i] == t;
      assert resp["atmosphere_tags"].items[i].s == t;
    }
    forall t | t in c.purposeTags ensures t in Taxonomy.PurposeTags {
      var i :| 0 <= i < |c.purposeTags| && c.purposeTags[i] == t;
      assert resp["purpose_tags"].items[i].s == t;
    }
    forall t | t in c.features ensures t in Taxonomy.Features {
      var i :| 0 <= i < |c.features| && c.features[i] == t;
      assert resp["features"].items[i].s == t;
    }
  }

  /** The tags of a list drawn from a vocabulary pass its membership check. */
  lemma ValidTagsOf(tags: seq<string>, vocab: seq<string>)
    requires forall t :: t in tags ==> t in vocab
    ensures ValidTags(StrList(tags), vocab)
  {
    forall i | 0 <= i < |tags| ensures tags[i] in vocab {
      assert tags[i] in tags;
    }
  }

  /** A serialised category object with a best time passes the presence and type checks. */
  lemma ToObjectConforms(c: Categories)
    requires c.bestTime.Some?
    ensures forall f :: f in ExpectedFields ==> f in ToObject(c) && HasExpectedType(f, ToObject(c)[f])
  {
    var o := ToObject(c);
    assert o["entity_types"].Arr? && o["atmosphere_tags"].Arr? && o["purpose_tags"].Arr? && o["features"].Arr?;
    forall f | f in ExpectedFields ensures f in o && HasExpectedType(f, o[f]) {
      var j :| 0 <= j < |ExpectedFields| && ExpectedFields[j] == f;
    }
  }

  /** A category object drawn from the taxonomy serialises to a well-formed response. */
  lemma ValidIsWellFormed(c: Categories)
    requires ValidCategories(c)
    ensures WellFormed(ToObject(c))
  {
    ValidTagsOf(c.entityTypes, Taxonomy.EntityTypes);
    ValidTagsOf(c.atmosphereTags, Taxonomy.AtmosphereTags);
    ValidTagsOf(c.purposeTags, Taxonomy.PurposeTags);
    ValidTagsOf(c.features, Taxonomy.Features);
  }

  /** Serialisation loses nothing: equal objects come from equal categories. */
  lemma ToObjectInjective(a: Categories, b: Categories)
    requires ToObject(a) == ToObject(b)
    ensures a == b
  {
    StringsOfStrList(a.entityTypes);
    StringsOfStrList(b.entityTypes);
    StringsOfStrList(a.atmosphereTags);
    StringsOfStrList(b.atmosphereTags);
    StringsOfStrList(a.purposeTags);
    StringsOfStrList(b.purposeTags);
    StringsOfStrList(a.features);
    StringsOfStrList(b.features);
    assert OptStr(a.budgetLevel) == OptStr(b.budgetLevel) && OptStr(a.bestTime) == OptStr(b.bestTime);
  }

  /** A category object drawn from the taxonomy survives serialisation and validation unchanged. */
  lemma ValidateRoundTrip(c: Categories)
    requires ValidCategories(c)
    ensures Validate(ToObject(c)) == Success(c)
  {
    ValidIsWellFormed(c);
    var r := Validate(ToObject(c));
    ToObjectInjective(r.value, c);
  }

  /**
   * An entity type outside the vocabulary is reported as a bad value of `entity_types`,
   * whatever the rest of the response holds.
   */
  lemma UnknownEntityTypeRejected(c: Categories, e: string)
    requires c.bestTime.Some? && e in c.entityTypes && e !in Taxonomy.EntityTypes
    ensures var r := Validate(ToObject(c));
      r.Failure? && r.error.Invalid? && BadValue("entity_types", Str(e)) in r.error.issues
  {
    var resp := ToObject(c);
    ToObjectConforms(c);
    var k :| 0 <= k < |c.entityTypes| && c.entityTypes[k] == e;
    assert resp["entity_types"].items[k] == Str(e);
    assert !ValidTags(resp["entity_types"], Taxonomy.EntityTypes);
    assert Offending("entity_types", resp["entity_types"], Str(e));
    assert forall f :: f in ExpectedFields ==> Conforms(resp, f);
  }

  /** A null best time is a type error, reported before any value check. */
  lemma NullBestTimeIsTypeError(c: Categories)
    requires c.bestTime.None?
    ensures Validate(ToObject(c)) == Failure(WrongType("best_time"))
  {
    var resp := ToObject(c);
    var r := Validate(resp);
    assert resp["entity_types"].Arr? && resp["atmosphere_tags"].Arr? && resp["purpose_tags"].Arr?;
    assert resp["features"].Arr? && (resp["budget_level"].Str? || resp["budget_level"].Null?);
    assert ExpectedFields[5] == "best_time" && !Conforms(resp, "best_time");
    forall f | f in ExpectedFields && f != "best_time" ensures Conforms(resp, f) {
      var j :| 0 <= j < |ExpectedFields| && ExpectedFields[j] == f;
    }
    assert r.Failure? && r.error.WrongType?;
  }

  /** An empty best time has the right type, so it is a membership error. */
  lemma EmptyBestTimeIsValueError(c: Categories)
    requires c.bestTime == Some("")
    ensures var r := Validate(ToObject(c));
      && r.Failure? && r.error.Invalid?
      && BadValue("best_time", Str("")) in r.error.issues
  {
    var resp := ToObject(c);
    ToObjectConforms(c);
    assert "" !in Taxonomy.BestTimes;
    assert Offending("best_time", resp["best_time"], Str(""));
  }

  /**
   * With no tags and no budget level, a best time outside the vocabulary is the one and
   * only error reported.
   */
  lemma OnlyBestTimeOffends(c: Categories)
    requires c.entityTypes == [] && c.atmosphereTags == [] && c.purposeTags == [] && c.features == []
    requires c.budgetLevel == None && c.bestTime.Some? && c.bestTime.value !in Taxonomy.BestTimes
    ensures var r := Validate(ToObject(c));
      && r.Failure? && r.error.Invalid?
      && BadValue("best_time", Str(c.bestTime.value)) in r.error.issues
      && forall x :: x in r.error.issues ==> x == BadValue("best_time", Str(c.bestTime.value))
  {
    var resp := ToObject(c);
    ToObjectConforms(c);
    assert CheckStructure(resp).None?;
    var issues := CheckValues(resp);
    assert Offending("best_time", resp["best_time"], Str(c.bestTime.value));
    assert resp.Keys - ExpectedKeys == {};
    forall x | x in issues ensures x == BadValue("best_time", Str(c.bestTime.value)) {
      assert x.BadValue? && x.field in ExpectedFields;
      assert Offending(x.field, resp[x.field], x.value);
      assert resp["entity_types"].items == [] && resp["atmosphere_tags"].items == [];
      assert resp["purpose_tags"].items == [] && resp["features"].items == [];
    }
  }
}

/**
 * The stored place record (api/models.py): its sixteen columns, the column constraints the
 * database enforces, and `to_dict`, the serialisation every endpoint returns.
 */
module Places {

  import opened Wrappers
  import opened Json

  /**
   * One row of the `places` table. Nullable columns are `Option`s; the five tag arrays are
   * declared non-nullable and are plain sequences.
   */
  datatype Place = Place(
    id: int,
    title: string,
    url: string,
    photo: Option<string>,
    description: Option<string>,
    entityTypes: seq<string>,
    atmosphereTags: seq<string>,
    purposeTags: seq<string>,
    features: seq<string>,
    bestTime: Option<string>,
    workingDays: seq<string>,
    budgetLevel: Option<string>,
    openingHours: Option<string>,
    open24x7: Option<bool>,
    overallRating: Option<real>,
    reviewCount: Option<int>)

  /** The columns of the table, one constructor per attribute of the ORM class. */
  datatype Column =
    | Id | Title | Url | Photo | Description
    | EntityTypes | AtmosphereTags | PurposeTags | Features | BestTime | WorkingDays
    | BudgetLevel | OpeningHours | Open24x7 | OverallRating | ReviewCount

  /** The attribute name of a column, which is also its key in `to_dict`. */
  function Name(c: Column): string {
    match c
    case Id => "id"
    case Title => "title"
    case Url => "url"
    case Photo => "photo"
    case Description => "description"
    case EntityTypes => "entity_types"
    case AtmosphereTags => "atmosphere_tags"
    case PurposeTags => "purpose_tags"
    case Features => "features"
    case BestTime => "best_time"
    case WorkingDays => "working_days"
    case BudgetLevel => "budget_level"
    case OpeningHours => "opening_hours"
    case Open24x7 => "is_24_7"
    case OverallRating => "overall_rating"
    case ReviewCount => "review_count"
  }

  /** The column an attribute name denotes, if any: the names `update_place` writes. */
  function ColumnNamed(key: string): (r: Option<Column>)
    ensures r.Some? ==> Name(r.value) == key
    ensures r.None? ==> forall c :: Name(c) != key
  {
    match key
    case "id" => Some(Id)
    case "title" => Some(Title)
    case "url" => Some(Url)
    case "photo" => Some(Photo)
    case "description" => Some(Description)
    case "entity_types" => Some(EntityTypes)
    case "atmosphere_tags" => Some(AtmosphereTags)
    case "purpose_tags" => Some(PurposeTags)
    case "features" => Some(Features)
    case "best_time" => Some(BestTime)
    case "working_days" => Some(WorkingDays)
    case "budget_level" => Some(BudgetLevel)
    case "opening_hours" => Some(OpeningHours)
    case "is_24_7" => Some(Open24x7)
    case "overall_rating" => Some(OverallRating)
    case "review_count" => Some(ReviewCount)
    case _ => None
  }

  /** Distinct columns have distinct names. */
  lemma NameInjective(c: Column, d: Column)
    ensures Name(c) == Name(d) ==> c == d
  {
    assert ColumnNamed(Name(c)) == Some(c);
  }

  /** The sixteen attribute names. */
  const ColumnNames: set<string> := {
    "id", "title", "url", "photo", "description", "entity_types", "atmosphere_tags",
    "purpose_tags", "features", "best_time", "working_days", "budget_level",
    "opening_hours", "is_24_7", "overall_rating", "review_count"
  }

  /** `ColumnNames` holds exactly the names of the sixteen columns. */
  lemma ColumnNamesExact()
    ensures forall k :: k in ColumnNames <==> ColumnNamed(k).Some?
  {
  }

  /** The raw attribute value of a column, as a JSON value (a null column is `Null`). */
  function Get(p: Place, c: Column): Value {
    match c
    case Id => Int(p.id)
    case Title => Str(p.title)
    case Url => Str(p.url)
    case Photo => OptStr(p.photo)
    case Description => OptStr(p.description)
    case EntityTypes => StrList(p.entityTypes)
    case AtmosphereTags => StrList(p.atmosphereTags)
    case PurposeTags => StrList(p.purposeTags)
    case Features => StrList(p.features)
    case BestTime => OptStr(p.bestTime)
    case WorkingDays => StrList(p.workingDays)
    case BudgetLevel => OptStr(p.budgetLevel)
    case OpeningHours => OptStr(p.openingHours)
    case Open24x7 => if p.open24x7.Some? then Bool(p.open24x7.value) else Null
    case OverallRating => if p.overallRating.Some? then Num(p.overallRating.value) else Null
    case ReviewCount => if p.reviewCount.Some? then Int(p.reviewCount.value) else Null
  }

  /** Values of a PostgreSQL `Integer` (int4) column. */
  predicate IsInt32(i: int) {
    -0x8000_0000 <= i < 0x8000_0000
  }

  /** A nullable `String(n)` column accepts null or at most `n` characters. */
  predicate FitsVarchar(o: Option<string>, n: nat) {
    o.Some? ==> |o.value| <= n
  }

  /**
   * The constraints the database itself enforces on a row: `String(255)` title,
   * `String(20)` best time and budget level, `String(100)` opening hours, int4 id and count.
   */
  predicate Storable(p: Place) {
    && IsInt32(p.id)
    && |p.title| <= 255
    && FitsVarchar(p.bestTime, 20)
    && FitsVarchar(p.budgetLevel, 20)
    && FitsVarchar(p.openingHours, 100)
    && (p.reviewCount.Some? ==> IsInt32(p.reviewCount.value))
  }

  /** Every column name leads back to its column. */
  lemma NameRoundTrip(c: Column)
    ensures Name(c) in ColumnNames
    ensures ColumnNamed(Name(c)) == Some(c)
  {
  }

  /** The value `to_dict` writes for a column: the stored value, except that `best_time or ""` defaults a null best time. */
  function Serialised(p: Place, c: Column): Value {
    if c == BestTime then Str(p.bestTime.GetOr("")) else Get(p, c)
  }

  /** The sixteen entries `to_dict` writes, keyed by column name. */
  function Entries(p: Place): Object {
    ColumnNamesExact();
    map k | k in ColumnNames :: Serialised(p, ColumnNamed(k).value)
  }

  /** The entries are keyed by exactly the sixteen column names. */
  lemma EntriesKeys(p: Place)
    ensures Entries(p).Keys == ColumnNames
  {
    var d := Entries(p);
    forall k ensures k in d <==> k in ColumnNames {
      if k in ColumnNames {
        assert k in d;
      }
    }
  }

  /** Each column's entry sits under its name. */
  lemma EntryOf(p: Place, c: Column)
    ensures Name(c) in Entries(p) && Entries(p)[Name(c)] == Serialised(p, c)
  {
    NameRoundTrip(c);
  }

  /**
   * `Place.to_dict`: the sixteen attributes under their names, with a null best time
   * serialised as the empty string and everything else copied as stored.
   */
  function ToDict(p: Place): (d: Object)
    ensures d.Keys == ColumnNames
    ensures forall c :: c != BestTime ==> Name(c) in d && d[Name(c)] == Get(p, c)
    ensures "best_time" in d && d["best_time"].Str?
    ensures p.bestTime.Some? ==> d["best_time"] == Get(p, BestTime)
    ensures p.bestTime.None? ==> d["best_time"] == Str("")
  {
    var d := Entries(p);
    forall c ensures Name(c) in d && d[Name(c)] == Serialised(p, c) {
      EntryOf(p, c);
    }
    EntryOf(p, BestTime);
    EntriesKeys(p);
    d
  }
}

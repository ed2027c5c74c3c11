/**
 * The `places` table as a sequence of rows, and the record-level operations of api/crud.py
 * that the review flow uses: lookup by url (`get_place_by_url`), partial update
 * (`update_place`), insertion (`add_place`) and the review upsert
 * (`create_or_update_place_from_review`). Database constraints the commit would enforce
 * (column types and lengths, the primary key) become explicit errors.
 */
module Store {

  import opened Wrappers
  import opened Json
  import opened Places
  import opened Tags
  import Merge
  import Text

  /** The rows of the table, in storage order. */
  type Table = seq<Place>

  /** What the database or the ORM raises. */
  datatype StoreError =
    | NotFound                  // `scalar_one` on no row
    | MultipleFound             // `scalar_one` or `scalar_one_or_none` on several rows
    | DuplicateKey(id: int)     // the primary key is already taken
    | Rejected(column: Column)  // the value does not fit the column's type or length

  /** Row ids are distinct (the primary key). */
  predicate DistinctIds(t: Table) {
    forall i, j :: 0 <= i < j < |t| ==> t[i].id != t[j].id
  }

  /** The invariant the database keeps: a primary key and every row within its column limits. */
  predicate Valid(t: Table) {
    DistinctIds(t) && forall i :: 0 <= i < |t| ==> Storable(t[i])
  }

  /** At most one row per url (the schema does not promise it; the review flow relies on it). */
  predicate UniqueUrls(t: Table) {
    forall i, j :: 0 <= i < j < |t| ==> t[i].url != t[j].url
  }

  /** The first row at or after `from` satisfying `matches`. */
  function IndexFrom(t: Table, matches: Place -> bool, from: nat): (r: Option<nat>)
    ensures r.Some? ==> from <= r.value < |t| && matches(t[r.value])
    ensures r.Some? ==> forall j :: from <= j < r.value ==> !matches(t[j])
    ensures r.None? ==> forall j :: from <= j < |t| ==> !matches(t[j])
    decreases |t| - from
  {
    if from >= |t| then None
    else if matches(t[from]) then Some(from)
    else IndexFrom(t, matches, from + 1)
  }

  /**
   * `scalar_one()` over the rows `matches` selects: the position of the only such row,
   * `NotFound` when there is none, `MultipleFound` when there are several.
   */
  function TheRow(t: Table, matches: Place -> bool): (r: Result<nat, StoreError>)
    ensures r.Success? ==> r.value < |t| && matches(t[r.value])
    ensures r.Success? ==> forall j :: 0 <= j < |t| && j != r.value ==> !matches(t[j])
    ensures r == Failure(NotFound) <==> forall j :: 0 <= j < |t| ==> !matches(t[j])
    ensures r == Failure(MultipleFound) <==>
      exists i, j :: 0 <= i < j < |t| && matches(t[i]) && matches(t[j])
    ensures r.Failure? ==> r.error == NotFound || r.error == MultipleFound
  {
    match IndexFrom(t, matches, 0)
    case None => Failure(NotFound)
    case Some(i) =>
      match IndexFrom(t, matches, i + 1)
      case Some(j) => Failure(MultipleFound)
      case None => Success(i)
  }

  /** `get_place_by_url`: `scalar_one_or_none()` on the rows with that url. */
  function ByUrl(t: Table, url: string): (r: Result<Option<nat>, StoreError>)
    ensures r.Success? && r.value.None? <==> forall j :: 0 <= j < |t| ==> t[j].url != url
    ensures r.Success? && r.value.Some? ==>
      && r.value.value < |t| && t[r.value.value].url == url
      && forall j :: 0 <= j < |t| && j != r.value.value ==> t[j].url != url
    ensures r.Failure? <==> exists i, j :: 0 <= i < j < |t| && t[i].url == url && t[j].url == url
    ensures r.Failure? ==> r.error == MultipleFound
  {
    match TheRow(t, (p: Place) => p.url == url)
    case Success(i) => Success(Some(i))
    case Failure(e) => if e == NotFound then Success(None) else Failure(e)
  }

  /** A table whose urls are unique never makes the url lookup fail. */
  lemma ByUrlUnique(t: Table, url: string)
    requires UniqueUrls(t)
    ensures ByUrl(t, url).Success?
  {
  }

  /** The value `v` fits column `c`: its JSON type, nullability and length limit. */
  predicate Accepts(c: Column, v: Value) {
    match c
    case Id => v.Int? && IsInt32(v.i)
    case Title => v.Str? && |v.s| <= 255
    case Url => v.Str?
    case Photo => v.Str? || v.Null?
    case Description => v.Str? || v.Null?
    case EntityTypes => IsStrList(v)
    case AtmosphereTags => IsStrList(v)
    case PurposeTags => IsStrList(v)
    case Features => IsStrList(v)
    case BestTime => v.Null? || (v.Str? && |v.s| <= 20)
    case WorkingDays => IsStrList(v)
    case BudgetLevel => v.Null? || (v.Str? && |v.s| <= 20)
    case OpeningHours => v.Null? || (v.Str? && |v.s| <= 100)
    case Open24x7 => v.Null? || v.Bool?
    case OverallRating => v.Null? || v.Num? || v.Int?
    case ReviewCount => v.Null? || (v.Int? && IsInt32(v.i))
  }

  /** The value a column holds after `v` is written to it: a float column widens an integer. */
  function Stored(c: Column, v: Value): Value {
    if c == OverallRating && v.Int? then Num(v.i as real) else v
  }

  /** The optional string a nullable text value denotes. */
  function TextOf(v: Value): (o: Option<string>)
    requires v.Str? || v.Null?
    ensures OptStr(o) == v
  {
    if v.Str? then Some(v.s) else None
  }

  /**
   * `setattr(place, column, v)` followed by the commit's type check: the row with that
   * column changed, or nothing when the value does not fit.
   */
  function SetColumn(p: Place, c: Column, v: Value): (r: Option<Place>)
    ensures r.Some? <==> Accepts(c, v)
    ensures r.Some? ==> Get(r.value, c) == Stored(c, v)
    ensures r.Some? ==> forall d :: d != c ==> Get(r.value, d) == Get(p, d)
    ensures r.Some? && Storable(p) ==> Storable(r.value)
  {
    if !Accepts(c, v) then None
    else
      match c
      case Id => Some(p.(id := v.i))
      case Title => Some(p.(title := v.s))
      case Url => Some(p.(url := v.s))
      case Photo => Some(p.(photo := TextOf(v)))
      case Description => Some(p.(description := TextOf(v)))
      case EntityTypes => Some(p.(entityTypes := Strings(v)))
      case AtmosphereTags => Some(p.(atmosphereTags := Strings(v)))
      case PurposeTags => Some(p.(purposeTags := Strings(v)))
      case Features => Some(p.(features := Strings(v)))
      case BestTime => Some(p.(bestTime := TextOf(v)))
      case WorkingDays => Some(p.(workingDays := Strings(v)))
      case BudgetLevel => Some(p.(budgetLevel := TextOf(v)))
      case OpeningHours => Some(p.(openingHours := TextOf(v)))
      case Open24x7 => Some(p.(open24x7 := if v.Null? then None else Some(v.b)))
      case OverallRating =>
        Some(p.(overallRating := if v.Null? then None else if v.Num? then Some(v.r) else Some(v.i as real)))
      case ReviewCount => Some(p.(reviewCount := if v.Null? then None else Some(v.i)))
  }

  /** Writing back the value a stored row already holds changes nothing. */
  lemma SetColumnOwnValue(p: Place, c: Column)
    requires Storable(p)
    ensures SetColumn(p, c, Get(p, c)) == Some(p)
  {
    match c
    case EntityTypes => StringsOfStrList(p.entityTypes);
    case AtmosphereTags => StringsOfStrList(p.atmosphereTags);
    case PurposeTags => StringsOfStrList(p.purposeTags);
    case Features => StringsOfStrList(p.features);
    case WorkingDays => StringsOfStrList(p.workingDays);
    case _ =>
  }

  /** The sixteen columns in declaration order. */
  const AllColumns: seq<Column> := [
    Id, Title, Url, Photo, Description, EntityTypes, AtmosphereTags, PurposeTags, Features,
    BestTime, WorkingDays, BudgetLevel, OpeningHours, Open24x7, OverallRating, ReviewCount]

  /** Every column is listed. */
  lemma AllColumnsComplete(c: Column)
    ensures c in AllColumns
  {
  }

  /** Update `data` names column `c`, which `update_place` will write. */
  predicate Writes(data: Object, c: Column) {
    c != Title && Name(c) in data
  }

  /**
   * The attribute loop of `update_place` over `cols`: each column other than the title that
   * `data` names takes the value given; the first value that does not fit is reported.
   */
  function WriteColumns(p: Place, data: Object, cols: seq<Column>): (r: Result<Place, Column>)
    decreases |cols|
    ensures r.Success? <==> forall c :: c in cols && Writes(data, c) ==> Accepts(c, data[Name(c)])
    ensures r.Success? ==> forall c ::
      Get(r.value, c) == if c in cols && Writes(data, c) then Stored(c, data[Name(c)]) else Get(p, c)
    ensures r.Success? && Storable(p) ==> Storable(r.value)
    ensures r.Failure? ==> r.error in cols && Writes(data, r.error) && !Accepts(r.error, data[Name(r.error)])
  {
    if cols == [] then Success(p)
    else
      var c := cols[0];
      assert forall d :: d in cols <==> d == c || d in cols[1..];
      if !Writes(data, c) then WriteColumns(p, data, cols[1..])
      else
        match SetColumn(p, c, data[Name(c)])
        case None => Failure(c)
        case Some(q) =>
          var r := WriteColumns(q, data, cols[1..]);
          if r.Success? then
            assert forall d :: d in cols[1..] && Writes(data, d) && d == c ==> Stored(d, data[Name(d)]) == Get(q, c);
            r
          else r
  }

  /** The title never changes through `update_place`. */
  lemma WriteColumnsKeepsTitle(p: Place, data: Object, cols: seq<Column>)
    requires WriteColumns(p, data, cols).Success?
    ensures WriteColumns(p, data, cols).value.title == p.title
  {
    assert Get(WriteColumns(p, data, cols).value, Title) == Get(p, Title);
  }

  /** Every column other than the title that `data` names accepts the value given for it. */
  predicate AllFit(data: Object) {
    forall c :: Writes(data, c) ==> Accepts(c, data[Name(c)])
  }

  /** The id a row with id `placeId` has once `data` is written to it. */
  function NewId(placeId: int, data: Object): int {
    if "id" in data && data["id"].Int? then data["id"].i else placeId
  }

  /** Some row has id `placeId`. */
  predicate HasId(t: Table, placeId: int) {
    exists j :: 0 <= j < |t| && t[j].id == placeId
  }

  /** Two rows have id `placeId`. */
  predicate SharedId(t: Table, placeId: int) {
    exists a, b :: 0 <= a < b < |t| && t[a].id == placeId && t[b].id == placeId
  }

  /**
   * `update_place`: the one row with id `placeId` gets every column `data` names except the
   * title; keys that name no column are not written. Returns the new table and the row's
   * position. It succeeds exactly when one row has the id, every written value fits its
   * column, and no other row already holds the id the row ends up with.
   */
  function UpdatePlace(t: Table, placeId: int, data: Object): (r: Result<(Table, nat), StoreError>)
    ensures r.Success? <==>
      && HasId(t, placeId) && !SharedId(t, placeId) && AllFit(data)
      && forall j :: 0 <= j < |t| && t[j].id != placeId ==> t[j].id != NewId(placeId, data)
    ensures r == Failure(MultipleFound) <==> SharedId(t, placeId)
    ensures r.Failure? && r.error.DuplicateKey? ==>
      && r.error.id == NewId(placeId, data) && r.error.id != placeId
      && exists j :: 0 <= j < |t| && t[j].id == r.error.id
    ensures r.Success? ==>
      var (t', i) := r.value;
      && i < |t| && |t'| == |t| && t[i].id == placeId
      && (forall j :: 0 <= j < |t| && j != i ==> t[j].id != placeId)
      && (forall j :: 0 <= j < |t| && j != i ==> t'[j] == t[j])
      && t'[i].title == t[i].title
      && (forall c :: c != Title ==>
            Get(t'[i], c) == if Name(c) in data then Stored(c, data[Name(c)]) else Get(t[i], c))
    ensures r == Failure(NotFound) <==> forall j :: 0 <= j < |t| ==> t[j].id != placeId
    ensures r.Failure? && r.error.Rejected? ==> Writes(data, r.error.column) && !Accepts(r.error.column, data[Name(r.error.column)])
    ensures r.Success? && Valid(t) ==> Valid(r.value.0)
  {
    match TheRow(t, (p: Place) => p.id == placeId)
    case Failure(e) => Failure(e)
    case Success(i) =>
      var r := UpdateRow(t, i, data);
      assert r.Success? ==> Rewritten(t[i], r.value.0[i], data);
      r
  }

  /**
   * The write of `update_place` once the row is found at position `i`: every column `data`
   * names except the title is written, and the commit refuses a value that does not fit or
   * an id another row already holds.
   */
  function UpdateRow(t: Table, i: nat, data: Object): (r: Result<(Table, nat), StoreError>)
    requires i < |t|
    ensures r.Success? <==>
      AllFit(data) && forall j :: 0 <= j < |t| && j != i ==> t[j].id != NewId(t[i].id, data)
    ensures r.Failure? ==> r.error.Rejected? || r.error.DuplicateKey?
    ensures r.Failure? && r.error.DuplicateKey? ==>
      && r.error.id == NewId(t[i].id, data)
      && exists j :: 0 <= j < |t| && j != i && t[j].id == r.error.id
    ensures r.Failure? && r.error.Rejected? ==> Writes(data, r.error.column) && !Accepts(r.error.column, data[Name(r.error.column)])
    ensures r.Success? ==>
      var (t', k) := r.value;
      && k == i && |t'| == |t|
      && (forall j :: 0 <= j < |t| && j != i ==> t'[j] == t[j])
      && t'[i].title == t[i].title && Rewritten(t[i], t'[i], data)
    ensures r.Success? && Valid(t) ==> Valid(r.value.0)
  {
    forall c ensures c in AllColumns { AllColumnsComplete(c); }
    match WriteColumns(t[i], data, AllColumns)
    case Failure(c) => Failure(Rejected(c))
    case Success(q) =>
      WrittenId(t[i], data, q);
      if exists j :: 0 <= j < |t| && j != i && t[j].id == q.id then Failure(DuplicateKey(q.id))
      else
        WriteColumnsKeepsTitle(t[i], data, AllColumns);
        var t' := t[i := q];
        assert Valid(t) ==> Valid(t') by {
          if Valid(t) { ReplaceKeepsValid(t, i, q); }
        }
        Success((t', i))
  }

  /** After the attribute loop the row's id is the one `data` gives, or its own. */
  lemma WrittenId(p: Place, data: Object, q: Place)
    requires WriteColumns(p, data, AllColumns) == Success(q)
    ensures q.id == NewId(p.id, data)
  {
    AllColumnsComplete(Id);
    assert Get(q, Id) == if Writes(data, Id) then Stored(Id, data["id"]) else Get(p, Id);
  }

  /** Replacing a row by a storable one whose id no other row has keeps the table valid. */
  lemma ReplaceKeepsValid(t: Table, i: nat, q: Place)
    requires Valid(t) && i < |t| && Storable(q)
    requires forall j :: 0 <= j < |t| && j != i ==> t[j].id != q.id
    ensures Valid(t[i := q])
  {
    var t' := t[i := q];
    forall a, b | 0 <= a < b < |t'| ensures t'[a].id != t'[b].id {
      if a != i && b != i {
        assert t'[a] == t[a] && t'[b] == t[b];
      }
    }
  }

  /**
   * `add_place`: appends the row unless its id is taken or a column rejects its value
   * (reported in column order).
   */
  function AddPlace(t: Table, p: Place): (r: Result<Table, StoreError>)
    ensures r.Success? <==> (forall j :: 0 <= j < |t| ==> t[j].id != p.id) && Storable(p)
    ensures r.Success? ==> r.value == t + [p]
    ensures r.Failure? && r.error.DuplicateKey? ==> r.error.id == p.id
    ensures r.Success? && Valid(t) ==> Valid(r.value)
  {
    if exists j :: 0 <= j < |t| && t[j].id == p.id then Failure(DuplicateKey(p.id))
    else if !Storable(p) then Failure(Rejected(FirstUnstorable(p)))
    else Success(t + [p])
  }

  /** A column whose limit the row breaks. */
  function FirstUnstorable(p: Place): (c: Column)
    requires !Storable(p)
    ensures !Accepts(c, Get(p, c))
  {
    if !IsInt32(p.id) then Id
    else if |p.title| > 255 then Title
    else if !FitsVarchar(p.bestTime, 20) then BestTime
    else if !FitsVarchar(p.budgetLevel, 20) then BudgetLevel
    else if !FitsVarchar(p.openingHours, 100) then OpeningHours
    else ReviewCount
  }

  /** A row is storable exactly when every column accepts its value. */
  lemma StorableIff(p: Place)
    ensures Storable(p) <==> forall c :: Accepts(c, Get(p, c))
  {
    if Storable(p) {
      forall c ensures Accepts(c, Get(p, c)) {
      }
    } else {
      var c := FirstUnstorable(p);
    }
  }

  /** The categories of a stored row, as the review upsert reads them (`best_time or ''`). */
  function StoredCategories(p: Place): (c: Categories)
    ensures c.bestTime.Some?
    ensures c.bestTime.value == if p.bestTime.Some? then p.bestTime.value else ""
  {
    Categories(p.entityTypes, p.atmosphereTags, p.purposeTags, p.budgetLevel, p.features, Some(p.bestTime.GetOr("")))
  }

  /** The update dictionary of the upsert: the merged categories, plus the photo when one was uploaded. */
  function UpsertData(merged: Categories, photo: Option<string>): (d: Object)
    ensures d.Keys == ToObject(merged).Keys + (if photo.Some? then {"photo"} else {})
    ensures forall k :: k in ToObject(merged) ==> d[k] == ToObject(merged)[k]
    ensures photo.Some? ==> d["photo"] == Str(photo.value)
  {
    if photo.Some? then ToObject(merged)["photo" := Str(photo.value)] else ToObject(merged)
  }

  /** The row created from a first review: defaults for everything the review does not give. */
  function NewPlace(id: int, url: string, title: string, review: string, photo: Option<string>, extracted: Categories): (p: Place)
    ensures p.id == id && p.url == url && p.title == title && p.photo == photo
    ensures p.description == Some(Text.ReviewDescription(review))
    ensures p.entityTypes == extracted.entityTypes && p.atmosphereTags == extracted.atmosphereTags
    ensures p.purposeTags == extracted.purposeTags && p.features == extracted.features
    ensures p.bestTime == extracted.bestTime && p.budgetLevel == extracted.budgetLevel
    ensures p.workingDays == [] && p.openingHours.None?
    ensures p.open24x7 == Some(false) && p.overallRating == Some(0.0) && p.reviewCount == Some(0)
  {
    Place(id, title, url, photo, Some(Text.ReviewDescription(review)), extracted.entityTypes,
      extracted.atmosphereTags, extracted.purposeTags, extracted.features, extracted.bestTime, [],
      extracted.budgetLevel, None, Some(false), Some(0.0), Some(0))
  }

  /** Whether the upsert created or updated the row. */
  datatype Action = Created | Updated

  /** The upsert's answer: the action, the new table and the row (its `to_dict` and id are the response). */
  datatype Upserted = Upserted(action: Action, table: Table, place: Place)

  /** The merge of a stored row's categories with extracted ones fits the `String(20)` columns. */
  predicate MergedFits(prior: Place, extracted: Categories) {
    var merged := Merge.MergeCategories(StoredCategories(prior), extracted);
    FitsVarchar(merged.bestTime, 20) && FitsVarchar(merged.budgetLevel, 20)
  }

  /**
   * `create_or_update_place_from_review`, given the categories the language model extracted
   * from the review and the id the database would assign to a new row. Two rows with the
   * url make the lookup fail; a new url creates the row unless its id is taken or a value
   * does not fit; in a valid table with unique urls an existing url updates its row unless
   * the merged best time or budget level is too long.
   */
  function UpsertFromReview(t: Table, url: string, title: string, review: string, photo: Option<string>,
                            extracted: Categories, freshId: int): (r: Result<Upserted, StoreError>)
    ensures (exists a, b :: 0 <= a < b < |t| && t[a].url == url && t[b].url == url) ==> r == Failure(MultipleFound)
    ensures (forall j :: 0 <= j < |t| ==> t[j].url != url) ==>
      var p := NewPlace(freshId, url, title, review, photo, extracted);
      && (r.Success? <==> (forall j :: 0 <= j < |t| ==> t[j].id != freshId) && Storable(p))
      && (r.Success? ==> r.value == Upserted(Created, t + [p], p))
    ensures Valid(t) && UniqueUrls(t) ==> forall i :: 0 <= i < |t| && t[i].url == url ==>
      && (r.Success? <==> MergedFits(t[i], extracted))
      && (r.Success? ==> r.value.action == Updated)
    ensures r.Success? && r.value.action == Created ==>
      && (forall j :: 0 <= j < |t| ==> t[j].url != url)
      && r.value.place == NewPlace(freshId, url, title, review, photo, extracted)
      && r.value.table == t + [r.value.place]
    ensures r.Success? && r.value.action == Updated ==>
      exists i :: 0 <= i < |t| && t[i].url == url && UpdatedFromReview(t, i, r.value.table, r.value.place, photo, extracted)
  {
    match ByUrl(t, url)
    case Failure(e) => Failure(e)
    case Success(None) =>
      var p := NewPlace(freshId, url, title, review, photo, extracted);
      (match AddPlace(t, p)
       case Failure(e) => Failure(e)
       case Success(t') => Success(Upserted(Created, t', p)))
    case Success(Some(i)) => UpdateFromReview(t, i, photo, extracted)
  }

  /**
   * The update branch of the upsert for the row at position `i`: the stored categories merged
   * with the extracted ones, plus the photo when one was uploaded, written through
   * `update_place`. In a valid table it fails only when the merged best time or budget level
   * is too long for its column.
   */
  function UpdateFromReview(t: Table, i: nat, photo: Option<string>, extracted: Categories): (r: Result<Upserted, StoreError>)
    requires i < |t|
    ensures Valid(t) ==> (r.Success? <==> MergedFits(t[i], extracted))
    ensures r.Success? ==> r.value.action == Updated && UpdatedFromReview(t, i, r.value.table, r.value.place, photo, extracted)
  {
    var merged := Merge.MergeCategories(StoredCategories(t[i]), extracted);
    assert Valid(t) ==> (UpdatePlace(t, t[i].id, UpsertData(merged, photo)).Success? <==> MergedFits(t[i], extracted)) by {
      if Valid(t) {
        UpsertDataKeys(merged, photo);
        UpdateByOwnId(t, i, UpsertData(merged, photo));
        UpsertDataFits(merged, photo);
      }
    }
    match UpdatePlace(t, t[i].id, UpsertData(merged, photo))
    case Failure(e) => Failure(e)
    case Success((t', k)) =>
      UpdateFromReviewShape(t, i, k, t', merged, photo, extracted);
      Success(Upserted(Updated, t', t'[k]))
  }

  /**
   * Row `i` of `t` was updated from a review into row `place` of `t'`: same position, id,
   * title and url; the four tag lists, best time and budget level are the merge of the stored
   * categories with the extracted ones; the photo changes only when one was uploaded; every
   * other column and every other row is unchanged.
   */
  predicate UpdatedFromReview(t: Table, i: nat, t': Table, place: Place, photo: Option<string>, extracted: Categories)
    requires i < |t|
  {
    var prior := t[i];
    var merged := Merge.MergeCategories(StoredCategories(prior), extracted);
    && |t'| == |t| && t'[i] == place
    && (forall j :: 0 <= j < |t| && j != i ==> t'[j] == t[j])
    && place.id == prior.id && place.title == prior.title && place.url == prior.url
    && place.entityTypes == merged.entityTypes && place.atmosphereTags == merged.atmosphereTags
    && place.purposeTags == merged.purposeTags && place.features == merged.features
    && place.bestTime == merged.bestTime && place.budgetLevel == merged.budgetLevel
    && place.photo == (if photo.Some? then photo else prior.photo)
    && place.description == prior.description && place.workingDays == prior.workingDays
    && place.openingHours == prior.openingHours && place.open24x7 == prior.open24x7
    && place.overallRating == prior.overallRating && place.reviewCount == prior.reviewCount
  }

  /** `StrList` loses nothing. */
  lemma StrListInjective(a: seq<string>, b: seq<string>)
    requires StrList(a) == StrList(b)
    ensures a == b
  {
    StringsOfStrList(a);
    StringsOfStrList(b);
  }

  /** `OptStr` loses nothing. */
  lemma OptStrInjective(a: Option<string>, b: Option<string>)
    requires OptStr(a) == OptStr(b)
    ensures a == b
  {
  }

  /** Row `place` is row `prior` with every column other than the title that `data` names rewritten. */
  predicate Rewritten(prior: Place, place: Place, data: Object) {
    forall c :: c != Title ==> Get(place, c) == if Name(c) in data then Stored(c, data[Name(c)]) else Get(prior, c)
  }

  /** Rewriting with the upsert's data puts the merged categories in place. */
  lemma RewrittenCategories(prior: Place, place: Place, merged: Categories, photo: Option<string>)
    requires Rewritten(prior, place, UpsertData(merged, photo))
    ensures place.entityTypes == merged.entityTypes && place.atmosphereTags == merged.atmosphereTags
    ensures place.purposeTags == merged.purposeTags && place.features == merged.features
    ensures place.bestTime == merged.bestTime && place.budgetLevel == merged.budgetLevel
  {
    var data := UpsertData(merged, photo);
    var fields := ToObject(merged);
    assert data["entity_types"] == fields["entity_types"] == StrList(merged.entityTypes);
    assert data["atmosphere_tags"] == fields["atmosphere_tags"] == StrList(merged.atmosphereTags);
    assert data["purpose_tags"] == fields["purpose_tags"] == StrList(merged.purposeTags);
    assert data["features"] == fields["features"] == StrList(merged.features);
    assert data["best_time"] == fields["best_time"] == OptStr(merged.bestTime);
    assert data["budget_level"] == fields["budget_level"] == OptStr(merged.budgetLevel);
    assert Get(place, EntityTypes) == StrList(merged.entityTypes);
    assert Get(place, AtmosphereTags) == StrList(merged.atmosphereTags);
    assert Get(place, PurposeTags) == StrList(merged.purposeTags);
    assert Get(place, Features) == StrList(merged.features);
    assert Get(place, BestTime) == OptStr(merged.bestTime);
    assert Get(place, BudgetLevel) == OptStr(merged.budgetLevel);
    StrListInjective(place.entityTypes, merged.entityTypes);
    StrListInjective(place.atmosphereTags, merged.atmosphereTags);
    StrListInjective(place.purposeTags, merged.purposeTags);
    StrListInjective(place.features, merged.features);
    OptStrInjective(place.bestTime, merged.bestTime);
    OptStrInjective(place.budgetLevel, merged.budgetLevel);
  }

  /** Rewriting with the upsert's data changes the photo only when one is given. */
  lemma RewrittenPhoto(prior: Place, place: Place, merged: Categories, photo: Option<string>)
    requires Rewritten(prior, place, UpsertData(merged, photo))
    ensures place.photo == if photo.Some? then photo else prior.photo
  {
    var data := UpsertData(merged, photo);
    assert Get(place, Photo) == if photo.Some? then Str(photo.value) else Get(prior, Photo);
    OptStrInjective(place.photo, if photo.Some? then photo else prior.photo);
  }

  /** In a valid table, data that does not name the id update a row by its id iff every value fits. */
  lemma UpdateByOwnId(t: Table, i: nat, data: Object)
    requires Valid(t) && i < |t| && "id" !in data
    ensures UpdatePlace(t, t[i].id, data).Success? <==> AllFit(data)
  {
    assert HasId(t, t[i].id);
    assert NewId(t[i].id, data) == t[i].id;
  }

  /** The upsert's data fit their columns exactly when the merged best time and budget level fit. */
  lemma UpsertDataFits(merged: Categories, photo: Option<string>)
    ensures AllFit(UpsertData(merged, photo)) <==> FitsVarchar(merged.bestTime, 20) && FitsVarchar(merged.budgetLevel, 20)
  {
    var data := UpsertData(merged, photo);
    assert data["best_time"] == OptStr(merged.bestTime) && data["budget_level"] == OptStr(merged.budgetLevel);
    assert Writes(data, BestTime) && Writes(data, BudgetLevel);
    UpsertDataKeys(merged, photo);
    forall c | Writes(data, c) && c != BestTime && c != BudgetLevel ensures Accepts(c, data[Name(c)]) {
      assert Name(c) in UpsertKeys;
      match c
      case EntityTypes => assert data[Name(c)] == StrList(merged.entityTypes);
      case AtmosphereTags => assert data[Name(c)] == StrList(merged.atmosphereTags);
      case PurposeTags => assert data[Name(c)] == StrList(merged.purposeTags);
      case Features => assert data[Name(c)] == StrList(merged.features);
      case Photo =>
      case _ =>
    }
  }

  /** The keys the upsert's update dictionary can hold. */
  const UpsertKeys: set<string> :=
    {"entity_types", "atmosphere_tags", "purpose_tags", "budget_level", "features", "best_time", "photo"}

  /** The upsert's data names only categories and the photo. */
  lemma UpsertDataKeys(merged: Categories, photo: Option<string>)
    ensures UpsertData(merged, photo).Keys <= UpsertKeys
  {
  }

  /** Rewriting with data that names only categories and the photo leaves every other column. */
  lemma RewrittenKeepsRest(prior: Place, place: Place, data: Object)
    requires Rewritten(prior, place, data) && data.Keys <= UpsertKeys
    ensures place.id == prior.id && place.url == prior.url
    ensures place.description == prior.description && place.workingDays == prior.workingDays
    ensures place.openingHours == prior.openingHours && place.open24x7 == prior.open24x7
    ensures place.overallRating == prior.overallRating && place.reviewCount == prior.reviewCount
  {
    RewrittenKeepsScalars(prior, place, data);
    RewrittenKeepsTexts(prior, place, data);
  }

  /** The id, url, 24/7 flag, rating and review count survive such a rewrite. */
  lemma RewrittenKeepsScalars(prior: Place, place: Place, data: Object)
    requires Rewritten(prior, place, data) && data.Keys <= UpsertKeys
    ensures place.id == prior.id && place.url == prior.url && place.open24x7 == prior.open24x7
    ensures place.overallRating == prior.overallRating && place.reviewCount == prior.reviewCount
  {
    assert Get(place, Id) == Get(prior, Id);
    assert Get(place, Url) == Get(prior, Url);
    assert Get(place, Open24x7) == Get(prior, Open24x7);
    assert Get(place, OverallRating) == Get(prior, OverallRating);
    assert Get(place, ReviewCount) == Get(prior, ReviewCount);
  }

  /** The description, working days and opening hours survive such a rewrite. */
  lemma RewrittenKeepsTexts(prior: Place, place: Place, data: Object)
    requires Rewritten(prior, place, data) && data.Keys <= UpsertKeys
    ensures place.description == prior.description && place.workingDays == prior.workingDays
    ensures place.openingHours == prior.openingHours
  {
    assert Get(place, Description) == Get(prior, Description);
    assert Get(place, WorkingDays) == Get(prior, WorkingDays);
    assert Get(place, OpeningHours) == Get(prior, OpeningHours);
    OptStrInjective(place.description, prior.description);
    StrListInjective(place.workingDays, prior.workingDays);
    OptStrInjective(place.openingHours, prior.openingHours);
  }

  /** The row `UpdatePlace` wrote for the upsert has the shape `UpdatedFromReview` describes. */
  lemma UpdateFromReviewShape(t: Table, i: nat, k: nat, t': Table, merged: Categories, photo: Option<string>, extracted: Categories)
    requires i < |t|
    requires merged == Merge.MergeCategories(StoredCategories(t[i]), extracted)
    requires UpdatePlace(t, t[i].id, UpsertData(merged, photo)) == Success((t', k))
    ensures k == i
    ensures UpdatedFromReview(t, i, t', t'[k], photo, extracted)
  {
    assert Rewritten(t[i], t'[i], UpsertData(merged, photo));
    RewrittenCategories(t[i], t'[i], merged, photo);
    RewrittenPhoto(t[i], t'[i], merged, photo);
    UpsertDataKeys(merged, photo);
    RewrittenKeepsRest(t[i], t'[i], UpsertData(merged, photo));
  }

  /** The review upsert keeps the primary key and the column limits. */
  lemma UpsertKeepsValid(t: Table, url: string, title: string, review: string, photo: Option<string>,
                         extracted: Categories, freshId: int)
    requires Valid(t)
    requires UpsertFromReview(t, url, title, review, photo, extracted, freshId).Success?
    ensures Valid(UpsertFromReview(t, url, title, review, photo, extracted, freshId).value.table)
  {
  }

  /** The review upsert keeps at most one row per url: it creates a row only for a new url and never changes a url. */
  lemma UpsertKeepsUrlsUnique(t: Table, url: string, title: string, review: string, photo: Option<string>,
                              extracted: Categories, freshId: int)
    requires UniqueUrls(t)
    requires UpsertFromReview(t, url, title, review, photo, extracted, freshId).Success?
    ensures UniqueUrls(UpsertFromReview(t, url, title, review, photo, extracted, freshId).value.table)
  {
    var r := UpsertFromReview(t, url, title, review, photo, extracted, freshId).value;
    if r.action == Updated {
      var i :| 0 <= i < |t| && t[i].url == url && UpdatedFromReview(t, i, r.table, r.place, photo, extracted);
      UpdatedKeepsUrls(t, i, r.table, r.place, photo, extracted);
    } else {
      var t' := r.table;
      assert t' == t + [r.place] && r.place.url == url;
      assert forall j :: 0 <= j < |t| ==> t[j].url != url;
      forall a, b | 0 <= a < b < |t'| ensures t'[a].url != t'[b].url {
        if b == |t| {
          assert t'[a] == t[a] && t'[b].url == url;
        } else {
          assert t'[a] == t[a] && t'[b] == t[b];
        }
      }
    }
  }

  /** A review update changes no url. */
  lemma UpdatedKeepsUrls(t: Table, i: nat, t': Table, place: Place, photo: Option<string>, extracted: Categories)
    requires i < |t| && UpdatedFromReview(t, i, t', place, photo, extracted)
    ensures |t'| == |t| && forall j :: 0 <= j < |t| ==> t'[j].url == t[j].url
  {
  }
}

/**
 * `merge_categories` (api/agent.py): combining the categories already stored for a place with
 * the ones extracted from a new review. Tag lists are united; the two single values follow
 * "the new value wins if it is truthy, otherwise the existing one stays".
 */
module Merge {

  import opened Wrappers
  import opened Tags

  /** Python's `a or b` on optional strings. */
  function Or(a: Option<string>, b: Option<string>): Option<string> {
    if Truthy(a) then a else b
  }

  /** The merged categories of a stored place and a newly extracted category object. */
  function MergeCategories(existing: Categories, extracted: Categories): (m: Categories)
    ensures Elems(m.entityTypes) == Elems(existing.entityTypes) + Elems(extracted.entityTypes)
    ensures Elems(m.atmosphereTags) == Elems(existing.atmosphereTags) + Elems(extracted.atmosphereTags)
    ensures Elems(m.purposeTags) == Elems(existing.purposeTags) + Elems(extracted.purposeTags)
    ensures Elems(m.features) == Elems(existing.features) + Elems(extracted.features)
    ensures NoDuplicates(m.entityTypes) && NoDuplicates(m.atmosphereTags)
    ensures NoDuplicates(m.purposeTags) && NoDuplicates(m.features)
    ensures Truthy(extracted.bestTime) ==> m.bestTime == extracted.bestTime
    ensures !Truthy(extracted.bestTime) ==> m.bestTime == existing.bestTime
    ensures Truthy(extracted.budgetLevel) ==> m.budgetLevel == extracted.budgetLevel
    ensures !Truthy(extracted.budgetLevel) ==> m.budgetLevel == existing.budgetLevel
  {
    Categories(
      Union(existing.entityTypes, extracted.entityTypes),
      Union(existing.atmosphereTags, extracted.atmosphereTags),
      Union(existing.purposeTags, extracted.purposeTags),
      Or(extracted.budgetLevel, existing.budgetLevel),
      Union(existing.features, extracted.features),
      Or(extracted.bestTime, existing.bestTime))
  }

  /** Merging never loses anything: every stored tag survives and a truthy single value stays truthy. */
  lemma MergeNeverErases(existing: Categories, extracted: Categories)
    ensures var m := MergeCategories(existing, extracted);
      && Elems(existing.entityTypes) <= Elems(m.entityTypes)
      && Elems(existing.atmosphereTags) <= Elems(m.atmosphereTags)
      && Elems(existing.purposeTags) <= Elems(m.purposeTags)
      && Elems(existing.features) <= Elems(m.features)
      && (Truthy(existing.bestTime) ==> Truthy(m.bestTime))
      && (Truthy(existing.budgetLevel) ==> Truthy(m.budgetLevel))
  {
  }

  /** Merging the existing categories into an earlier merge result changes nothing. */
  lemma MergeAbsorbsExisting(x: Categories, y: Categories)
    ensures MergeCategories(x, MergeCategories(x, y)) == MergeCategories(x, y)
  {
    UnionAbsorbsLeft(x.entityTypes, y.entityTypes);
    UnionAbsorbsLeft(x.atmosphereTags, y.atmosphereTags);
    UnionAbsorbsLeft(x.purposeTags, y.purposeTags);
    UnionAbsorbsLeft(x.features, y.features);
  }

  /** Merging the same extracted categories a second time changes nothing. */
  lemma MergeAbsorbsNew(x: Categories, y: Categories)
    ensures MergeCategories(MergeCategories(x, y), y) == MergeCategories(x, y)
  {
    UnionAbsorbsRight(x.entityTypes, y.entityTypes);
    UnionAbsorbsRight(x.atmosphereTags, y.atmosphereTags);
    UnionAbsorbsRight(x.purposeTags, y.purposeTags);
    UnionAbsorbsRight(x.features, y.features);
  }

  /** A review that extracted no budget level (null or empty) keeps the stored one, whatever it is. */
  lemma NullBudgetKeepsStored(x: Categories, y: Categories)
    requires x.budgetLevel.Some? && !Truthy(y.budgetLevel)
    ensures MergeCategories(x, y).budgetLevel == x.budgetLevel
  {
  }
}

/**
 * Tag lists and the six-field category object that the language model returns, that a
 * search consumes as preferences, and that `merge_categories` combines.
 */
module Tags {

  import opened Wrappers
  import opened Json

  /**
   * The six categories: four tag lists and two single values. `None` is JSON null; an absent
   * key is represented by the value Python's `.get(key, default)` substitutes for it.
   */
  datatype Categories = Categories(
    entityTypes: seq<string>,
    atmosphereTags: seq<string>,
    purposeTags: seq<string>,
    budgetLevel: Option<string>,
    features: seq<string>,
    bestTime: Option<string>)

  /** Python truthiness of an optional string: present and non-empty. */
  predicate Truthy(o: Option<string>) {
    o.Some? && o.value != ""
  }

  /** The set of tags of a list. */
  function Elems(s: seq<string>): set<string> {
    set x | x in s
  }

  /** No tag occurs twice. */
  predicate NoDuplicates(s: seq<string>) {
    forall i, j :: 0 <= i < j < |s| ==> s[i] != s[j]
  }

  /** PostgreSQL's array overlap `a && b`: some tag occurs in both. */
  predicate Overlaps(a: seq<string>, b: seq<string>) {
    exists x :: x in a && x in b
  }

  /**
   * `[t for t in tags if t in wanted]`: the tags of `tags`, in their order and with their
   * repetitions, that occur in `wanted`.
   */
  function Matching(tags: seq<string>, wanted: seq<string>): (r: seq<string>)
    ensures forall x :: multiset(r)[x] == if x in wanted then multiset(tags)[x] else 0
    ensures r == [] <==> !Overlaps(tags, wanted)
  {
    if tags == [] then []
    else
      var rest := Matching(tags[1..], wanted);
      assert tags == [tags[0]] + tags[1..];
      assert multiset(tags) == multiset{tags[0]} + multiset(tags[1..]);
      if tags[0] in wanted then [tags[0]] + rest else rest
  }

  /** Matching a concatenation matches each part, in order: the comprehension keeps the list's order. */
  lemma {:induction false} MatchingAppend(a: seq<string>, b: seq<string>, wanted: seq<string>)
    ensures Matching(a + b, wanted) == Matching(a, wanted) + Matching(b, wanted)
  {
    if a != [] {
      assert (a + b)[0] == a[0] && (a + b)[1..] == a[1..] + b;
      MatchingAppend(a[1..], b, wanted);
      assert Matching(a, wanted) == (if a[0] in wanted then [a[0]] else []) + Matching(a[1..], wanted);
    } else {
      assert a + b == b;
    }
  }

  /** A single tag is kept exactly when it is wanted. */
  lemma MatchingSingle(x: string, wanted: seq<string>)
    ensures Matching([x], wanted) == if x in wanted then [x] else []
  {
    assert [x][1..] == [];
  }

  /** The tags of `s` not already in `seen`, first occurrences only, in order of `s`. */
  function DistinctFrom(s: seq<string>, seen: set<string>): (r: seq<string>)
    ensures Elems(r) == Elems(s) - seen
    ensures NoDuplicates(r)
  {
    if s == [] then []
    else if s[0] in seen then
      var r := DistinctFrom(s[1..], seen);
      assert Elems(s) == {s[0]} + Elems(s[1..]);
      r
    else
      var rest := DistinctFrom(s[1..], seen + {s[0]});
      assert Elems(s) == {s[0]} + Elems(s[1..]);
      assert s[0] !in Elems(rest);
      assert Elems([s[0]] + rest) == {s[0]} + Elems(rest);
      [s[0]] + rest
  }

  /**
   * `list(set(a).union(set(b)))` with a fixed order: the tags of `a` and then those of `b`,
   * each first occurrence once.
   */
  function Union(a: seq<string>, b: seq<string>): (r: seq<string>)
    ensures Elems(r) == Elems(a) + Elems(b)
    ensures NoDuplicates(r)
  {
    assert Elems(a + b) == Elems(a) + Elems(b);
    DistinctFrom(a + b, {})
  }

  /** The category object as the JSON dictionary the language model returns. */
  function ToObject(c: Categories): (o: Object)
    ensures o.Keys == {"entity_types", "atmosphere_tags", "purpose_tags", "budget_level", "features", "best_time"}
    ensures o["entity_types"] == StrList(c.entityTypes) && o["atmosphere_tags"] == StrList(c.atmosphereTags)
    ensures o["purpose_tags"] == StrList(c.purposeTags) && o["features"] == StrList(c.features)
    ensures o["budget_level"] == OptStr(c.budgetLevel) && o["best_time"] == OptStr(c.bestTime)
  {
    map[
      "entity_types" := StrList(c.entityTypes),
      "atmosphere_tags" := StrList(c.atmosphereTags),
      "purpose_tags" := StrList(c.purposeTags),
      "budget_level" := OptStr(c.budgetLevel),
      "features" := StrList(c.features),
      "best_time" := OptStr(c.bestTime)
    ]
  }

  /** Deduplicating a sequence that meets `seen` nowhere and has no repetitions leaves it unchanged. */
  lemma {:induction false} DistinctFromFresh(s: seq<string>, seen: set<string>)
    requires NoDuplicates(s)
    requires Elems(s) !! seen
    ensures DistinctFrom(s, seen) == s
  {
    if s != [] {
      assert s[0] in Elems(s);
      assert Elems(s[1..]) <= Elems(s);
      assert forall j :: 0 <= j < |s[1..]| ==> s[1..][j] != s[0];
      assert s[0] !in Elems(s[1..]);
      DistinctFromFresh(s[1..], seen + {s[0]});
    }
  }

  /** Deduplicating a sequence all of whose tags are already seen gives nothing. */
  lemma {:induction false} DistinctFromSeen(s: seq<string>, seen: set<string>)
    requires Elems(s) <= seen
    ensures DistinctFrom(s, seen) == []
  {
    if s != [] {
      assert s[0] in Elems(s);
      assert Elems(s[1..]) <= Elems(s);
      DistinctFromSeen(s[1..], seen);
    }
  }

  /** Deduplicating a concatenation deduplicates the second part against what the first contributed. */
  lemma {:induction false} DistinctFromAppend(a: seq<string>, b: seq<string>, seen: set<string>)
    ensures DistinctFrom(a + b, seen) == DistinctFrom(a, seen) + DistinctFrom(b, seen + Elems(a))
  {
    if a == [] {
      assert a + b == b;
      assert Elems(a) == {};
      assert seen + Elems(a) == seen;
    } else {
      assert (a + b)[0] == a[0];
      assert (a + b)[1..] == a[1..] + b;
      assert Elems(a) == {a[0]} + Elems(a[1..]);
      if a[0] in seen {
        DistinctFromAppend(a[1..], b, seen);
        assert seen + Elems(a[1..]) == seen + Elems(a);
      } else {
        DistinctFromAppend(a[1..], b, seen + {a[0]});
        assert seen + {a[0]} + Elems(a[1..]) == seen + Elems(a);
      }
    }
  }

  /** Deduplicating twice against the same seen set is deduplicating once. */
  lemma {:induction false} DistinctFromTwice(s: seq<string>, seen: set<string>)
    ensures DistinctFrom(DistinctFrom(s, seen), seen) == DistinctFrom(s, seen)
  {
    var r := DistinctFrom(s, seen);
    DistinctFromFresh(r, seen);
  }

  /** Union with the union again adds nothing and keeps the order. */
  lemma UnionAbsorbsLeft(a: seq<string>, b: seq<string>)
    ensures Union(a, Union(a, b)) == Union(a, b)
  {
    var u := Union(a, b);
    DistinctFromAppend(a, b, {});
    DistinctFromAppend(a, u, {});
    var da := DistinctFrom(a, {});
    var db := DistinctFrom(b, Elems(a));
    assert {} + Elems(a) == Elems(a);
    assert u == da + db;
    DistinctFromAppend(da, db, Elems(a));
    DistinctFromSeen(da, Elems(a));
    assert Elems(a) + Elems(da) == Elems(a);
    DistinctFromTwice(b, Elems(a));
    assert DistinctFrom(u, Elems(a)) == db;
  }

  /** Adding the same tags again to a union changes nothing. */
  lemma UnionAbsorbsRight(a: seq<string>, b: seq<string>)
    ensures Union(Union(a, b), b) == Union(a, b)
  {
    var u := Union(a, b);
    DistinctFromAppend(u, b, {});
    DistinctFromFresh(u, {});
    DistinctFromSeen(b, Elems(u));
    assert {} + Elems(u) == Elems(u);
  }
}

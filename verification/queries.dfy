/** Translation of list filters into a store query, and the membership
    semantics of the `$in` queries it produces (src/service.ts:37-42, 179-202).

    The store's general query language is not modelled: a query here is a
    conjunction of `key: { $in: values }` conditions, which is the only shape
    `buildQueryFilters` builds.
 */
module Queries {
  import opened Errors
  import opened DataCenters

  /** `{ $in: values }`: the document's value under the key is one of `values`. */
  datatype Condition = In(values: seq<string>)

  /** A conjunction of conditions, one per key. */
  type Query = map<string, Condition>

  /** QueryFilters: four optional lists of accepted values. An absent list
      is `None` (`undefined` in the source). */
  datatype QueryFilters = QueryFilters(
    country: Option<seq<string>>,
    name: Option<seq<string>>,
    centerType: Option<seq<string>>,
    centerId: Option<seq<string>>)

  /** The empty filter: every list absent. */
  const NoFilters := QueryFilters(None, None, None, None)

  /** `list && list.length > 0`: the list is present and non-empty. */
  predicate Constrains(list: Option<seq<string>>)
  {
    list.Some? && |list.value| > 0
  }

  /** One `if` of buildQueryFilters: add `key: { $in: list }` when the list
      constrains anything, and leave the query alone otherwise. */
  function AddFilter(q: Query, key: string, list: Option<seq<string>>): (r: Query)
    ensures r.Keys == if Constrains(list) then q.Keys + {key} else q.Keys
    ensures Constrains(list) ==> r[key] == In(list.value)
    ensures forall k :: k in q && k != key ==> r[k] == q[k]
  {
    if Constrains(list) then q[key := In(list.value)] else q
  }

  /** The key the source stores the country filter under. This is
      "analysisId", not "country" (src/service.ts:182): a record has no
      such field, so a country filter as written matches no record. */
  const CountryFilterKey := "analysisId"

  /** buildQueryFilters, as written. */
  function BuildQueryFilters(filters: QueryFilters): (q: Query)
    ensures q.Keys <= {CountryFilterKey, "name", "type", "centerId"}
    ensures CountryFilterKey in q <==> Constrains(filters.country)
    ensures "name" in q <==> Constrains(filters.name)
    ensures "type" in q <==> Constrains(filters.centerType)
    ensures "centerId" in q <==> Constrains(filters.centerId)
    ensures CountryFilterKey in q ==> q[CountryFilterKey] == In(filters.country.value)
    ensures "name" in q ==> q["name"] == In(filters.name.value)
    ensures "type" in q ==> q["type"] == In(filters.centerType.value)
    ensures "centerId" in q ==> q["centerId"] == In(filters.centerId.value)
    ensures "country" !in q
  {
    var q0: Query := map[];
    var q1 := AddFilter(q0, CountryFilterKey, filters.country);
    var q2 := AddFilter(q1, "name", filters.name);
    var q3 := AddFilter(q2, "type", filters.centerType);
    AddFilter(q3, "centerId", filters.centerId)
  }

  /** buildQueryFilters with the country filter under "country", as the
      surrounding code and the `QueryFilters` type evidently intend. */
  function BuildQueryFiltersIntended(filters: QueryFilters): (q: Query)
    ensures q.Keys <= {"country", "name", "type", "centerId"}
    ensures "country" in q <==> Constrains(filters.country)
    ensures "country" in q ==> q["country"] == In(filters.country.value)
    ensures forall key :: key != "country" && key != CountryFilterKey ==>
              (key in q <==> key in BuildQueryFilters(filters))
              && (key in q ==> q[key] == BuildQueryFilters(filters)[key])
  {
    var q0: Query := map[];
    var q1 := AddFilter(q0, FieldName(Country), filters.country);
    var q2 := AddFilter(q1, "name", filters.name);
    var q3 := AddFilter(q2, "type", filters.centerType);
    AddFilter(q3, "centerId", filters.centerId)
  }

  /** At most one condition per filter list, and the empty filter is the
      empty query. */
  lemma BuildQueryFiltersSize(filters: QueryFilters)
    ensures |BuildQueryFilters(filters)| <= 4
    ensures BuildQueryFilters(NoFilters) == map[]
  {
  }

  /** The value of `dc` under document key `key`, if the record has that key. */
  function ValueAt(dc: DataCenter, key: string): (v: Option<string>)
    ensures v.Some? <==> ParseField(key).Some?
    ensures forall f :: FieldName(f) == key ==> v == Some(Get(dc, f))
  {
    match ParseField(key)
    case Some(f) => Some(Get(dc, f))
    case None => None
  }

  /** `dc` meets every `$in` condition of `q`. A condition on a key that is
      not one of the nine record fields is never met here: the keys the store
      adds (`_id`, timestamps, version) are not part of the record. */
  predicate Matches(dc: DataCenter, q: Query)
  {
    forall key :: key in q ==> ValueAt(dc, key).Some? && ValueAt(dc, key).value in q[key].values
  }

  /** The record satisfies every present, non-empty list in `filters`, with
      country checked against the record's country. */
  predicate MeetsFilters(dc: DataCenter, filters: QueryFilters)
  {
    && (Constrains(filters.country) ==> dc.country in filters.country.value)
    && (Constrains(filters.name) ==> dc.name in filters.name.value)
    && (Constrains(filters.centerType) ==> dc.centerType in filters.centerType.value)
    && (Constrains(filters.centerId) ==> dc.centerId in filters.centerId.value)
  }

  /** As written, a non-empty country filter matches no record at all. */
  lemma CountryFilterMatchesNothing(dc: DataCenter, filters: QueryFilters)
    requires Constrains(filters.country)
    ensures !Matches(dc, BuildQueryFilters(filters))
  {
  }

  /** As written, a filter without a country list matches exactly the
      records that meet its other lists. */
  lemma FiltersWithoutCountryMatch(dc: DataCenter, filters: QueryFilters)
    requires !Constrains(filters.country)
    ensures Matches(dc, BuildQueryFilters(filters)) <==> MeetsFilters(dc, filters)
  {
  }

  /** Adding one filter to a query adds exactly its condition: the record
      must also hold one of the listed values under that key. */
  lemma MatchesAddFilter(dc: DataCenter, q: Query, key: string, list: Option<seq<string>>)
    requires key !in q
    ensures Matches(dc, AddFilter(q, key, list))
        <==> Matches(dc, q)
             && (Constrains(list) ==> ValueAt(dc, key).Some? && ValueAt(dc, key).value in list.value)
  {
    var r := AddFilter(q, key, list);
    if Constrains(list) && Matches(dc, q) && ValueAt(dc, key).Some? && ValueAt(dc, key).value in list.value {
      forall k | k in r ensures ValueAt(dc, k).Some? && ValueAt(dc, k).value in r[k].values {
        if k != key {
          assert k in q;
        }
      }
    }
  }

  /** With the corrected key, every filter matches exactly the records that
      meet all of its lists. */
  lemma IntendedFiltersMatch(dc: DataCenter, filters: QueryFilters)
    ensures Matches(dc, BuildQueryFiltersIntended(filters)) <==> MeetsFilters(dc, filters)
  {
    var q0: Query := map[];
    var q1 := AddFilter(q0, "country", filters.country);
    var q2 := AddFilter(q1, "name", filters.name);
    var q3 := AddFilter(q2, "type", filters.centerType);
    assert BuildQueryFiltersIntended(filters) == AddFilter(q3, "centerId", filters.centerId);
    MatchesAddFilter(dc, q0, "country", filters.country);
    MatchesAddFilter(dc, q1, "name", filters.name);
    MatchesAddFilter(dc, q2, "type", filters.centerType);
    MatchesAddFilter(dc, q3, "centerId", filters.centerId);
    assert ValueAt(dc, "country") == Some(dc.country);
    assert ValueAt(dc, "name") == Some(dc.name);
    assert ValueAt(dc, "type") == Some(dc.centerType);
    assert ValueAt(dc, "centerId") == Some(dc.centerId);
  }
}

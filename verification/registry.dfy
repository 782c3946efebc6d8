/** The registry's create/read/update/delete/search operations over an
    abstract store (src/service.ts:44-100).

    The document collection becomes a map from `centerId` to the stored
    record; the unique index on `centerId` becomes the invariant `Keyed`.
    Every operation is a pure function from a store to a new store and a
    result, and a thrown error becomes a `Failure` that leaves the store as
    it was.
 */
module Registry {
  import opened Errors
  import opened DataCenters
  import opened Queries

  /** The collection, keyed by `centerId`. */
  type Store = map<string, DataCenter>

  /** Every key is the `centerId` of its record. */
  predicate Keyed(s: Store)
  {
    forall id :: id in s ==> s[id].centerId == id
  }

  /** Keyed, and every stored record passed validation. */
  predicate Consistent(s: Store)
  {
    Keyed(s) && forall id :: id in s ==> Valid(s[id])
  }

  /** The store after an operation, and what the operation returned or
      rejected with. */
  datatype Response<T> = Response(store: Store, result: Result<T>)

  /** `s2` has the same entries as `s1` except possibly under `id`. */
  predicate SameElsewhere(s1: Store, s2: Store, id: string)
  {
    && s1.Keys - {id} == s2.Keys - {id}
    && forall k :: k in s1 && k != id ==> k in s2 && s2[k] == s1[k]
  }

  /** byId: the stored record, or NotFound. */
  function ById(s: Store, id: string): (r: Result<DataCenter>)
    ensures r == Failure(NotFound) <==> id !in s
    ensures r.Success? ==> id in s && r.value == s[id]
  {
    if id in s then Success(s[id]) else Failure(NotFound)
  }

  /** create: validate, then reject an existing `centerId`, then insert. */
  function Create(s: Store, dc: DataCenter): (r: Response<DataCenter>)
    ensures r.result.Failure? ==> r.store == s
    ensures !Valid(dc) ==> r.result == Failure(ValidateDataCenter(dc).error)
    ensures Valid(dc) && dc.centerId in s ==> r.result == Failure(StateConflict)
    ensures Valid(dc) && dc.centerId !in s ==>
              && r.result == Success(dc)
              && r.store.Keys == s.Keys + {dc.centerId}
              && r.store[dc.centerId] == dc
              && SameElsewhere(s, r.store, dc.centerId)
  {
    match ValidateDataCenter(dc)
    case Fail(e) => Response(s, Failure(e))
    case Pass =>
      if dc.centerId in s then Response(s, Failure(StateConflict))
      else Response(s[dc.centerId := dc], Success(dc))
  }

  /** deleteDc: NotFound when absent, otherwise remove that one entry. */
  function DeleteDc(s: Store, id: string): (r: Response<()>)
    ensures id !in s ==> r == Response(s, Failure(NotFound))
    ensures id in s ==> r.result.Success? && r.store.Keys == s.Keys - {id}
                        && SameElsewhere(s, r.store, id)
  {
    if id !in s then Response(s, Failure(NotFound))
    else Response(s - {id}, Success(()))
  }

  /** The assignments of update (src/service.ts:90-97): the eight non-key
      fields of `stored` replaced by those of `newDc`. */
  function Overwrite(stored: DataCenter, newDc: DataCenter): (r: DataCenter)
    ensures r.centerId == stored.centerId
    ensures forall f :: f != CenterId ==> Get(r, f) == Get(newDc, f)
  {
    stored.(
      country := newDc.country,
      name := newDc.name,
      centerType := newDc.centerType,
      contactEmail := newDc.contactEmail,
      storageType := newDc.storageType,
      organization := newDc.organization,
      songUrl := newDc.songUrl,
      scoreUrl := newDc.scoreUrl)
  }

  /** update: validate, then NotFound when absent, then overwrite the
      non-key fields of that one entry. */
  function Update(s: Store, newDc: DataCenter): (r: Response<DataCenter>)
    ensures r.result.Failure? ==> r.store == s
    ensures !Valid(newDc) ==> r.result == Failure(ValidateDataCenter(newDc).error)
    ensures Valid(newDc) && newDc.centerId !in s ==> r.result == Failure(NotFound)
    ensures Valid(newDc) && newDc.centerId in s ==>
              && r.result.Success?
              && r.store.Keys == s.Keys
              && r.store[newDc.centerId] == r.result.value
              && r.result.value.centerId == s[newDc.centerId].centerId
              && (forall f :: f != CenterId ==> Get(r.result.value, f) == Get(newDc, f))
              && SameElsewhere(s, r.store, newDc.centerId)
  {
    match ValidateDataCenter(newDc)
    case Fail(e) => Response(s, Failure(e))
    case Pass =>
      if newDc.centerId !in s then Response(s, Failure(NotFound))
      else
        var updated := Overwrite(s[newDc.centerId], newDc);
        Response(s[newDc.centerId := updated], Success(updated))
  }

  /** The records of `s` that match `q`, as the store's find returns them. */
  function Find(s: Store, q: Query): (r: set<DataCenter>)
    ensures forall dc :: dc in r <==> dc in s.Values && Matches(dc, q)
  {
    set id | id in s && Matches(s[id], q) :: s[id]
  }

  /** getMany: find with the translated filters (country under the key the
      source uses). */
  function GetMany(s: Store, filters: QueryFilters): (r: set<DataCenter>)
    ensures r <= s.Values
    ensures Constrains(filters.country) ==> r == {}
    ensures !Constrains(filters.country) ==>
              forall dc :: dc in r <==> dc in s.Values && MeetsFilters(dc, filters)
  {
    var r := Find(s, BuildQueryFilters(filters));
    if Constrains(filters.country) then
      assert forall dc :: dc in r ==> false by {
        forall dc | dc in r ensures false {
          CountryFilterMatchesNothing(dc, filters);
        }
      }
      r
    else
      assert forall dc :: Matches(dc, BuildQueryFilters(filters)) <==> MeetsFilters(dc, filters) by {
        forall dc ensures Matches(dc, BuildQueryFilters(filters)) <==> MeetsFilters(dc, filters) {
          FiltersWithoutCountryMatch(dc, filters);
        }
      }
      r
  }

  /** getMany with the country filter under "country": every filter selects
      exactly the stored records that meet all of its lists. */
  function GetManyIntended(s: Store, filters: QueryFilters): (r: set<DataCenter>)
    ensures forall dc :: dc in r <==> dc in s.Values && MeetsFilters(dc, filters)
  {
    var r := Find(s, BuildQueryFiltersIntended(filters));
    assert forall dc :: Matches(dc, BuildQueryFiltersIntended(filters)) <==> MeetsFilters(dc, filters) by {
      forall dc ensures Matches(dc, BuildQueryFiltersIntended(filters)) <==> MeetsFilters(dc, filters) {
        IntendedFiltersMatch(dc, filters);
      }
    }
    r
  }

  /** advSearchByQuery: reject a null query, otherwise hand it to find. */
  function AdvSearchByQuery(s: Store, query: Option<Query>): (r: Result<set<DataCenter>>)
    ensures query.None? <==> r == Failure(InvalidArgument("query"))
    ensures r.Success? ==> forall dc :: dc in r.value <==> dc in s.Values && Matches(dc, query.value)
  {
    match query
    case None => Failure(InvalidArgument("query"))
    case Some(q) => Success(Find(s, q))
  }

  // ---- Properties relating several operations ----

  /** Every operation keeps the store keyed by `centerId` and holding only
      valid records. */
  lemma OperationsPreserveConsistent(s: Store, dc: DataCenter, id: string)
    requires Consistent(s)
    ensures Consistent(Create(s, dc).store)
    ensures Consistent(Update(s, dc).store)
    ensures Consistent(DeleteDc(s, id).store)
  {
  }

  /** Reading back a freshly created record returns it unchanged. */
  lemma CreateThenById(s: Store, dc: DataCenter)
    requires Valid(dc) && dc.centerId !in s
    ensures ById(Create(s, dc).store, dc.centerId) == Success(dc)
  {
  }

  /** A create that fails validation writes nothing, even if the
      `centerId` is already taken: validation runs before the lookup. */
  lemma InvalidCreateIgnoresConflict(s: Store, dc: DataCenter)
    requires !Valid(dc) && dc.centerId in s
    ensures Create(s, dc) == Response(s, Failure(ValidateDataCenter(dc).error))
    ensures Create(s, dc).result.error.InvalidArgument?
  {
  }

  /** On a keyed store, a successful update stores exactly the new record,
      and reading it back returns it. */
  lemma UpdateThenById(s: Store, newDc: DataCenter)
    requires Keyed(s) && Valid(newDc) && newDc.centerId in s
    ensures Update(s, newDc).result == Success(newDc)
    ensures ById(Update(s, newDc).store, newDc.centerId) == Success(newDc)
  {
  }

  /** Deleting a created record restores the store it was created in. */
  lemma CreateThenDelete(s: Store, dc: DataCenter)
    requires Valid(dc) && dc.centerId !in s
    ensures DeleteDc(Create(s, dc).store, dc.centerId).store == s
  {
  }

  /** After a delete the id reads as NotFound, and a second delete rejects. */
  lemma DeleteThenById(s: Store, id: string)
    ensures ById(DeleteDc(s, id).store, id) == Failure(NotFound)
    ensures DeleteDc(DeleteDc(s, id).store, id).result == Failure(NotFound)
  {
  }

  /** The empty filter selects every stored record. */
  lemma GetManyNoFilters(s: Store)
    ensures GetMany(s, NoFilters) == s.Values
  {
  }

  /** A store holding one Canadian record: filtering on country "CA"
      returns nothing as written, and that record once the key is corrected. */
  lemma CountryFilterCounterexample()
    ensures var dc := DataCenter("c1", "CA", "n", "t", "o", "s", "e", "song", "score");
            && GetMany(map["c1" := dc], QueryFilters(Some(["CA"]), None, None, None)) == {}
            && GetManyIntended(map["c1" := dc], QueryFilters(Some(["CA"]), None, None, None)) == {dc}
  {
    var dc := DataCenter("c1", "CA", "n", "t", "o", "s", "e", "song", "score");
    var s := map["c1" := dc];
    var filters := QueryFilters(Some(["CA"]), None, None, None);
    assert MeetsFilters(dc, filters);
    assert s.Values == {dc} by {
      assert s["c1"] == dc;
      assert forall v :: v in s.Values ==> v == dc;
    }
  }
}

# Datacenter registry: a Dafny model

This project models the logic of the datacenter registry service. The service is a create/read/update/delete layer over a document collection of `DataCenter` records: nine required string fields, keyed by `centerId`. The model also covers the one-time migration that split a document's `url` into `songUrl` and `scoreUrl`.

Modules:

- `Errors` (`errors.dfy`): the `Result` type and the three error tags the service throws. These are `InvalidArgument`, `NotFound` and `StateConflict`. `InvalidArgument` names the missing field, or "query".
- `DataCenters` (`datacenter.dfy`): the record and the field order used by `validateDataCenter`. It also holds `docToPojo`, the projection of a stored document onto the record. A falsy string is `""`. The field `type` is called `centerType`, because `type` is a Dafny keyword. Its document and query key stays "type".
- `Queries` (`queries.dfy`): `buildQueryFilters`, and the meaning of the `$in` conditions it builds.
- `Registry` (`registry.dfy`): the collection becomes a `map<string, DataCenter>` keyed by `centerId`. Each operation is a pure function from a store to a new store plus a result or an error tag. The unique index on `centerId` becomes the invariant `Keyed`. `Consistent` adds that every stored record is valid, and all operations preserve it.
- `ScoreAndSongUrls` (`migration.dfy`): the migration's `up` takes a snapshot of the collection. It issues one `updateOne` per document with a truthy `url`, then applies those updates to the collection. When `_id`s are unique, `up` equals the per-document transform. It is also idempotent. `down` is the identity.

Two behaviours of the code shape the model:

- The country filter is built under the key `analysisId`, not `country`. As written, a country filter therefore matches no record (see Findings).
- `properties` values are never validated in the code. The `Properties` type is declared and nothing checks it, so the model has no such check.

## Model

| member | source | states |
|---|---|---|
| DataCenters.ValidateDataCenter | src/service.ts:102-137 | passes exactly when all nine fields are non-empty; otherwise rejects with InvalidArgument naming a field, and names field f exactly when f is empty and every field checked before it (centerId, country, name, type, organization, storageType, songUrl, scoreUrl, contactEmail) is not |
| DataCenters.DocToPojo | src/service.ts:204-216 | accepts any document; each record field of the result is the document's value under that field's key, or `""` (undefined) when the document lacks the key; a document holding all nine keys with non-empty values yields a valid record |
| DataCenters.ToDocument | src/service.ts:71 | the record part of the document built at line 71 holds exactly the nine record keys, each with the record's value for that field; the store adds `_id`, timestamps and `__v` beside them |
| DataCenters.DocToPojoOfSaved | src/service.ts:71-73 | projecting a saved record back gives the record itself, whatever keys the store adds |
| DataCenters.ToDocumentOfPojo | src/service.ts:204-216 | saving the projection of any document gives exactly the nine record keys, holding the document's values and `""` for the keys it lacks |
| Queries.AddFilter | src/service.ts:181-200 | one `if` of the translation: the key is added, holding `$in` over the list, exactly when the list is present and non-empty; all other conditions are kept |
| Queries.MatchesAddFilter | src/service.ts:181-200 | adding one filter to a query adds exactly one requirement: the record must hold one of the listed values under that key |
| Queries.BuildQueryFilters | src/service.ts:179-202 | a list yields a key exactly when it is present and non-empty; that key holds `$in` over exactly that list, under name/type/centerId, and under analysisId for country; no other keys, never "country" |
| Queries.BuildQueryFiltersSize | src/service.ts:179-202 | the query has at most four conditions, and the empty filter gives the empty query |
| Queries.CountryFilterMatchesNothing | src/service.ts:181-185 | as written, a non-empty country list makes the query match no record |
| Queries.FiltersWithoutCountryMatch | src/service.ts:186-200 | without a country list, a record matches exactly when its name, type and centerId are in their present, non-empty lists |
| Queries.BuildQueryFiltersIntended | src/service.ts:179-202 | corrected translation: country goes under "country"; the other keys are as written |
| Queries.IntendedFiltersMatch | src/service.ts:179-202 | with the corrected key, a record matches exactly when each field is in its present, non-empty list |
| Registry.ById | src/service.ts:57-63 | NotFound exactly when the id is absent; otherwise the stored record |
| Registry.Create | src/service.ts:65-74 | an invalid record is rejected with the validation error before any lookup; a valid record with a taken centerId gets StateConflict; every failure leaves the store unchanged; otherwise the store gains exactly that key with that record, the record is returned, and no other entry changes |
| Registry.DeleteDc | src/service.ts:76-82 | NotFound with the store unchanged when the id is absent; otherwise exactly that key is removed and every other entry is unchanged |
| Registry.Overwrite | src/service.ts:90-97 | keeps the stored centerId and takes the eight other fields from the new record |
| Registry.Update | src/service.ts:84-100 | validation error first, then NotFound for an absent centerId, and both leave the store unchanged; otherwise only that entry changes, its centerId is kept, its eight other fields are the new record's, and the stored entry is what is returned |
| Registry.Find | src/service.ts:48 | the result holds exactly the stored records that match the query |
| Registry.GetMany | src/service.ts:52-55 | results are stored records; a non-empty country list returns nothing; otherwise the result is exactly the stored records that meet the name, type and centerId lists |
| Registry.GetManyIntended | src/service.ts:52-55 | with the corrected key, the result is exactly the stored records that meet every present, non-empty list |
| Registry.AdvSearchByQuery | src/service.ts:44-50 | InvalidArgument exactly when the query is null; otherwise exactly the stored records matching the query |
| Registry.OperationsPreserveConsistent | src/service.ts:65-100 | create, update and delete keep every key equal to its record's centerId and every stored record valid |
| Registry.CreateThenById | src/service.ts:57-74 | reading back a freshly created record returns it unchanged |
| Registry.InvalidCreateIgnoresConflict | src/service.ts:65-70 | an invalid record with a taken centerId gets InvalidArgument, not StateConflict, and the store is unchanged |
| Registry.UpdateThenById | src/service.ts:84-100 | on a keyed store, a successful update returns and stores exactly the new record |
| Registry.CreateThenDelete | src/service.ts:65-82 | deleting a freshly created record restores the previous store |
| Registry.DeleteThenById | src/service.ts:57-82 | after a delete the id reads as NotFound, and a second delete is rejected with NotFound |
| Registry.GetManyNoFilters | src/service.ts:52-55 | the empty filter returns every stored record |
| Registry.CountryFilterCounterexample | src/service.ts:181-185 | for a store holding one record with country "CA", the country filter ["CA"] returns nothing as written and returns that record with the corrected key |
| ScoreAndSongUrls.SetUrls | migrations/20210805195658-scoreAndSongUrls.js:10-16 | the result has no `url`, has `songUrl` and `scoreUrl` both equal to the url, and every other field and the `_id` are unchanged |
| ScoreAndSongUrls.Transform | migrations/20210805195658-scoreAndSongUrls.js:9-16 | a document with no `url` or an empty one is left exactly as it was; any other document gets the url split |
| ScoreAndSongUrls.TransformAll | migrations/20210805195658-scoreAndSongUrls.js:7-18 | the reference for `up`: the same number of documents, each transformed on its own |
| ScoreAndSongUrls.Issued | migrations/20210805195658-scoreAndSongUrls.js:10-15 | the update for a document with a truthy url selects that document's `_id` and carries its non-empty url |
| ScoreAndSongUrls.UpdateFor | migrations/20210805195658-scoreAndSongUrls.js:8-17 | a document yields one update exactly when its `url` is truthy, and that update is `Issued` for it; otherwise none |
| ScoreAndSongUrls.UrlPositions | migrations/20210805195658-scoreAndSongUrls.js:7-9 | lists, in increasing order, exactly the positions of the documents whose `url` is truthy |
| ScoreAndSongUrls.Operations | migrations/20210805195658-scoreAndSongUrls.js:7-18 | never issues more updates than there are documents |
| ScoreAndSongUrls.OperationsAreUrlUpdates | migrations/20210805195658-scoreAndSongUrls.js:7-18 | the issued updates are, in snapshot order, exactly one per document with a truthy `url`, with that document's `_id` and url, and nothing else |
| ScoreAndSongUrls.IndexOfId | migrations/20210805195658-scoreAndSongUrls.js:10-11 | finds the first document with the given `_id`, or reports that there is none |
| ScoreAndSongUrls.ApplyUpdate | migrations/20210805195658-scoreAndSongUrls.js:10-16 | the count and the `_id`s are kept; with no document matching the `_id` filter the collection is unchanged; otherwise the first matching document gets both urls set and `url` removed, and every other document is untouched |
| ScoreAndSongUrls.ApplyAll | migrations/20210805195658-scoreAndSongUrls.js:19 | applying any list of updates keeps the count and the `_id`s in place |
| ScoreAndSongUrls.Up | migrations/20210805195658-scoreAndSongUrls.js:2-20 | the collection keeps the same count and the same `_id`s in the same positions |
| ScoreAndSongUrls.UpPrefix | migrations/20210805195658-scoreAndSongUrls.js:7-19 | with unique `_id`s, the updates issued for the first k documents transform exactly those k documents and leave the rest as they were |
| ScoreAndSongUrls.UpIsPointwise | migrations/20210805195658-scoreAndSongUrls.js:2-20 | with unique `_id`s, up equals transforming every document independently |
| ScoreAndSongUrls.TransformIdempotent | migrations/20210805195658-scoreAndSongUrls.js:9-14 | transforming a document twice is the same as transforming it once |
| ScoreAndSongUrls.UpIdempotent | migrations/20210805195658-scoreAndSongUrls.js:2-20 | with unique `_id`s, running up again changes nothing, and the `_id`s stay unique |
| ScoreAndSongUrls.Down | migrations/20210805195658-scoreAndSongUrls.js:22-24 | down returns the collection it is given |
| ScoreAndSongUrls.DownIsIdentity | migrations/20210805195658-scoreAndSongUrls.js:22-24 | down after up leaves the migrated collection as it is: there is no rollback |
| ScoreAndSongUrls.SplitExample | migrations/20210805195658-scoreAndSongUrls.js:9-14 | a document with `url: "https://x"` becomes one with `songUrl` and `scoreUrl` both "https://x" and no `url` |

## Left out

- The storage schema, model and connection (src/service.ts:164-177, 219) are not modelled. Their `unique` and `required` constraints appear only as the `Keyed` and `Consistent` invariants.
- Timestamps, the optimistic-concurrency revision check, and the async/`Promise` plumbing are not modelled. They are handled by the storage layer and have no sequential meaning. This also leaves out the race between the existence lookup and the write.
- Storage errors (connectivity, constraint violations) are not modelled. The code propagates them unchanged.
- Validation of `properties` values is not modelled. The code declares the `Properties` type (src/service.ts:23) but never checks it.
- Error message texts are not modelled, beyond the field named by InvalidArgument. The `Error` subclass machinery is not modelled either.
- AdvSearchByQuery: the store's general query language is not modelled. A query is a conjunction of `$in` conditions, the only shape `buildQueryFilters` produces. Beyond that, only the null check is the service's own logic. Conditions on the keys the store adds (`_id`, `createdAt`, `updatedAt`, `__v`, src/service.ts:176) are not modelled: such a condition matches no record here.
- GetMany: returns a set of records. The order of the driver's result array is not modelled.
- ScoreAndSongUrls.Up: the migrated collection is a parameter, a sequence of documents. It is not linked to the registry's `Store`. The migration addresses the collection `Datacenter` (migrations/20210805195658-scoreAndSongUrls.js:4, 10). The service registers its model as `Datacenter` with no explicit collection name (src/service.ts:176, 219), and the storage library's default collection name for that would be `datacenters`. If so, the migration rewrites a collection the service never reads. This is a possible defect, not verified: a global setting elsewhere in the application, such as `mongoose.pluralize(null)`, would make the two names agree. It is therefore not modelled.
- ScoreAndSongUrls.Transform: document values are strings, and `""` is the only falsy `url`. Non-string `url` values are not modelled.
- ScoreAndSongUrls.Up: the updates that `Promise.all` runs concurrently are applied one after another, in issue order. With unique `_id`s each update targets a different document, so the order does not matter.

## Findings

| source | as written | input that shows it | evidently intended | confidence | as-written member | corrected member |
|---|---|---|---|---|---|---|
| src/service.ts:181-185 | the country list becomes `analysisId: { $in: country }`, and records have no `analysisId` field | `getMany({ country: ["CA"] })` on a store holding one record with country "CA" returns no record | `country: { $in: country }`, selecting the records whose country is in the list | high (not executed) | Queries.CountryFilterMatchesNothing | Queries.IntendedFiltersMatch |

The counterexample is `Registry.CountryFilterCounterexample`. `Registry.GetMany` keeps the as-written key, because that is what the service does. `Registry.GetManyIntended` uses the corrected translation.

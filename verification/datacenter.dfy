/** The `DataCenter` record, its required-field validation, and the projection
    of a stored document onto the record (src/service.ts:25-35, 102-137, 204-216).

    JavaScript falsiness of a string field is the empty string: a missing
    field (`undefined`) and `""` are both written `""` here.
 */
module DataCenters {
  import opened Errors

  /** The nine required string fields. `type` is a Dafny keyword, so the
      record field is called `centerType`; its document key stays "type". */
  datatype DataCenter = DataCenter(
    centerId: string,
    country: string,
    name: string,
    centerType: string,
    organization: string,
    storageType: string,
    contactEmail: string,
    songUrl: string,
    scoreUrl: string)

  /** One constructor per field of `DataCenter`. */
  datatype Field =
    | CenterId | Country | Name | Type | Organization
    | StorageType | ContactEmail | SongUrl | ScoreUrl

  /** The value of field `f` of `dc`. */
  function Get(dc: DataCenter, f: Field): string
  {
    match f
    case CenterId => dc.centerId
    case Country => dc.country
    case Name => dc.name
    case Type => dc.centerType
    case Organization => dc.organization
    case StorageType => dc.storageType
    case ContactEmail => dc.contactEmail
    case SongUrl => dc.songUrl
    case ScoreUrl => dc.scoreUrl
  }

  /** The key under which field `f` is stored in a document and queried. */
  function FieldName(f: Field): string
  {
    match f
    case CenterId => "centerId"
    case Country => "country"
    case Name => "name"
    case Type => "type"
    case Organization => "organization"
    case StorageType => "storageType"
    case ContactEmail => "contactEmail"
    case SongUrl => "songUrl"
    case ScoreUrl => "scoreUrl"
  }

  /** The field stored under document key `key`, if the record has one. */
  function ParseField(key: string): (r: Option<Field>)
    ensures r.Some? ==> FieldName(r.value) == key
    ensures forall f :: FieldName(f) == key ==> r == Some(f)
  {
    if key == "centerId" then Some(CenterId)
    else if key == "country" then Some(Country)
    else if key == "name" then Some(Name)
    else if key == "type" then Some(Type)
    else if key == "organization" then Some(Organization)
    else if key == "storageType" then Some(StorageType)
    else if key == "contactEmail" then Some(ContactEmail)
    else if key == "songUrl" then Some(SongUrl)
    else if key == "scoreUrl" then Some(ScoreUrl)
    else None
  }

  /** The order in which the validator inspects the fields (src/service.ts:103-135). */
  const RequiredOrder: seq<Field> :=
    [CenterId, Country, Name, Type, Organization, StorageType, SongUrl, ScoreUrl, ContactEmail]

  /** The position of `f` in `RequiredOrder`. */
  function Rank(f: Field): (i: nat)
    ensures i < |RequiredOrder| && RequiredOrder[i] == f
  {
    match f
    case CenterId => 0
    case Country => 1
    case Name => 2
    case Type => 3
    case Organization => 4
    case StorageType => 5
    case SongUrl => 6
    case ScoreUrl => 7
    case ContactEmail => 8
  }

  /** JavaScript truthiness of a string. */
  predicate Truthy(s: string)
  {
    s != ""
  }

  /** Every required field is present and non-empty. */
  predicate Valid(dc: DataCenter)
  {
    forall f :: Truthy(Get(dc, f))
  }

  /** `f` is empty, and every field the validator inspects before `f` is not. */
  predicate IsFirstMissing(dc: DataCenter, f: Field)
  {
    && !Truthy(Get(dc, f))
    && forall g :: Rank(g) < Rank(f) ==> Truthy(Get(dc, g))
  }

  /** validateDataCenter: reject on the first falsy field, in source order,
      naming that field; pass when all nine are truthy. */
  function ValidateDataCenter(dc: DataCenter): (r: Outcome)
    ensures r.Pass? <==> Valid(dc)
    ensures r.Fail? ==> r.error.InvalidArgument? && ParseField(r.error.subject).Some?
    ensures forall f :: r == Fail(InvalidArgument(FieldName(f))) <==> IsFirstMissing(dc, f)
  {
    if !Truthy(Get(dc, CenterId)) then Fail(InvalidArgument(FieldName(CenterId)))
    else if !Truthy(Get(dc, Country)) then Fail(InvalidArgument(FieldName(Country)))
    else if !Truthy(Get(dc, Name)) then Fail(InvalidArgument(FieldName(Name)))
    else if !Truthy(Get(dc, Type)) then Fail(InvalidArgument(FieldName(Type)))
    else if !Truthy(Get(dc, Organization)) then Fail(InvalidArgument(FieldName(Organization)))
    else if !Truthy(Get(dc, StorageType)) then Fail(InvalidArgument(FieldName(StorageType)))
    else if !Truthy(Get(dc, SongUrl)) then Fail(InvalidArgument(FieldName(SongUrl)))
    else if !Truthy(Get(dc, ScoreUrl)) then Fail(InvalidArgument(FieldName(ScoreUrl)))
    else if !Truthy(Get(dc, ContactEmail)) then Fail(InvalidArgument(FieldName(ContactEmail)))
    else Pass
  }

  /** A stored document: the record's fields under their keys, next to
      whatever else the store keeps (`_id`, timestamps, version). */
  type Document = map<string, string>

  /** The document holds a value under every record key, as the
      `DataCenterDocument` type promises. */
  predicate HasAllFields(d: Document)
  {
    forall f :: FieldName(f) in d
  }

  /** The value a document holds under `key`; a missing key reads as
      `undefined`, written `""`. */
  function Read(d: Document, key: string): string
  {
    if key in d then d[key] else ""
  }

  /** docToPojo: copy exactly the nine record fields out of a document. A
      document that lacks a record key (one the url migration left without
      `songUrl`, say) yields that field as `undefined`. */
  function DocToPojo(d: Document): (dc: DataCenter)
    ensures forall f :: FieldName(f) in d ==> Get(dc, f) == d[FieldName(f)]
    ensures forall f :: FieldName(f) !in d ==> Get(dc, f) == ""
    ensures (forall f :: FieldName(f) in d && Truthy(d[FieldName(f)])) ==> Valid(dc)
  {
    DataCenter(
      centerId := Read(d, FieldName(CenterId)),
      country := Read(d, FieldName(Country)),
      name := Read(d, FieldName(Name)),
      centerType := Read(d, FieldName(Type)),
      organization := Read(d, FieldName(Organization)),
      storageType := Read(d, FieldName(StorageType)),
      contactEmail := Read(d, FieldName(ContactEmail)),
      songUrl := Read(d, FieldName(SongUrl)),
      scoreUrl := Read(d, FieldName(ScoreUrl)))
  }

  /** The document a record is saved as, before the store adds its own keys. */
  function ToDocument(dc: DataCenter): (d: Document)
    ensures HasAllFields(d)
    ensures forall f :: d[FieldName(f)] == Get(dc, f)
    ensures forall key :: key in d ==> ParseField(key).Some?
  {
    map[
      "centerId" := dc.centerId,
      "country" := dc.country,
      "name" := dc.name,
      "type" := dc.centerType,
      "organization" := dc.organization,
      "storageType" := dc.storageType,
      "contactEmail" := dc.contactEmail,
      "songUrl" := dc.songUrl,
      "scoreUrl" := dc.scoreUrl]
  }

  /** Saving a record and projecting it back, with any store-added keys,
      gives back the record. */
  lemma DocToPojoOfSaved(dc: DataCenter, extra: Document)
    ensures DocToPojo(extra + ToDocument(dc)) == dc
  {
  }

  /** Projecting a document and saving the projection keeps exactly the
      record keys, with the document's values, and `""` for the keys the
      document lacks. */
  lemma ToDocumentOfPojo(d: Document)
    ensures forall key :: key in ToDocument(DocToPojo(d)) <==> ParseField(key).Some?
    ensures forall key :: key in ToDocument(DocToPojo(d)) ==> ToDocument(DocToPojo(d))[key] == Read(d, key)
  {
    var dc := DocToPojo(d);
    var saved := ToDocument(dc);
    forall key ensures key in saved <==> ParseField(key).Some? {
      if ParseField(key).Some? {
        assert FieldName(ParseField(key).value) in saved;
      }
    }
    forall key | key in saved ensures saved[key] == Read(d, key) {
      assert saved[FieldName(ParseField(key).value)] == Get(dc, ParseField(key).value);
    }
  }
}

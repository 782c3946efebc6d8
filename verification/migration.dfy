/** The data migration that split the single `url` field of a datacenter
    document into `songUrl` and `scoreUrl`
    (migrations/20210805195658-scoreAndSongUrls.js:1-25).

    `up` reads every document of the collection, issues one `updateOne` per
    document whose `url` is truthy, and waits for all of them. The updates
    run concurrently in the source; here they are applied one after another
    in the order they were issued, which gives the same collection because
    each targets a different `_id`.
 */
module ScoreAndSongUrls {

  /** A document of the collection as the migration sees it: its `_id`, and
      its other fields by name. Field values are strings, `""` being the
      falsy one. The `_id` is held apart from `fields` because the updates
      select by it and never change it. */
  datatype MigrationDoc = MigrationDoc(id: string, fields: map<string, string>)

  /** `datacenter.url` is truthy. */
  predicate HasUrl(d: MigrationDoc)
  {
    "url" in d.fields && d.fields["url"] != ""
  }

  /** No two documents share an `_id`, as the store guarantees. */
  predicate UniqueIds(coll: seq<MigrationDoc>)
  {
    forall i, j :: 0 <= i < j < |coll| ==> coll[i].id != coll[j].id
  }

  /** `$set: { songUrl: url, scoreUrl: url }, $unset: { url: 1 }` on one document. */
  function SetUrls(d: MigrationDoc, url: string): (r: MigrationDoc)
    ensures r.id == d.id
    ensures "url" !in r.fields
    ensures "songUrl" in r.fields && r.fields["songUrl"] == url
    ensures "scoreUrl" in r.fields && r.fields["scoreUrl"] == url
    ensures forall k :: k != "url" && k != "songUrl" && k != "scoreUrl" ==>
              (k in r.fields <==> k in d.fields) && (k in r.fields ==> r.fields[k] == d.fields[k])
  {
    d.(fields := (d.fields - {"url"})["songUrl" := url]["scoreUrl" := url])
  }

  /** What `up` does to one document, on its own. */
  function Transform(d: MigrationDoc): (r: MigrationDoc)
    ensures !HasUrl(d) ==> r == d
    ensures HasUrl(d) ==> r == SetUrls(d, d.fields["url"])
  {
    if HasUrl(d) then SetUrls(d, d.fields["url"]) else d
  }

  /** `up` applied to every document independently. */
  function TransformAll(coll: seq<MigrationDoc>): (r: seq<MigrationDoc>)
    ensures |r| == |coll|
    ensures forall i :: 0 <= i < |coll| ==> r[i] == Transform(coll[i])
  {
    seq(|coll|, i requires 0 <= i < |coll| => Transform(coll[i]))
  }

  /** The arguments of one `updateOne` call: the `_id` filter and the url. */
  datatype UpdateOne = UpdateOne(id: string, url: string)

  /** The update that moves the truthy `url` of `d`: select `d` by its `_id`. */
  function Issued(d: MigrationDoc): (op: UpdateOne)
    requires HasUrl(d)
    ensures op.id == d.id && op.url == d.fields["url"] && op.url != ""
  {
    UpdateOne(d.id, d.fields["url"])
  }

  /** The update issued for one document: one when its `url` is truthy, none otherwise. */
  function UpdateFor(d: MigrationDoc): (ops: seq<UpdateOne>)
    ensures |ops| <= 1
    ensures |ops| == 1 <==> HasUrl(d)
    ensures |ops| == 1 ==> ops[0] == Issued(d)
  {
    if HasUrl(d) then [Issued(d)] else []
  }

  /** The positions of the documents whose `url` is truthy, in increasing order. */
  function UrlPositions(docs: seq<MigrationDoc>): (p: seq<nat>)
    ensures forall j :: 0 <= j < |p| ==> p[j] < |docs| && HasUrl(docs[p[j]])
    ensures forall i :: 0 <= i < |docs| && HasUrl(docs[i]) ==> i in p
    ensures forall j, k :: 0 <= j < k < |p| ==> p[j] < p[k]
    decreases |docs|
  {
    if |docs| == 0 then []
    else
      var pre := docs[..|docs| - 1];
      assert forall i :: 0 <= i < |pre| ==> pre[i] == docs[i];
      UrlPositions(pre) + (if HasUrl(docs[|docs| - 1]) then [|docs| - 1] else [])
  }

  /** The updates `up` issues for a snapshot, in snapshot order. */
  function Operations(docs: seq<MigrationDoc>): (ops: seq<UpdateOne>)
    ensures |ops| <= |docs|
    decreases |docs|
  {
    if |docs| == 0 then []
    else Operations(docs[..|docs| - 1]) + UpdateFor(docs[|docs| - 1])
  }

  /** up issues one update per document with a truthy `url`, taken in
      snapshot order, and no other. */
  lemma {:induction false} OperationsAreUrlUpdates(docs: seq<MigrationDoc>)
    ensures |Operations(docs)| == |UrlPositions(docs)|
    ensures forall j :: 0 <= j < |Operations(docs)| ==>
              Operations(docs)[j] == Issued(docs[UrlPositions(docs)[j]])
    decreases |docs|
  {
    if |docs| > 0 {
      var pre := docs[..|docs| - 1];
      OperationsAreUrlUpdates(pre);
      assert forall i :: 0 <= i < |pre| ==> pre[i] == docs[i];
    }
  }

  /** The position of the first document with `_id == id`, or `|coll|` when there is none. */
  function IndexOfId(coll: seq<MigrationDoc>, id: string): (i: nat)
    ensures i <= |coll|
    ensures i < |coll| ==> coll[i].id == id
    ensures forall j :: 0 <= j < |coll| && coll[j].id == id ==> i <= j
    decreases |coll|
  {
    if |coll| == 0 then 0
    else if coll[0].id == id then 0
    else 1 + IndexOfId(coll[1..], id)
  }

  /** `updateOne({ _id: id }, …)`: the first document with that `_id` gets
      the new urls; every other document is untouched. */
  function ApplyUpdate(coll: seq<MigrationDoc>, op: UpdateOne): (r: seq<MigrationDoc>)
    ensures |r| == |coll|
    ensures forall j :: 0 <= j < |coll| ==> r[j].id == coll[j].id
    ensures forall j :: 0 <= j < |coll| && coll[j].id != op.id ==> r[j] == coll[j]
    ensures IndexOfId(coll, op.id) == |coll| ==> r == coll
    ensures IndexOfId(coll, op.id) < |coll| ==>
              r[IndexOfId(coll, op.id)] == SetUrls(coll[IndexOfId(coll, op.id)], op.url)
    ensures forall j :: IndexOfId(coll, op.id) < j < |coll| ==> r[j] == coll[j]
  {
    var i := IndexOfId(coll, op.id);
    if i == |coll| then coll else coll[i := SetUrls(coll[i], op.url)]
  }

  /** The updates applied in issue order. */
  function ApplyAll(coll: seq<MigrationDoc>, ops: seq<UpdateOne>): (r: seq<MigrationDoc>)
    ensures |r| == |coll|
    ensures forall j :: 0 <= j < |coll| ==> r[j].id == coll[j].id
    decreases |ops|
  {
    if |ops| == 0 then coll
    else ApplyUpdate(ApplyAll(coll, ops[..|ops| - 1]), ops[|ops| - 1])
  }

  /** up: snapshot the collection, issue the updates, apply them all. */
  function Up(coll: seq<MigrationDoc>): (r: seq<MigrationDoc>)
    ensures |r| == |coll|
    ensures forall j :: 0 <= j < |coll| ==> r[j].id == coll[j].id
  {
    ApplyAll(coll, Operations(coll))
  }

  /** down: there is no state to roll back to. */
  function Down(coll: seq<MigrationDoc>): (r: seq<MigrationDoc>)
    ensures r == coll
  {
    coll
  }

  /** The collection once the first `k` documents are migrated. */
  function Staged(coll: seq<MigrationDoc>, k: nat): (r: seq<MigrationDoc>)
    requires k <= |coll|
    ensures |r| == |coll|
    ensures forall j :: 0 <= j < k ==> r[j] == Transform(coll[j])
    ensures forall j :: k <= j < |coll| ==> r[j] == coll[j]
  {
    TransformAll(coll[..k]) + coll[k..]
  }

  /** Applying the updates for one more document appends its update. */
  lemma ApplyAllStep(coll: seq<MigrationDoc>, ops: seq<UpdateOne>, d: MigrationDoc)
    ensures ApplyAll(coll, ops + UpdateFor(d))
         == if HasUrl(d) then ApplyUpdate(ApplyAll(coll, ops), Issued(d))
            else ApplyAll(coll, ops)
  {
    var all := ops + UpdateFor(d);
    if HasUrl(d) {
      assert all[..|all| - 1] == ops;
    } else {
      assert all == ops;
    }
  }

  /** The update for document `k` takes stage `k` to stage `k + 1`. */
  lemma StagedStep(coll: seq<MigrationDoc>, k: nat)
    requires UniqueIds(coll) && k < |coll|
    ensures HasUrl(coll[k]) ==>
              ApplyUpdate(Staged(coll, k), Issued(coll[k]))
              == Staged(coll, k + 1)
    ensures !HasUrl(coll[k]) ==> Staged(coll, k) == Staged(coll, k + 1)
  {
  }

  /** The updates for a prefix one longer add the update for its last document. */
  lemma OperationsStep(coll: seq<MigrationDoc>, k: nat)
    requires 0 < k <= |coll|
    ensures Operations(coll[..k]) == Operations(coll[..k - 1]) + UpdateFor(coll[k - 1])
  {
    assert coll[..k][..k - 1] == coll[..k - 1];
  }

  /** The updates for document `k - 1` take stage `k - 1` to stage `k`. */
  lemma UpPrefixStep(coll: seq<MigrationDoc>, k: nat)
    requires UniqueIds(coll) && 0 < k <= |coll|
    requires ApplyAll(coll, Operations(coll[..k - 1])) == Staged(coll, k - 1)
    ensures ApplyAll(coll, Operations(coll[..k])) == Staged(coll, k)
  {
    var pre := Operations(coll[..k - 1]);
    var d := coll[k - 1];
    OperationsStep(coll, k);
    ApplyAllStep(coll, pre, d);
    StagedStep(coll, k - 1);
  }

  /** After the updates issued for the first `k` documents, exactly those
      `k` documents are transformed and the rest are as they were. */
  lemma {:induction false} UpPrefix(coll: seq<MigrationDoc>, k: nat)
    requires UniqueIds(coll) && k <= |coll|
    ensures ApplyAll(coll, Operations(coll[..k])) == Staged(coll, k)
  {
    if k == 0 {
      assert coll[..0] == [];
      assert Staged(coll, 0) == coll;
    } else {
      UpPrefix(coll, k - 1);
      UpPrefixStep(coll, k);
    }
  }

  /** up transforms each document on its own: the result is the pointwise
      transform of the collection, same documents, same order, same count. */
  lemma UpIsPointwise(coll: seq<MigrationDoc>)
    requires UniqueIds(coll)
    ensures Up(coll) == TransformAll(coll)
  {
    UpPrefix(coll, |coll|);
    assert coll[..|coll|] == coll;
  }

  /** Transforming a document twice is transforming it once: its `url` is gone. */
  lemma TransformIdempotent(d: MigrationDoc)
    ensures Transform(Transform(d)) == Transform(d)
  {
  }

  /** Running up a second time changes nothing. */
  lemma UpIdempotent(coll: seq<MigrationDoc>)
    requires UniqueIds(coll)
    ensures UniqueIds(Up(coll))
    ensures Up(Up(coll)) == Up(coll)
  {
    UpIsPointwise(coll);
    var once := Up(coll);
    UpIsPointwise(once);
    forall i | 0 <= i < |coll| ensures Transform(once[i]) == once[i] {
      TransformIdempotent(coll[i]);
    }
  }

  /** down leaves the collection, migrated or not, as it is. */
  lemma DownIsIdentity(coll: seq<MigrationDoc>)
    ensures Down(Up(coll)) == Up(coll)
  {
  }

  /** A sample document: a single `url` becomes
      equal `songUrl` and `scoreUrl`, and `url` disappears. */
  lemma SplitExample()
    ensures Up([MigrationDoc("a", map["url" := "https://x"])])
         == [MigrationDoc("a", map["songUrl" := "https://x", "scoreUrl" := "https://x"])]
  {
    var coll := [MigrationDoc("a", map["url" := "https://x"])];
    UpIsPointwise(coll);
    assert (map["url" := "https://x"] - {"url"}) == map[];
  }
}

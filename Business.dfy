/**
 * The per-upload payload object of src/domain/business/document.rs: a JSON
 * object built from the validated upload, extended in place by merges and
 * copied out once per chunk.
 */
module Business {
  import opened Strings
  import opened Json
  import opened Generally
  import opened Transformer

  /** The fixed fields every payload starts from. */
  function FixedFields(req: UploadDomainRequest): map<string, Json> {
    map[
      "fileuuid" := String(req.uuid),
      "filename" := String(req.name.name),
      "filedate" := String(req.date),
      "filehead" := String(req.head),
      "filehold" := String(req.hold),
      "filestem" := String(req.stem)]
  }

  /** The non-empty '/'-separated segments of the scope path. */
  function AreaTags(area: string): (tags: set<string>)
    ensures forall t :: t in tags ==> t != "" && '/' !in t
  {
    SplitSepFree(area, '/');
    set t | t in Split(area, '/') && t != ""
  }

  /** Each non-empty piece mapped to the JSON number 1. */
  function TagMap(pieces: seq<string>): (m: map<string, Json>)
    ensures forall t :: t in m ==> m[t] == Number(1)
  {
    map t | t in pieces && t != "" :: Number(1)
  }

  lemma TagMapSnoc(pieces: seq<string>, p: string)
    ensures TagMap(pieces + [p]) == if p != "" then TagMap(pieces)[p := Number(1)] else TagMap(pieces)
  {
    var m := TagMap(pieces + [p]);
    var n := if p != "" then TagMap(pieces)[p := Number(1)] else TagMap(pieces);
    assert m.Keys == n.Keys;
  }

  /** Writing a key after a union is writing it into the right-hand map. */
  lemma UpdateAfterUnion(a: map<string, Json>, b: map<string, Json>, k: string, v: Json)
    ensures (a + b)[k := v] == a + b[k := v]
  {
    assert ((a + b)[k := v]).Keys == (a + b[k := v]).Keys;
  }

  /**
   * The payload `Document::from` builds: the fixed fields, then each scope tag
   * set to 1 (written after the fixed fields, so a tag overrides a fixed key).
   */
  function InitialPayload(req: UploadDomainRequest): map<string, Json> {
    FixedFields(req) + TagMap(Split(req.area, '/'))
  }

  /** `Document::update`: an object's entries overwrite the payload's; anything else changes nothing. */
  function Merge(payload: map<string, Json>, v: Json): (r: map<string, Json>)
    ensures v.Object? ==> r.Keys == payload.Keys + v.fields.Keys
    ensures !v.Object? ==> r == payload
  {
    if v.Object? then payload + v.fields else payload
  }

  /** The `for_each` over the scope path's pieces: every non-empty piece is written as a key set to 1. */
  method SetTags(payload: map<string, Json>, pieces: seq<string>) returns (r: map<string, Json>)
    ensures r == payload + TagMap(pieces)
  {
    r := payload;
    ghost var tags: map<string, Json> := map[];
    assert TagMap(pieces[..0]) == tags;
    var i := 0;
    while i < |pieces|
      invariant 0 <= i <= |pieces|
      invariant tags == TagMap(pieces[..i])
      invariant r == payload + tags
    {
      var piece := pieces[i];
      assert pieces[..i + 1] == pieces[..i] + [piece];
      TagMapSnoc(pieces[..i], piece);
      if piece != "" {
        UpdateAfterUnion(payload, tags, piece, Number(1));
        r := r[piece := Number(1)];
        tags := tags[piece := Number(1)];
      }
      i := i + 1;
    }
    assert pieces[..i] == pieces;
  }

  class Document {
    /** The JSON object; `Document::from` always builds an object, so only its entries are kept. */
    var fields: map<string, Json>

    /** `From<UploadDomainRequest> for Document`. */
    constructor From(req: UploadDomainRequest)
      ensures fields == InitialPayload(req)
    {
      var payload := SetTags(FixedFields(req), Split(req.area, '/'));
      fields := payload;
    }

    /** `Document::update`. */
    method Update(v: Json)
      modifies this
      ensures fields == Merge(old(fields), v)
    {
      if v.Object? {
        fields := fields + v.fields;
      }
    }

    /** `Document::value`: a copy of the current payload. */
    function Value(): (r: Json)
      reads this
      ensures r.Object? && r.fields == fields
    {
      Object(fields)
    }
  }

  /** Every non-empty segment of the scope path is a key mapped to 1. */
  lemma AreaSegmentsAreTags(req: UploadDomainRequest, k: nat)
    requires k < |Split(req.area, '/')| && Split(req.area, '/')[k] != ""
    ensures Split(req.area, '/')[k] in InitialPayload(req)
    ensures InitialPayload(req)[Split(req.area, '/')[k]] == Number(1)
  {
  }

  /** Empty segments add nothing: the empty string is never a key. */
  lemma NoEmptyKey(req: UploadDomainRequest)
    ensures "" !in InitialPayload(req)
  {
  }

  /** The keys are the six fixed keys and the tags, and nothing else. */
  lemma InitialKeys(req: UploadDomainRequest)
    ensures InitialPayload(req).Keys
         == {"fileuuid", "filename", "filedate", "filehead", "filehold", "filestem"} + AreaTags(req.area)
  {
  }

  /** A fixed key keeps its upload field unless a tag of the same name overwrites it with 1. */
  lemma FixedFieldsKept(req: UploadDomainRequest, k: string)
    ensures k in FixedFields(req) && k !in AreaTags(req.area) ==> InitialPayload(req)[k] == FixedFields(req)[k]
    ensures k in AreaTags(req.area) ==> InitialPayload(req)[k] == Number(1)
  {
    assert TagMap(Split(req.area, '/')).Keys == AreaTags(req.area);
  }

  /** Merging the same value twice is merging it once. */
  lemma MergeIdempotent(payload: map<string, Json>, v: Json)
    ensures Merge(Merge(payload, v), v) == Merge(payload, v)
  {
  }

  /** The merged object's entries win. */
  lemma MergeOverwrites(payload: map<string, Json>, v: Json, k: string)
    requires v.Object? && k in v.fields
    ensures k in Merge(payload, v) && Merge(payload, v)[k] == v.fields[k]
  {
  }

  /** A merge touches only the keys of the merged object. */
  lemma MergeKeepsOtherKeys(payload: map<string, Json>, v: Json, k: string)
    requires k in payload && (!v.Object? || k !in v.fields)
    ensures k in Merge(payload, v) && Merge(payload, v)[k] == payload[k]
  {
  }

  /** A copy taken by `value()` is not changed by later updates. */
  method SnapshotThenUpdate(d: Document, v: Json) returns (snapshot: Json, after: Json)
    modifies d
    ensures snapshot == Object(old(d.fields))
    ensures after == Object(Merge(old(d.fields), v))
  {
    snapshot := d.Value();
    d.Update(v);
    after := d.Value();
  }
}

/**
 * The vector-store layer of src/database/qdrant.rs: the in-memory payload
 * value and its conversion from the store's wire value, the distance
 * mapping, the filter builder, and the decisions the async wrappers make
 * around the client calls (missing result bodies, payload conversion
 * before an upsert).
 */
module Qdrant {
  import opened Wrappers
  import opened Json

  type u64 = x: int | 0 <= x < 0x1_0000_0000_0000_0000
  newtype i64 = x: int | -0x8000_0000_0000_0000 <= x < 0x8000_0000_0000_0000

  /** An `f64`, carried through by its bit pattern and never computed with. */
  datatype Double = Double(bits: bv64)
  /** An `f32`, likewise. */
  datatype Float = Float(bits: bv32)

  // ---------------------------------------------------------------- distance

  /** The crate's own distance choice. */
  datatype Distance = Cos | Dot | Euc | Man

  /** The store client's distance metric. */
  datatype Metric = Cosine | DotProduct | Euclid | Manhattan

  function DistanceInto(d: Distance): Metric {
    match d
    case Cos => Cosine
    case Dot => DotProduct
    case Euc => Euclid
    case Man => Manhattan
  }

  /** The four choices map to four different metrics, and every metric is reached. */
  lemma DistanceIntoBijective(a: Distance, b: Distance, m: Metric)
    ensures DistanceInto(a) == DistanceInto(b) <==> a == b
    ensures exists d :: DistanceInto(d) == m
  {
    match m
    case Cosine => assert DistanceInto(Cos) == m;
    case DotProduct => assert DistanceInto(Dot) == m;
    case Euclid => assert DistanceInto(Euc) == m;
    case Manhattan => assert DistanceInto(Man) == m;
  }

  // ----------------------------------------------------------- payload values

  /** The wire value's tagged kind. */
  datatype Kind =
    | NullValue
    | DoubleValue(d: Double)
    | IntegerValue(i: i64)
    | StringValue(s: string)
    | BoolValue(b: bool)
    | StructValue(fields: map<string, WireValue>)
    | ListValue(values: seq<WireValue>)

  /** The wire value: its kind may be absent. */
  datatype WireValue = WireValue(kind: Option<Kind>)

  /** The in-memory payload value. */
  datatype Value =
    | Not
    | F64(d: Double)
    | I64(i: i64)
    | Str(s: string)
    | Bool(b: bool)
    | List(items: seq<Value>)
    | Hash(entries: map<string, Value>)

  /** `From<qdrant::Value> for Value`. */
  function FromWire(w: WireValue): (v: Value)
    ensures w.kind == Some(NullValue) || w.kind == None ==> v == Not
    ensures w.kind.Some? && w.kind.value.DoubleValue? ==> v == F64(w.kind.value.d)
    ensures w.kind.Some? && w.kind.value.IntegerValue? ==> v == I64(w.kind.value.i)
    ensures w.kind.Some? && w.kind.value.StringValue? ==> v == Str(w.kind.value.s)
    ensures w.kind.Some? && w.kind.value.BoolValue? ==> v == Value.Bool(w.kind.value.b)
    ensures w.kind.Some? && w.kind.value.StructValue? ==> v.Hash? && v.entries.Keys == w.kind.value.fields.Keys
    ensures w.kind.Some? && w.kind.value.ListValue? ==> v.List? && |v.items| == |w.kind.value.values|
  {
    match w.kind
    case Some(DoubleValue(d)) => F64(d)
    case Some(IntegerValue(i)) => I64(i)
    case Some(StringValue(s)) => Str(s)
    case Some(BoolValue(b)) => Value.Bool(b)
    case Some(StructValue(fields)) => Hash(map k | k in fields :: FromWire(fields[k]))
    case Some(ListValue(values)) => List(seq(|values|, i requires 0 <= i < |values| => FromWire(values[i])))
    case _ => Not
  }

  /** A step into a nested value: a map key or a list position. */
  datatype Step = Key(key: string) | Index(index: nat)

  /** Every path to a nested value inside a wire value (the empty path is the value itself). */
  ghost function WirePaths(w: WireValue): set<seq<Step>> {
    {[]} +
    match w.kind
    case Some(StructValue(fields)) =>
      set k, p | k in fields && p in WirePaths(fields[k]) :: [Key(k)] + p
    case Some(ListValue(values)) =>
      set i, p | 0 <= i < |values| && p in WirePaths(values[i]) :: [Index(i)] + p
    case _ => {}
  }

  /** Every path to a nested value inside an in-memory value. */
  ghost function ValuePaths(v: Value): set<seq<Step>> {
    {[]} +
    match v
    case Hash(entries) =>
      set k, p | k in entries && p in ValuePaths(entries[k]) :: [Key(k)] + p
    case List(items) =>
      set i, p | 0 <= i < |items| && p in ValuePaths(items[i]) :: [Index(i)] + p
    case _ => {}
  }

  /** The conversion keeps every key and every list position at every depth: no field is dropped. */
  lemma {:induction false} FromWireKeepsPaths(w: WireValue)
    ensures ValuePaths(FromWire(w)) == WirePaths(w)
  {
    match w.kind {
      case Some(StructValue(fields)) =>
        forall k | k in fields ensures ValuePaths(FromWire(fields[k])) == WirePaths(fields[k]) {
          FromWireKeepsPaths(fields[k]);
        }
      case Some(ListValue(values)) =>
        forall i | 0 <= i < |values| ensures ValuePaths(FromWire(values[i])) == WirePaths(values[i]) {
          FromWireKeepsPaths(values[i]);
        }
      case _ =>
    }
  }

  /** A struct's entries are converted one by one, each under its own key. */
  lemma FromWireStruct(fields: map<string, WireValue>, k: string)
    requires k in fields
    ensures FromWire(WireValue(Some(StructValue(fields)))).entries[k] == FromWire(fields[k])
  {
  }

  /** A list keeps its order: element i is the conversion of wire element i. */
  lemma FromWireList(values: seq<WireValue>, i: nat)
    requires i < |values|
    ensures FromWire(WireValue(Some(ListValue(values)))).items[i] == FromWire(values[i])
  {
  }

  /** A payload as the client returns it, converted entry by entry. */
  function PayloadFromWire(payload: map<string, WireValue>): (r: map<string, Value>)
    ensures r.Keys == payload.Keys
    ensures forall k :: k in payload ==> r[k] == FromWire(payload[k])
  {
    map k | k in payload :: FromWire(payload[k])
  }

  /** `async_get_points_with_payload`'s mapping: one converted payload per returned point, in order. */
  function PayloadsFromWire(results: seq<map<string, WireValue>>): (r: seq<map<string, Value>>)
    ensures |r| == |results|
    ensures forall i :: 0 <= i < |results| ==> r[i] == PayloadFromWire(results[i])
  {
    seq(|results|, i requires 0 <= i < |results| => PayloadFromWire(results[i]))
  }

  /** `async_search_points`'s mapping: each score kept beside its converted payload, in the client's order. */
  function ScoredFromWire(results: seq<(Float, map<string, WireValue>)>): (r: seq<(Float, map<string, Value>)>)
    ensures |r| == |results|
    ensures forall i :: 0 <= i < |results| ==> r[i].0 == results[i].0 && r[i].1 == PayloadFromWire(results[i].1)
  {
    seq(|results|, i requires 0 <= i < |results| => (results[i].0, PayloadFromWire(results[i].1)))
  }

  // ------------------------------------------------------------------ filter

  /** A filter condition of the store client, kept opaque. */
  datatype Condition = Condition(encoded: string)

  /** "At least `minCount` of these conditions". */
  datatype MinShould = MinShould(conditions: seq<Condition>, minCount: u64)

  datatype Filter = Filter(
    must: seq<Condition>, mustNot: seq<Condition>, should: seq<Condition>, minShould: Option<MinShould>)

  /** `Filter::new`: no clause set. */
  function NewFilter(): (f: Filter)
    ensures f.must == [] && f.mustNot == [] && f.should == [] && f.minShould == None
  {
    Filter([], [], [], None)
  }

  function MustFilter(f: Filter, must: seq<Condition>): (r: Filter)
    ensures r.must == must && r.mustNot == f.mustNot && r.should == f.should && r.minShould == f.minShould
  {
    f.(must := must)
  }

  function MustNotFilter(f: Filter, mustNot: seq<Condition>): (r: Filter)
    ensures r.mustNot == mustNot && r.must == f.must && r.should == f.should && r.minShould == f.minShould
  {
    f.(mustNot := mustNot)
  }

  function ShouldFilter(f: Filter, should: seq<Condition>): (r: Filter)
    ensures r.should == should && r.must == f.must && r.mustNot == f.mustNot && r.minShould == f.minShould
  {
    f.(should := should)
  }

  function MinShouldFilter(f: Filter, minShould: Option<MinShould>): (r: Filter)
    ensures r.minShould == minShould && r.must == f.must && r.mustNot == f.mustNot && r.should == f.should
  {
    f.(minShould := minShould)
  }

  /** A later setter of the same clause overwrites the earlier one. */
  lemma SetterOverwrites(f: Filter, a: seq<Condition>, b: seq<Condition>, m: Option<MinShould>, n: Option<MinShould>)
    ensures MustFilter(MustFilter(f, a), b) == MustFilter(f, b)
    ensures MustNotFilter(MustNotFilter(f, a), b) == MustNotFilter(f, b)
    ensures ShouldFilter(ShouldFilter(f, a), b) == ShouldFilter(f, b)
    ensures MinShouldFilter(MinShouldFilter(f, m), n) == MinShouldFilter(f, n)
  {
  }

  /** Setters of different clauses commute, so the order of building does not matter. */
  lemma SettersCommute(f: Filter, a: seq<Condition>, b: seq<Condition>, c: seq<Condition>, m: Option<MinShould>)
    ensures MustNotFilter(MustFilter(f, a), b) == MustFilter(MustNotFilter(f, b), a)
    ensures ShouldFilter(MustFilter(f, a), c) == MustFilter(ShouldFilter(f, c), a)
    ensures MinShouldFilter(MustFilter(f, a), m) == MustFilter(MinShouldFilter(f, m), a)
    ensures ShouldFilter(MustNotFilter(f, b), c) == MustNotFilter(ShouldFilter(f, c), b)
    ensures MinShouldFilter(MustNotFilter(f, b), m) == MustNotFilter(MinShouldFilter(f, m), b)
    ensures MinShouldFilter(ShouldFilter(f, c), m) == ShouldFilter(MinShouldFilter(f, m), c)
  {
  }

  /** Any filter is the empty filter with its four clauses set. */
  lemma FilterFromNew(f: Filter)
    ensures MinShouldFilter(ShouldFilter(MustNotFilter(MustFilter(NewFilter(), f.must), f.mustNot), f.should), f.minShould) == f
  {
  }

  // -------------------------------------------------------- client wrappers

  /** Status codes the wrappers produce themselves; the others come from the client. */
  datatype Code = Internal | OtherCode(value: int)
  datatype Status = Status(code: Code, message: string)

  datatype QdrantError =
    | ResponseError(status: Status)
    | JsonToPayload(value: Json)   // a payload that is not a JSON object
    | ClientError(text: string)    // any other failure reported by the client

  /**
   * The collection description in a collection-info reply, as it arrives:
   * the status is the raw enum number and both counts are optional fields.
   */
  datatype CollectionInfo = CollectionInfo(status: int, pointsCount: Option<u64>, vectorsCount: Option<u64>)

  /**
   * The generated `status()` getter: the raw number when it names one of the
   * client's `CollectionStatus` variants (`known`), otherwise the enum's
   * default, 0.
   */
  function StatusOf(info: CollectionInfo, known: set<int>): (s: int)
    ensures info.status in known ==> s == info.status
    ensures info.status !in known ==> s == 0
  {
    if info.status in known then info.status else 0
  }

  /**
   * `async_collection_info`: `reply` is the client's answer, whose result body
   * may be missing. A missing body is an Internal error, not a default; a
   * missing count inside a present body reads as 0, as the getters do.
   */
  function AsyncCollectionInfo(reply: Result<Option<CollectionInfo>, QdrantError>, known: set<int>): (r: Result<(int, u64, u64), QdrantError>)
    ensures reply.Err? ==> r == Err(reply.error)
    ensures reply == Ok(None) ==> r == Err(ResponseError(Status(Internal, "collection info not found")))
    ensures reply.Ok? && reply.value.Some? ==>
      var info := reply.value.value;
      r.Ok? && r.value.0 == StatusOf(info, known)
      && (info.pointsCount.Some? ==> r.value.1 == info.pointsCount.value)
      && (info.pointsCount.None? ==> r.value.1 == 0)
      && (info.vectorsCount.Some? ==> r.value.2 == info.vectorsCount.value)
      && (info.vectorsCount.None? ==> r.value.2 == 0)
  {
    var body :- reply;
    var info :- body.OkOr(ResponseError(Status(Internal, "collection info not found")));
    Ok((StatusOf(info, known), info.pointsCount.GetOr(0), info.vectorsCount.GetOr(0)))
  }

  /** A present body with no counts and an unknown status reads as status 0 with zero counts, not as an error. */
  lemma BareInfoReadsAsZeros(raw: int, known: set<int>)
    requires raw !in known
    ensures AsyncCollectionInfo(Ok(Some(CollectionInfo(raw, None, None))), known) == Ok((0, 0, 0))
  {
  }

  /** The body of a count reply. */
  datatype CountResult = CountResult(count: u64)

  /** What `async_count` asks for: an exact count of the points matching the filter. */
  datatype CountRequest = CountRequest(collection: string, filter: Filter, exact: bool)

  function CountRequestFor(collection: string, filter: Filter): (q: CountRequest)
    ensures q.collection == collection && q.filter == filter && q.exact
  {
    CountRequest(collection, filter, true)
  }

  /** `async_count`: a missing result body is an Internal error. */
  function AsyncCount(reply: Result<Option<CountResult>, QdrantError>): (r: Result<u64, QdrantError>)
    ensures reply.Err? ==> r == Err(reply.error)
    ensures reply == Ok(None) ==> r == Err(ResponseError(Status(Internal, "count result is missing")))
    ensures reply.Ok? && reply.value.Some? ==> r == Ok(reply.value.value.count)
  {
    var body :- reply;
    var result :- body.OkOr(ResponseError(Status(Internal, "count result is missing")));
    Ok(result.count)
  }

  /** A missing body is an error in both wrappers, never a zero or empty default. */
  lemma MissingBodyIsInternal(known: set<int>)
    ensures AsyncCollectionInfo(Ok(None), known).Err? && AsyncCollectionInfo(Ok(None), known).error.status.code == Internal
    ensures AsyncCount(Ok(None)).Err? && AsyncCount(Ok(None)).error.status.code == Internal
  {
  }

  /** What `async_create_collection` asks for. */
  datatype CreateCollectionRequest = CreateCollectionRequest(
    collection: string, size: u64, metric: Metric, defaultSegmentNumber: u64)

  const DefaultSegmentNumber: u64 := 1

  function CreateCollectionRequestFor(collection: string, size: u64, distance: Distance): (q: CreateCollectionRequest)
    ensures q.collection == collection && q.size == size
    ensures q.metric == DistanceInto(distance) && q.defaultSegmentNumber == 1
  {
    CreateCollectionRequest(collection, size, DistanceInto(distance), DefaultSegmentNumber)
  }

  /** A point before it is written: id, vector and a serialisable payload. */
  datatype Point<T> = Point(id: u64, vector: seq<Float>, payload: T)

  /** A point as the client sends it: the payload has been checked to be an object. */
  datatype PointStruct = PointStruct(id: u64, vector: seq<Float>, payload: map<string, Json>)

  /** `Payload::try_from(json!(payload))` and `PointStruct::new`. */
  function ToPointStruct(p: Point<Json>): (r: Result<PointStruct, QdrantError>)
    ensures r.Ok? <==> p.payload.Object?
    ensures r.Ok? ==> r.value == PointStruct(p.id, p.vector, p.payload.fields)
    ensures r.Err? ==> r.error == JsonToPayload(p.payload)
  {
    if p.payload.Object? then Ok(PointStruct(p.id, p.vector, p.payload.fields))
    else Err(JsonToPayload(p.payload))
  }

  /**
   * `collect::<Result<Vec<_>, _>>()` over the converted points: all of them,
   * in order, or the error of the first point whose payload is not an object.
   */
  function CollectPoints(points: seq<Point<Json>>): (r: Result<seq<PointStruct>, QdrantError>)
    ensures r.Ok? <==> forall i :: 0 <= i < |points| ==> points[i].payload.Object?
    ensures r.Ok? ==> |r.value| == |points|
    ensures r.Ok? ==> forall i :: 0 <= i < |points| ==> r.value[i] == ToPointStruct(points[i]).value
    ensures r.Err? ==>
      (exists i :: 0 <= i < |points| && !points[i].payload.Object?
         && (forall j :: 0 <= j < i ==> points[j].payload.Object?)
         && r.error == JsonToPayload(points[i].payload))
  {
    if points == [] then Ok([])
    else
      match ToPointStruct(points[0])
      case Err(e) => Err(e)
      case Ok(first) =>
        match CollectPoints(points[1..])
        case Err(e) =>
          ghost var i :| 0 <= i < |points[1..]| && !points[1..][i].payload.Object?
            && (forall j :: 0 <= j < i ==> points[1..][j].payload.Object?)
            && e == JsonToPayload(points[1..][i].payload);
          assert !points[i + 1].payload.Object?;
          Err(e)
        case Ok(rest) => Ok([first] + rest)
  }

  /** What `async_upsert_points` sends: all points, without waiting for indexing. */
  datatype UpsertRequest = UpsertRequest(collection: string, points: seq<PointStruct>, wait: bool)

  /** The request `async_upsert_points` would send, or the conversion error that stops it before sending. */
  function UpsertRequestFor(collection: string, points: seq<Point<Json>>): (r: Result<UpsertRequest, QdrantError>)
    ensures r.Ok? <==> CollectPoints(points).Ok?
    ensures r.Ok? ==> r.value.collection == collection && !r.value.wait
    ensures r.Ok? ==> |r.value.points| == |points|
    ensures r.Ok? ==> forall i :: 0 <= i < |points| ==>
      r.value.points[i].id == points[i].id && r.value.points[i].vector == points[i].vector
      && r.value.points[i].payload == points[i].payload.fields
    ensures r.Err? ==> r.error == CollectPoints(points).error
  {
    var structs :- CollectPoints(points);
    Ok(UpsertRequest(collection, structs, false))
  }

  /**
   * `async_upsert_points`: `reply` is the client's answer to the request; it
   * is only consulted when a request is sent.
   */
  function AsyncUpsertPoints(collection: string, points: seq<Point<Json>>, reply: Result<(), QdrantError>): (r: Result<(), QdrantError>)
    ensures UpsertRequestFor(collection, points).Err? ==> r == Err(UpsertRequestFor(collection, points).error)
    ensures UpsertRequestFor(collection, points).Ok? ==> r == reply
  {
    var _ :- UpsertRequestFor(collection, points);
    reply
  }

  /** One payload that is not an object stops the whole batch: nothing is sent, whatever the client would answer. */
  lemma OneBadPayloadSendsNothing(collection: string, points: seq<Point<Json>>, k: nat, reply: Result<(), QdrantError>)
    requires k < |points| && !points[k].payload.Object?
    ensures UpsertRequestFor(collection, points).Err?
    ensures AsyncUpsertPoints(collection, points, reply).Err?
    ensures AsyncUpsertPoints(collection, points, reply) == AsyncUpsertPoints(collection, points, Ok(()))
  {
  }
}

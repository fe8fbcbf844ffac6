/**
 * The path algebra of the App Router's flight data: a flight data path is a
 * flat, positional array `[...segmentPath, tree, seedData, head]`; these
 * functions split it into a named record, walk a segment path one
 * `(Segment, ParallelRouteKey)` pair at a time, and normalise a whole
 * flight-data payload by its runtime shape.
 */
module FlightDataHelpers {
  import JsArray

  /**
   * An already-deserialised wire value. Segments, parallel-route keys, router
   * state trees, seed data and head content are all values of this kind;
   * `Atom` stands for every value that is neither a string, an array nor
   * null (numbers, booleans, objects, React nodes), identified by an opaque tag.
   */
  datatype Value = Str(chars: string) | Arr(items: seq<Value>) | Null | Atom(tag: nat)

  /** The record a flight data path is split into. */
  datatype NormalizedFlightResponse = NormalizedFlightResponse(
    segmentPath: seq<Value>,    // where the update attaches, ending with the record's own segment
    pathToSegment: seq<Value>,  // the same path up to the parent, without that last segment
    segment: Value,
    tree: Value,
    seedData: Value,
    head: Value,
    isRootRender: bool)

  /** What `normalizeFlightData` returns: the string itself, an array of records, or one record. */
  datatype NormalizedFlightData =
    | PassThrough(text: string)
    | Paths(responses: seq<NormalizedFlightResponse>)
    | SinglePath(response: NormalizedFlightResponse)

  /** The segment a root render reports, since it has no segment path. */
  const RootSegment: Value := Str("")

  /** A `FlightDataPath`: an array with the three trailing fields present. */
  predicate IsFlightDataPath(v: Value) {
    v.Arr? && |v.items| >= 3
  }

  /**
   * How a record's fields hang together: `segmentPath` splits into
   * `pathToSegment` followed by `segment`, the root render has an empty
   * segment path and the empty-string segment, and nothing else is a root render.
   */
  predicate IsConsistent(r: NormalizedFlightResponse) {
    && (r.isRootRender <==> r.segmentPath == [])
    && (r.segmentPath == [] ==> r.pathToSegment == [] && r.segment == RootSegment)
    && (r.segmentPath != [] ==> r.pathToSegment + [r.segment] == r.segmentPath)
  }

  /** The positional wire form of a record: its segment path followed by the three trailing fields. */
  function FlightDataPathOf(r: NormalizedFlightResponse): (p: seq<Value>)
    ensures |p| == |r.segmentPath| + 3
  {
    r.segmentPath + [r.tree, r.seedData, r.head]
  }

  /** `getFlightDataPartsFromPath`: splits a flight data path into its named parts. */
  function GetFlightDataPartsFromPath(flightDataPath: seq<Value>): (r: NormalizedFlightResponse)
    requires |flightDataPath| >= 3
    ensures r.tree == flightDataPath[|flightDataPath| - 3]
    ensures r.seedData == flightDataPath[|flightDataPath| - 2]
    ensures r.head == flightDataPath[|flightDataPath| - 1]
    ensures r.segmentPath == flightDataPath[..|flightDataPath| - 3]
    ensures |r.segmentPath| == |flightDataPath| - 3
    ensures r.isRootRender <==> |flightDataPath| == 3
    ensures r.segmentPath != [] ==> r.segment == r.segmentPath[|r.segmentPath| - 1]
    ensures IsConsistent(r)
    ensures FlightDataPathOf(r) == flightDataPath
  {
    // the three fixed fields sit at the very end of the path
    var trailing := JsArray.SliceFrom(flightDataPath, -3);
    JsArray.SliceLast(flightDataPath, 3);
    var tree, seedData, head := trailing[0], trailing[1], trailing[2];
    assert trailing == [tree, seedData, head];
    // whatever precedes them addresses the update; nothing precedes them for a root render
    var segmentPath := JsArray.Slice(flightDataPath, 0, -3);
    JsArray.SliceDropLast(flightDataPath, 3);
    assert flightDataPath == segmentPath + trailing;
    var pathToSegment := JsArray.Slice(segmentPath, 0, -1);
    JsArray.SliceDropLast(segmentPath, 1);
    var segment := JsArray.At(segmentPath, |segmentPath| - 1).GetOr(RootSegment);
    assert segmentPath != [] ==> pathToSegment + [segment] == segmentPath;
    NormalizedFlightResponse(
      segmentPath := segmentPath,
      pathToSegment := pathToSegment,
      segment := segment,
      tree := tree,
      seedData := seedData,
      head := head,
      isRootRender := |flightDataPath| == 3)
  }

  /** `getNextFlightSegmentPath`: drops the first `(Segment, ParallelRouteKey)` pair. */
  function GetNextFlightSegmentPath(flightSegmentPath: seq<Value>): (r: seq<Value>)
    ensures |flightSegmentPath| >= 2 ==> flightSegmentPath[..2] + r == flightSegmentPath
    ensures |flightSegmentPath| < 2 ==> r == []
    ensures |r| == if |flightSegmentPath| >= 2 then |flightSegmentPath| - 2 else 0
  {
    JsArray.SliceDropFirst(flightSegmentPath, 2);
    JsArray.SliceFrom(flightSegmentPath, 2)
  }

  predicate IsNonEmptyArray(v: Value) {
    v.Arr? && |v.items| > 0
  }

  /** `items.every(item => Array.isArray(item) && item.length > 0)`, element by element from the front. */
  function EveryNonEmptyArray(items: seq<Value>): (b: bool)
    ensures b <==> forall i :: 0 <= i < |items| ==> IsNonEmptyArray(items[i])
  {
    if |items| == 0 then true
    else IsNonEmptyArray(items[0]) && EveryNonEmptyArray(items[1..])
  }

  /**
   * `isFlightDataPathArray`: the shape test that tells an array of flight
   * data paths from a single path. An empty array passes vacuously.
   */
  function IsFlightDataPathArray(data: Value): (b: bool)
    ensures b <==> data.Arr? && forall i :: 0 <= i < |data.items| ==> IsNonEmptyArray(data.items[i])
  {
    data.Arr? && EveryNonEmptyArray(data.items)
  }

  /** `paths.map(getFlightDataPartsFromPath)`: each path decomposed, in order. */
  function MapFlightDataParts(paths: seq<Value>): (rs: seq<NormalizedFlightResponse>)
    requires forall i :: 0 <= i < |paths| ==> paths[i].Arr? && |paths[i].items| >= 3
    ensures |rs| == |paths|
    ensures forall i :: 0 <= i < |paths| ==> rs[i] == GetFlightDataPartsFromPath(paths[i].items)
  {
    seq(|paths|, i requires 0 <= i < |paths| => GetFlightDataPartsFromPath(paths[i].items))
  }

  /**
   * The inputs `normalizeFlightData` is meant for: a string, an array of
   * flight data paths, or (when the shape test fails) a single flight data path.
   */
  predicate IsNormalizable(flightData: Value) {
    || flightData.Str?
    || (&& flightData.Arr?
        && if IsFlightDataPathArray(flightData)
           then forall i :: 0 <= i < |flightData.items| ==> IsFlightDataPath(flightData.items[i])
           else |flightData.items| >= 3)
  }

  /** `normalizeFlightData`: pass a string through, otherwise decompose by shape. */
  function NormalizeFlightData(flightData: Value): (r: NormalizedFlightData)
    requires IsNormalizable(flightData)
    ensures flightData.Str? ==> r == PassThrough(flightData.chars)
    ensures r.Paths? <==> IsFlightDataPathArray(flightData)
    ensures r.Paths? ==>
      && |r.responses| == |flightData.items|
      && forall i :: 0 <= i < |flightData.items| ==>
           r.responses[i] == GetFlightDataPartsFromPath(flightData.items[i].items)
    ensures r.SinglePath? <==> flightData.Arr? && !IsFlightDataPathArray(flightData)
    ensures r.SinglePath? ==> r.response == GetFlightDataPartsFromPath(flightData.items)
  {
    if flightData.Str? then PassThrough(flightData.chars)
    else if IsFlightDataPathArray(flightData) then Paths(MapFlightDataParts(flightData.items))
    else SinglePath(GetFlightDataPartsFromPath(flightData.items))
  }

  /** Decomposing the wire form of a consistent record gives the record back. */
  lemma PartsOfFlightDataPath(r: NormalizedFlightResponse)
    requires IsConsistent(r)
    ensures GetFlightDataPartsFromPath(FlightDataPathOf(r)) == r
  {
    var p := FlightDataPathOf(r);
    assert p[..|p| - 3] == r.segmentPath;
    if r.segmentPath != [] {
      var sp := r.segmentPath;
      assert sp[..|sp| - 1] == r.pathToSegment;
    }
  }

  /**
   * Every record `normalizeFlightData` produces from a path array re-encodes
   * to the path it came from, at the same position.
   */
  lemma NormalizedPathsReencode(flightData: Value)
    requires IsNormalizable(flightData) && IsFlightDataPathArray(flightData)
    ensures var rs := NormalizeFlightData(flightData).responses;
      && |rs| == |flightData.items|
      && forall i :: 0 <= i < |rs| ==> FlightDataPathOf(rs[i]) == flightData.items[i].items && IsConsistent(rs[i])
  {
  }

  /** Walking a segment path `n` pairs deep with `getNextFlightSegmentPath`. */
  function Descend(flightSegmentPath: seq<Value>, n: nat): (r: seq<Value>)
    decreases n
  {
    if n == 0 then flightSegmentPath
    else Descend(GetNextFlightSegmentPath(flightSegmentPath), n - 1)
  }

  /** After `n` steps the walk has dropped the first `2 * n` elements, or all of them. */
  lemma {:induction false} DescendDrops(flightSegmentPath: seq<Value>, n: nat)
    decreases n
    ensures 2 * n <= |flightSegmentPath| ==> Descend(flightSegmentPath, n) == flightSegmentPath[2 * n..]
    ensures 2 * n > |flightSegmentPath| ==> Descend(flightSegmentPath, n) == []
  {
    if n > 0 {
      var next := GetNextFlightSegmentPath(flightSegmentPath);
      DescendDrops(next, n - 1);
      if |flightSegmentPath| >= 2 {
        assert next == flightSegmentPath[2..];
        if 2 * n <= |flightSegmentPath| {
          assert next[2 * (n - 1)..] == flightSegmentPath[2 * n..];
        }
      }
    }
  }

  /** A segment path of whole pairs stays one of whole pairs as it is walked. */
  lemma NextKeepsPairs(flightSegmentPath: seq<Value>)
    requires |flightSegmentPath| % 2 == 0
    ensures |GetNextFlightSegmentPath(flightSegmentPath)| % 2 == 0
    ensures flightSegmentPath != [] ==> |GetNextFlightSegmentPath(flightSegmentPath)| == |flightSegmentPath| - 2
  {
  }
}

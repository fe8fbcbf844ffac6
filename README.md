# Flight-data path helpers (Next.js App Router), modelled in Dafny

The App Router client receives "flight data" from the server: each update is a
flight data path, a flat positional array `[...segmentPath, tree, seedData, head]`.
The helpers in `packages/next/src/client/flight-data-helpers.ts` do three things:

- They split one such path into a `NormalizedFlightResponse` record.
- They step a segment path one `(Segment, ParallelRouteKey)` pair deeper.
- They normalise a whole payload by its runtime shape. A payload is a string
  (passed through), an array of paths (each one decomposed, in order) or a
  single path (decomposed, not wrapped).

This project restates those helpers as pure Dafny functions and proves what
they promise:

- the three trailing fields are exactly the last three items;
- the segment path is everything before them;
- `pathToSegment + [segment]` rebuilds the segment path;
- a record is a root render exactly when the path has three items;
- decomposing is lossless, since re-encoding a record gives back its path;
- stepping drops exactly two items, or everything when fewer remain;
- the shape test accepts exactly the arrays whose items are all non-empty arrays;
- `map` keeps length and order.

Files:

- `js_array.dfy` (module `JsArray`) models the JavaScript primitives the
  helpers use. `Array.prototype.slice` is modelled with its negative,
  from-the-end indices and its clamping. Indexing out of range gives
  `undefined`, modelled as `None`, and `??` is modelled as `GetOr`. The
  lemmas turn each slice the helpers use into a plain Dafny subsequence.
- `flight_data_helpers.dfy` (module `FlightDataHelpers`) holds the wire value
  type, the record, the three helpers and the lemmas about them.
- `flight_data_examples.dfy` (module `FlightDataExamples`) holds concrete
  payloads worked through the model.

Wire values are one datatype: `Str`, `Arr`, `Null`, and `Atom` for any other
value (numbers, objects, React nodes). Segments, parallel-route keys, router
state trees, seed data and head content are all values of this type, and
records hold them by value.

For `[["a", "children", tree, null, null]]` the segment is the last item of
the segment path, `"children"`, and `pathToSegment` is `["a"]`.
`FlightDataExamples.NestedPathInArray` proves it.

`FlightDataHelpers.Descend` is not a function of the source. It applies
`GetNextFlightSegmentPath` a given number of times, the way a caller walks down
a segment path one pair per step, and exists only to state
`FlightDataHelpers.DescendDrops`.

## Model

| member | source | states |
|---|---|---|
| `FlightDataHelpers.GetFlightDataPartsFromPath` | packages/next/src/client/flight-data-helpers.ts:31-53 | For a path of at least three items: `tree`, `seedData` and `head` are the last three items, in that order. `segmentPath` is the path without them, of length `n - 3`. `isRootRender` holds iff the path has exactly three items, which is iff `segmentPath` is empty. `segment` is the last item of `segmentPath`, or `""` when it is empty. `pathToSegment + [segment] == segmentPath` when it is non-empty, and `pathToSegment` is empty otherwise. Re-encoding the record gives back the path. The `""` for the empty segment path is the `??` step: indexing past the end gives nothing and `GetOr` supplies `""`. |
| `FlightDataHelpers.PartsOfFlightDataPath` | packages/next/src/client/flight-data-helpers.ts:11-53 | The inverse direction: decomposing the wire form of any record whose fields hang together as the record type documents gives that same record. |
| `FlightDataHelpers.GetNextFlightSegmentPath` | packages/next/src/client/flight-data-helpers.ts:55-61 | With at least two items, the first two followed by the result rebuild the input, so the result is `s[2..]`. With fewer than two, the result is empty rather than an error. The result length is `max(n - 2, 0)`. |
| `FlightDataHelpers.DescendDrops` | packages/next/src/client/flight-data-helpers.ts:58-60 | Stepping `k` times drops the first `2k` items when there are that many, and otherwise leaves nothing. |
| `FlightDataHelpers.NextKeepsPairs` | packages/next/src/client/flight-data-helpers.ts:58-60 | A path of whole pairs stays one of whole pairs after a step, and a non-empty one shrinks by exactly one pair. |
| `FlightDataHelpers.EveryNonEmptyArray` | packages/next/src/client/flight-data-helpers.ts:66 | The front-to-back `every` holds iff each item is an array of at least one element. |
| `FlightDataHelpers.IsFlightDataPathArray` | packages/next/src/client/flight-data-helpers.ts:63-68 | The shape test holds iff the value is an array and each of its items is a non-empty array. This includes the empty array, vacuously. |
| `FlightDataHelpers.MapFlightDataParts` | packages/next/src/client/flight-data-helpers.ts:86 | Mapping the decomposition over an array of paths keeps the length, and item `i` of the result is the decomposition of path `i`. |
| `FlightDataHelpers.NormalizeFlightData` | packages/next/src/client/flight-data-helpers.ts:76-88 | A string comes back unchanged. The result is an array of records iff the shape test holds, and then it has one record per input item, in order, each the decomposition of that item. The result is a single unwrapped record iff the input is an array that fails the shape test, and then it is the decomposition of the input itself. |
| `FlightDataHelpers.NormalizedPathsReencode` | packages/next/src/client/flight-data-helpers.ts:85-86 | For an array of paths, every record produced re-encodes to the path at the same position and is internally consistent. |
| `JsArray.SliceLast` | packages/next/src/client/flight-data-helpers.ts:35 | `slice(-3)` on a path of at least three items is exactly its last three items. |
| `JsArray.SliceDropLast` | packages/next/src/client/flight-data-helpers.ts:37-43 | `slice(0, -k)` drops the last `k` items, and gives the empty array when there are fewer than `k`. This is used both for `slice(0, -3)` on a path and for `slice(0, -1)` on an empty segment path. |
| `JsArray.SliceDropFirst` | packages/next/src/client/flight-data-helpers.ts:60 | `slice(2)` drops the first two items, or all items when there are fewer. |
| `JsArray.At` | packages/next/src/client/flight-data-helpers.ts:47 | Indexing yields a value iff the index is in range, and then it is the element at that index. Otherwise it yields nothing (`undefined`). |
| `JsArray.Option.GetOr` | packages/next/src/client/flight-data-helpers.ts:47 | `x ?? fallback`: the value when there is one, and the fallback when there is none. |
| `JsArray.ResolveIndex` | packages/next/src/client/flight-data-helpers.ts:35-60 | How `slice` reads one index against length `n`. A negative index counts back from the end and is clamped to 0. A non-negative index is clamped to `n`. The result always lies in `0..n`. |
| `JsArray.Slice` | packages/next/src/client/flight-data-helpers.ts:37-43 | `s.slice(start, end)` has length `to - from` for the resolved indices when `from < to`, and is empty when the start is not before the end. `SliceDropLast` turns the calls at lines 37 and 43 into plain prefixes. |
| `JsArray.SliceFrom` | packages/next/src/client/flight-data-helpers.ts:35-60 | `s.slice(start)` runs from the resolved start to the end, so its length is `n` minus that start. `SliceLast` (line 35) and `SliceDropFirst` (line 60) turn it into plain suffixes. |
| `JsArray.SliceElements` | packages/next/src/client/flight-data-helpers.ts:35-60 | Item `i` of a slice is item `from + i` of the array, where `from` is the resolved start. |
| `FlightDataExamples.StringPassesThrough` | packages/next/src/client/flight-data-helpers.ts:79-81 | `normalizeFlightData("/login")` returns the string. |
| `FlightDataExamples.RootRenderIsSingle` | packages/next/src/client/flight-data-helpers.ts:76-88 | `[tree, null, null]` fails the shape test and gives one unwrapped root-render record with an empty segment path and segment `""`. |
| `FlightDataExamples.NestedPathInArray` | packages/next/src/client/flight-data-helpers.ts:43-47 | `[["a", "children", tree, null, null]]` gives one record with segment path `["a", "children"]`, segment `"children"` and `pathToSegment` `["a"]`. |
| `FlightDataExamples.EmptyArrayGivesNoPaths` | packages/next/src/client/flight-data-helpers.ts:63-68 | The empty payload array gives an empty array of records. |
| `FlightDataExamples.NextSegmentPathSteps` | packages/next/src/client/flight-data-helpers.ts:55-61 | Stepping `[]` and `[s, k]` gives `[]`, and stepping `[s1, k1, s2, k2]` gives `[s2, k2]`. |
| `FlightDataExamples.ShapeTestMistakesRootRender` | packages/next/src/client/flight-data-helpers.ts:63-68 | A single root-render path whose three items are all non-empty arrays passes the shape test. Only the caller's choice of overload tells it apart from an array of paths. |

## Left out

- The imported types at lines 1-9 (`FlightRouterState`, `CacheNodeSeedData`, `Segment`, …) and `React.ReactNode` are not part of this model. Their values are opaque `Value`s.
- JavaScript reference identity: `tree`, `seedData` and `head` are copied as values. Aliasing of the caller's arrays is not modelled.
- The TypeScript overload signatures at lines 70-75 are static typing only. The single implementation at lines 76-88 is modelled.
- `GetFlightDataPartsFromPath` requires at least three items. The source's output on shorter arrays, where `undefined` is destructured from `slice(-3)`, is not modelled.
- `NormalizeFlightData` requires a string, an array of paths that each have at least three items, or an array of at least three items that fails the shape test. For other inputs the source either decomposes a too-short path or calls `slice` on a non-array.
- The `??` fallback for a segment that is itself `null` or `undefined` is not modelled, since segments are never nullish. Only the empty segment path falls back to `""`.

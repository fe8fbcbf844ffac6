/**
 * Concrete payloads worked through the model: a root render, a nested render
 * inside an array of paths, the empty array, stepping down a segment path,
 * and the shape test's blind spot.
 */
module FlightDataExamples {
  import opened FlightDataHelpers

  /** A router state tree snapshot `["__PAGE__", {}]`. */
  const PageTree: Value := Arr([Str("__PAGE__"), Atom(0)])

  /** `normalizeFlightData("/login")` hands the string back untouched. */
  lemma StringPassesThrough()
    ensures NormalizeFlightData(Str("/login")) == PassThrough("/login")
  {
  }

  /**
   * A single root-render path `[tree, null, null]` is not an array of paths
   * (its last two items are not arrays), so it yields one unwrapped record.
   */
  lemma RootRenderIsSingle()
    ensures !IsFlightDataPathArray(Arr([PageTree, Null, Null]))
    ensures NormalizeFlightData(Arr([PageTree, Null, Null]))
         == SinglePath(NormalizedFlightResponse([], [], Str(""), PageTree, Null, Null, true))
  {
    assert !IsNonEmptyArray(Arr([PageTree, Null, Null]).items[1]);
  }

  /**
   * `[["a", "children", tree, null, null]]` is an array of one path. The
   * record's `segment` is the LAST item of its segment path ("children") and
   * `pathToSegment` is `["a"]`.
   */
  lemma NestedPathInArray()
    ensures
      var path := [Str("a"), Str("children"), PageTree, Null, Null];
      NormalizeFlightData(Arr([Arr(path)]))
        == Paths([NormalizedFlightResponse(
             [Str("a"), Str("children")], [Str("a")], Str("children"), PageTree, Null, Null, false)])
  {
    var path := [Str("a"), Str("children"), PageTree, Null, Null];
    var r := GetFlightDataPartsFromPath(path);
    assert r.segmentPath == path[..2] == [Str("a"), Str("children")];
    assert r.pathToSegment + [r.segment] == [Str("a")] + [Str("children")];
    assert r.pathToSegment == [Str("a")];
    assert MapFlightDataParts([Arr(path)]) == [r];
  }

  /** The empty array passes the shape test vacuously and maps to no records. */
  lemma EmptyArrayGivesNoPaths()
    ensures NormalizeFlightData(Arr([])) == Paths([])
  {
  }

  /** Stepping down: `[]` and `[s, k]` give `[]`; `[s1, k1, s2, k2]` gives `[s2, k2]`. */
  lemma NextSegmentPathSteps()
    ensures GetNextFlightSegmentPath([]) == []
    ensures GetNextFlightSegmentPath([Str("a"), Str("children")]) == []
    ensures GetNextFlightSegmentPath([Str("a"), Str("children"), Str("b"), Str("modal")])
         == [Str("b"), Str("modal")]
  {
  }

  /**
   * A single root-render path whose tree, seed data and head are all
   * non-empty arrays passes the shape test, so `normalizeFlightData` would
   * read it as three separate paths: the shape test alone cannot tell the
   * two overloads apart.
   */
  lemma ShapeTestMistakesRootRender()
    ensures
      var single := Arr([PageTree, Arr([Null, Atom(1), Null, Atom(2)]), Arr([Atom(3)])]);
      IsFlightDataPath(single) && IsFlightDataPathArray(single)
  {
  }
}

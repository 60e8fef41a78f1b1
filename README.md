# PathFlattener3: the flattened arc-length table, in Dafny

`PathFlattener3` (package `field.core.plugins.drawing.opengl`) flattens a
drawn path into a table of straight pieces and answers arc-length questions
against that table.

The constructor walks the path's segments with a counter `index`. The segment
at position `index` covers the curve-parameter range `[index - 1, index]`.
- A skip (a move) emits nothing.
- A line emits one `Mapping`.
- A cubic is split at the parameter midpoint, recursively, until it passes the
  flatness test. Each flat piece is emitted as one `Mapping`, left half before
  right half.

Every `Mapping` carries its parameter range `[dotStart, dotEnd]`, its end
points, and `cumulativeDistanceAtEnd`: the previous entry's total plus the
chord length.

Four queries read the table:
- `length()` is the last running total, or 0 for an empty table.
- `lengthToDot` and `dotToLength` binary-search the table, either on the
  running totals or on the end parameters. They then clamp, return an exact
  hit, or interpolate linearly inside the bracketing entry.
- `getMappingSublist` returns the prefix of the table that reaches a given
  length.

The model has six modules:
- `Geometry`: points, and the three geometric operations the flattener calls
  but does not define (chord length, flatness, split at one half). They are
  supplied as the function-valued fields of a `Space`. The only assumption
  made about them is that distances are never negative.
- `Mappings`: the `Mapping` entry, the running-sum invariant of the table,
  `length()`, and the facts that follow: totals never decrease, and a table
  with the running sum is determined by its pieces.
- `Search`: `Collections.binarySearch` as the JDK algorithm (low/high/mid),
  with its library contract proved on sorted keys.
- `Flattener`: the segments, the specification functions `CubicChords`,
  `SegmentChords` and `PathChords` (the pieces the recursion emits), and the
  class `PathFlattener3`. Its constructor loop, `EmitLinearFrame` and the
  recursive `EmitCubicFrame` change the `mappings` field and are proved
  against those functions.
- `ArcLength`: the four queries as functions of the table. A Java
  `IndexOutOfBoundsException` becomes `Result.OutOfBounds`. This module holds
  the case analyses of each query and the round trips between lengths and
  parameters, inside entries and at their ends.
- `Scenarios`: facts about tables the constructor actually builds, the
  finding below, and small worked paths.

Where the code behaves differently from what a caller might expect, the model
follows the code:
- The first segment of a path covers `[-1, 0]`, not `[0, 1]`, because the
  constructor passes `index - 1` and `index` starting from `index = 0`. A path
  that starts with a skip (a move), as in `SingleLine`, puts its first line on
  `[0, 1]`.
- `dotToLength` on an empty table does not return 0. It reads entry -1 and
  throws (see Findings).
- A parameter inside the gap a skip leaves between two entries is not mapped to
  the length at the gap. `dotToLength` extrapolates the next entry's
  interpolation backwards, so its answer there can be smaller than at the end
  of the previous entry (`SkipGapQueries`).
- Neither query clamps before the first entry's start. Both extrapolate the
  first entry's interpolation: on one line of length 5 over `[-1, 0]`,
  `dotToLength(-2)` is -5 and `lengthToDot(-5)` is -2 (`BeforeFirstQueries`).
- `lengthToDot(0)` answers 0 whatever the table holds, even when the first
  entry starts at parameter -1.
- `lengthToDot(length())` is guaranteed to be the path's last parameter when
  the last chord has positive length (`LengthToDotOfLength`). A zero-length
  last piece (a line or a flat cubic whose end points coincide) repeats the
  previous total, and the search may hit the earlier entry first:
  `ZeroLengthEnd` answers 1 on a path whose last parameter is 2. A path of
  total length 0 answers 0 (line 91), which is its last parameter only when
  that is 0.
- The same holds at every entry's end. `dotToLength` of an entry's end
  parameter always gives that entry's total (`DotToLengthAtEnd`), but mapping
  the total back gives the end parameter of the first entry found with that
  total. The round trip is therefore guaranteed only when no neighbouring
  piece has zero length, so that no other entry repeats the total
  (`DotLengthDotAtEnd`).
- `getMappingSublist` throws `IndexOutOfBoundsException` on an empty table and
  for any length past `length()`, because `subList` (lines 85-86) is asked for
  one entry more than the table has (`GetMappingSublistCases`).

## Model

| member | source | states |
|---|---|---|
| Mappings.AppendEntry | Contents/core/java/field/core/plugins/drawing/opengl/PathFlattener3.java:146-157 | appending one entry whose total is the previous `length()` plus its chord length keeps the running-sum invariant, adds exactly that piece, and grows `length()` by the chord length |
| Mappings.CumulativeOrdered | Contents/core/java/field/core/plugins/drawing/opengl/PathFlattener3.java:152-155 | with non-negative chord lengths every running total is non-negative and totals never decrease along the table |
| Mappings.LengthBoundsTable | Contents/core/java/field/core/plugins/drawing/opengl/PathFlattener3.java:76-79 | `length()` is non-negative and at least every running total in the table |
| Mappings.LengthIsTotalDistance | Contents/core/java/field/core/plugins/drawing/opengl/PathFlattener3.java:76-79 | `length()` of a table with the running sum is the sum of the chord lengths of all its pieces |
| Mappings.BeforeIsTotalDistance | Contents/core/java/field/core/plugins/drawing/opengl/PathFlattener3.java:152-155 | the total before entry k is the sum of the chord lengths of the first k pieces |
| Mappings.RunningSumDetermined | Contents/core/java/field/core/plugins/drawing/opengl/PathFlattener3.java:146-157 | two tables with the running sum and the same pieces are equal: the totals are fixed by the pieces |
| Search.BinarySearch | Contents/core/java/field/core/plugins/drawing/opengl/PathFlattener3.java:94 | a non-negative result indexes a key equal to the searched one; a negative result encodes a point in `[0, size]`; on sorted keys a present key is always found and a missing key yields its insertion point |
| Search.SearchMiss | Contents/core/java/field/core/plugins/drawing/opengl/PathFlattener3.java:98-99 | on sorted keys, a key whose insertion point is p makes the search return `-p - 1`, so `leftOf = -found - 1` is exactly that point |
| ArcLength.DistancesSorted | Contents/core/java/field/core/plugins/drawing/opengl/PathFlattener3.java:60-66 | the key `searchDistance` compares, each entry's running total, is sorted when chord lengths are non-negative, as the search at line 83 demands |
| ArcLength.DotEndsIncreasing | Contents/core/java/field/core/plugins/drawing/opengl/PathFlattener3.java:68-74 | the key `searchDot` compares, each entry's end parameter, strictly increases in a table in parameter order, so it is sorted and no two entries share one |
| ArcLength.LengthCases | Contents/core/java/field/core/plugins/drawing/opengl/PathFlattener3.java:76-79 | `length()` is 0 on an empty table, the sum of all chord lengths otherwise, and bounds every running total from above |
| ArcLength.LengthToDotAt | Contents/core/java/field/core/plugins/drawing/opengl/PathFlattener3.java:98-111 | when the search on totals misses with insertion point j inside the table, the answer is entry j's end parameter for a zero-width bracket and otherwise the parameter interpolated at the fraction of the bracket that the length reaches |
| ArcLength.LengthToDotCases | Contents/core/java/field/core/plugins/drawing/opengl/PathFlattener3.java:90-101 | `lengthToDot` answers 0 for length 0 or an empty table, the end parameter of an entry holding the length on an exact hit, and the last end parameter past the end of the table |
| ArcLength.LengthToDotBracket | Contents/core/java/field/core/plugins/drawing/opengl/PathFlattener3.java:103-111 | inside the table a zero-width bracket answers the bracketing entry's end parameter, and a positive length answers a parameter between that entry's start and end |
| ArcLength.DotToLengthAt | Contents/core/java/field/core/plugins/drawing/opengl/PathFlattener3.java:124-143 | when the search on end parameters misses with insertion point j inside the table, the answer is the previous entry's total for a zero-width entry (throwing when j is 0), otherwise the total interpolated between the totals before and after entry j |
| ArcLength.DotToLengthCases | Contents/core/java/field/core/plugins/drawing/opengl/PathFlattener3.java:114-139 | `dotToLength` throws exactly on an empty table (index -1) or when the parameter falls before a zero-width first entry; an exact hit answers that entry's total; past the last entry it answers `length()` |
| ArcLength.DotToLengthBracket | Contents/core/java/field/core/plugins/drawing/opengl/PathFlattener3.java:133-143 | a parameter at or after the bracketing entry's start, in an entry of positive width, is answered with a total between the totals before and after that entry |
| ArcLength.DotToLengthBelowLength | Contents/core/java/field/core/plugins/drawing/opengl/PathFlattener3.java:114-144 | on a table with the running sum and in parameter order, every answer of `dotToLength` is at most `length()` |
| ArcLength.InterpolatedBelow | Contents/core/java/field/core/plugins/drawing/opengl/PathFlattener3.java:140-143 | the interpolation branch returns and never exceeds the bracketing entry's total, because the fraction stays at most 1 |
| ArcLength.GetMappingSublistCases | Contents/core/java/field/core/plugins/drawing/opengl/PathFlattener3.java:81-87 | `getMappingSublist` throws exactly when the table is empty or the length is past `length()`; otherwise it returns a non-empty prefix whose last entry reaches the length and whose earlier entries do not pass it; on an exact hit the last entry holds the length |
| ArcLength.LengthDotLength | Contents/core/java/field/core/plugins/drawing/opengl/PathFlattener3.java:90-144 | for a length strictly inside an entry of a table in parameter order, `dotToLength(lengthToDot(length))` returns that length |
| ArcLength.DotLengthDot | Contents/core/java/field/core/plugins/drawing/opengl/PathFlattener3.java:90-144 | for a parameter strictly inside an entry of positive length, `dotToLength` returns and `lengthToDot` maps its answer back to the same parameter |
| ArcLength.LengthToDotOfTotal | Contents/core/java/field/core/plugins/drawing/opengl/PathFlattener3.java:94-96 | a non-zero length equal to some running total is answered with the end parameter of an entry holding that total, which need not be the first or the last of several |
| ArcLength.DotToLengthAtEnd | Contents/core/java/field/core/plugins/drawing/opengl/PathFlattener3.java:119-122 | in a table in parameter order, `dotToLength` at an entry's end parameter hits that entry and answers its running total |
| ArcLength.LengthToDotOfLength | Contents/core/java/field/core/plugins/drawing/opengl/PathFlattener3.java:90-101 | when the last chord has positive length, `lengthToDot(length())` is the last entry's end parameter |
| ArcLength.EndRoundTrip | Contents/core/java/field/core/plugins/drawing/opengl/PathFlattener3.java:90-122 | on a table with the running sum and in parameter order, `dotToLength(lengthToDot(c))` returns c for every non-zero running total c |
| ArcLength.DotLengthDotAtEnd | Contents/core/java/field/core/plugins/drawing/opengl/PathFlattener3.java:90-122 | on a table with the running sum and in parameter order, `lengthToDot(dotToLength(d))` returns d for the end parameter d of every entry whose non-zero total no other entry repeats |
| ArcLength.DotToLengthOrZero | Contents/core/java/field/core/plugins/drawing/opengl/PathFlattener3.java:129-130 | corrected query: on an empty table it answers 0, the value `length()` and `lengthToDot` give there, and wherever `dotToLength` returns it agrees with it |
| Flattener.CubicChordsTile | Contents/core/java/field/core/plugins/drawing/opengl/PathFlattener3.java:161-178 | a cubic emits a non-empty run of pieces that tiles `[dotStart, dotEnd]` and joins a to b, each the chord of a cubic that passed the flatness test and that the source cubic splits into by at most `depth` midpoint splits, each keeping the left or the right half; a single piece exactly when the cubic is flat enough; pieces in increasing parameter order for an increasing range |
| Flattener.CubicChordsSplit | Contents/core/java/field/core/plugins/drawing/opengl/PathFlattener3.java:164-174 | a cubic that fails the flatness test is split at `dotStart + (dotEnd - dotStart) * 0.5`: the left half's pieces come first, tile up to that point and end at the split point m, and the right half's pieces tile the rest from m to b |
| Flattener.CubicChordsDepth | Contents/core/java/field/core/plugins/drawing/opengl/PathFlattener3.java:161-178 | once the subdivision finishes within a depth bound, any larger bound yields the same pieces |
| Flattener.SegmentChordsShape | Contents/core/java/field/core/plugins/drawing/opengl/PathFlattener3.java:38-50 | a skip emits nothing; a line emits exactly its chord over `[index - 1, index]`; a cubic emits increasing pieces that tile `[index - 1, index]` and join its end points |
| Flattener.PathChordsOrdered | Contents/core/java/field/core/plugins/drawing/opengl/PathFlattener3.java:35-53 | the pieces of a whole path lie in `[-1, size - 1]` with positive widths, in increasing parameter order |
| Flattener.PathChordsContiguous | Contents/core/java/field/core/plugins/drawing/opengl/PathFlattener3.java:35-53 | without skips the pieces of a path tile `[-1, size - 1]`, each ending where the next one starts |
| Flattener.PathChordsCount | Contents/core/java/field/core/plugins/drawing/opengl/PathFlattener3.java:37-51 | every segment that is not a skip adds at least one piece, and a path of skips adds none |
| Flattener.PathChordsPrefix | Contents/core/java/field/core/plugins/drawing/opengl/PathFlattener3.java:37-53 | if a whole path flattens within the depth bound, so does every prefix the loop has walked |
| Flattener.PathFlattener3.constructor | Contents/core/java/field/core/plugins/drawing/opengl/PathFlattener3.java:31-54 | the built table keeps the running-sum invariant, holds exactly the path's pieces in loop order, and is in parameter order |
| Flattener.PathFlattener3.EmitLinearFrame | Contents/core/java/field/core/plugins/drawing/opengl/PathFlattener3.java:146-157 | appends exactly one entry and changes no earlier one; its total is the chord length on an empty table and the chord length plus the last total otherwise |
| Flattener.PathFlattener3.EmitCubicFrame | Contents/core/java/field/core/plugins/drawing/opengl/PathFlattener3.java:161-178 | keeps every earlier entry, appends exactly the pieces of the cubic's subdivision, and keeps the running-sum invariant |
| Scenarios.Flatten | Contents/core/java/field/core/plugins/drawing/opengl/PathFlattener3.java:56-58 | the table a fresh flattener hands out is the built table of the path, in parameter order |
| Scenarios.BuiltTable | Contents/core/java/field/core/plugins/drawing/opengl/PathFlattener3.java:31-87 | the built table is unique, its two search keys are sorted, it has at least one entry per non-skip segment (none for a path of skips), and `length()` is the sum of the path's chord lengths |
| Scenarios.BuiltDotToLength | Contents/core/java/field/core/plugins/drawing/opengl/PathFlattener3.java:114-144 | on a built table `dotToLength` throws exactly when every segment is a skip, and otherwise agrees with the corrected query |
| Scenarios.SkipOnlyPathThrows | Contents/core/java/field/core/plugins/drawing/opengl/PathFlattener3.java:129-130 | as written: for a path of skips `length()` and `lengthToDot` answer 0, but `dotToLength` reads index -1 and throws |
| Scenarios.SkipOnlyPathOrZero | Contents/core/java/field/core/plugins/drawing/opengl/PathFlattener3.java:129-130 | corrected: for a path of skips the query answers 0, equal to `length()`, and on every built table it never answers more than `length()` |
| Scenarios.SingleLinePieces | Contents/core/java/field/core/plugins/drawing/opengl/PathFlattener3.java:35-53 | a move followed by a line yields the line's chord over `[0, 1]` and nothing else |
| Scenarios.SingleLineQueries | Contents/core/java/field/core/plugins/drawing/opengl/PathFlattener3.java:90-144 | on the one-entry table over `[0, 1]` with total 5, half the length maps to half the parameter and back, the range ends map to 0 and 5, and values past the end clamp |
| Scenarios.SkipGapQueries | Contents/core/java/field/core/plugins/drawing/opengl/PathFlattener3.java:133-143 | with a skip between a line over `[-1, 0]` and a line over `[1, 2]`, `dotToLength` answers 5 at 0 and 3.5 at 0.5, inside the gap |
| Scenarios.BeforeFirstQueries | Contents/core/java/field/core/plugins/drawing/opengl/PathFlattener3.java:90-143 | on one line of length 5 over `[-1, 0]`, `dotToLength(-2)` answers -5 and `lengthToDot(-5)` answers -2: before the first entry both queries extrapolate rather than clamp |
| Scenarios.SingleLine | Contents/core/java/field/core/plugins/drawing/opengl/PathFlattener3.java:31-54 | flattening a move and a line of length 5 builds the single entry over `[0, 1]` with total 5, on which length 2.5 and parameter 0.5 map to each other |
| Scenarios.ZeroLengthEndPieces | Contents/core/java/field/core/plugins/drawing/opengl/PathFlattener3.java:35-53 | a move, a line from a to b and a zero-length line from c to c yield the chords over `[0, 1]` and `[1, 2]` |
| Scenarios.ZeroLengthEndQueries | Contents/core/java/field/core/plugins/drawing/opengl/PathFlattener3.java:94-96 | on the table with totals 5 and 5 over `[0, 1]` and `[1, 2]`, `lengthToDot(length())` answers 1, not the last parameter 2 |
| Scenarios.ZeroLengthEnd | Contents/core/java/field/core/plugins/drawing/opengl/PathFlattener3.java:31-54 | flattening a move, a line of length 5 and a zero-length line builds that two-entry table, on which `lengthToDot(length())` is 1 |

## Left out

- Floating point: `float` arithmetic, its rounding, NaN and -0.0, and the `(float)` casts are modelled over exact `real`. `Float.compare` becomes the order on reals.
- Distance, flatness and splitting: `Vector3.distanceFrom`, `flatnessFor` (lines 180-185, with `ClosestPointToSpline3.ptSegDistSq3` and `Math.sqrt`) and `LineUtils.splitCubicFrame3` are foreign geometry. They are supplied as parameters of a `Space`. Only the non-negativity of the distance is assumed.
- The path: `CachedLine` and `CachedLineCursor` are not part of this model. The cursor is replaced by a sequence of segments, each a line, a cubic or a skip.
- Termination: Java's `emitCubicFrame` has no bound on its recursion. The model carries a ghost depth bound, and the constructor and `EmitCubicFrame` require that the subdivision finishes within it. `CubicChordsDepth` shows that the bound does not change the result.
- Flattener.PathFlattener3.constructor: does not model a subdivision that never finishes (the Java stack overflow), because the depth bound excludes it.
- The scratch vector `tmp` (line 159) and the defensive copies of `c1` and `c2`: aliasing between recursive calls is not modelled. The split's results are values.
- Queries as methods: `length`, `lengthToDot`, `dotToLength` and `getMappingSublist` only read the table. They are modelled as functions of the `mappings` sequence rather than as methods on the object. The live view `subList` returns is modelled as a copy of the prefix. Likewise `getMappings` (line 57) returns the object's own mutable list, so a caller could change the table later queries read; that aliasing is not modelled, and `Scenarios.Flatten` returns the table as a value.
- Comparators: the `instanceof Number` dispatch in `searchDistance` and `searchDot` (lines 60-74) is replaced by the key sequences `Distances` and `DotEnds`.
- Output: `Mapping.toString` (lines 22-25) and the commented-out debugging prints are left out.
- The field `c`: the retained path object is not modelled.

## Findings

| source | as written | input that shows it | evidently intended | confidence | as-written member | corrected member |
|---|---|---|---|---|---|---|
| Contents/core/java/field/core/plugins/drawing/opengl/PathFlattener3.java:129-130 | on an empty table the search yields `leftOf = 0 > size - 1`, so `mappings.get(size - 1)`, that is `get(-1)`, throws `IndexOutOfBoundsException` | a path with no segments, or whose every segment is a skip (a bare move), then `dotToLength(d)` for any `d` | answer 0, as `length()` (line 77) and `lengthToDot` (line 92) do on an empty table | medium, not executed | Scenarios.SkipOnlyPathThrows | ArcLength.DotToLengthOrZero |

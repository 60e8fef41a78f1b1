/** The queries on tables the constructor actually builds: the facts the
    arc-length lemmas assume hold there, what an empty path does to
    `dotToLength`, and one small path worked through end to end. */
module Scenarios {
  import opened Geometry
  import opened Mappings
  import opened Search
  import opened Flattener
  import opened ArcLength

  /** t is the table the constructor builds from the segments: the running
      sum over exactly the pieces of the path. */
  ghost predicate Built(space: Space, tol: real, depth: nat, segments: seq<Segment>, t: seq<Mapping>) {
    && PathChords(space, tol, depth, segments).Some?
    && RunningSum(t, space.dist)
    && Pieces(t) == PathChords(space, tol, depth, segments).value
  }

  /** Builds the table for the segments with a fresh flattener and hands it
      out, as `getMappings` does. */
  method Flatten(segments: seq<Segment>, tol: real, space: Space, ghost depth: nat)
    returns (t: seq<Mapping>)
    requires NonNegative(space.dist)
    requires PathChords(space, tol, depth, segments).Some?
    ensures Built(space, tol, depth, segments, t)
    ensures Ordered(t)
  {
    var f := new PathFlattener3(segments, tol, space, depth);
    t := f.mappings;
  }

  /** A built table is the only one with its pieces, its two search keys are
      in the order the searches need, it has at least one entry per segment
      that is not a skip (none at all when every segment is a skip), and its
      `length()` is the sum of the chord lengths of the path's pieces. */
  lemma BuiltTable(space: Space, tol: real, depth: nat, segments: seq<Segment>, t: seq<Mapping>, u: seq<Mapping>)
    requires NonNegative(space.dist)
    requires Built(space, tol, depth, segments, t) && Built(space, tol, depth, segments, u)
    ensures t == u
    ensures Ordered(t) && Sorted(Distances(t)) && Sorted(DotEnds(t))
    ensures |t| >= Drawn(segments)
    ensures |t| == 0 <==> Drawn(segments) == 0
    ensures Length(t) == TotalDistance(PathChords(space, tol, depth, segments).value, space.dist)
  {
    RunningSumDetermined(t, u, space.dist);
    PiecesAt(t);
    PathChordsOrdered(space, tol, depth, segments);
    PathChordsCount(space, tol, depth, segments);
    DistancesSorted(t, space.dist);
    DotEndsIncreasing(t);
    LengthIsTotalDistance(t, space.dist);
  }

  /** On a built table `dotToLength` throws exactly when every segment of the
      path is a skip; otherwise it returns for every parameter, and the
      corrected query returns the same value. */
  lemma BuiltDotToLength(space: Space, tol: real, depth: nat, segments: seq<Segment>, t: seq<Mapping>, dot: real)
    requires NonNegative(space.dist) && Built(space, tol, depth, segments, t)
    ensures DotToLength(t, dot).OutOfBounds? <==> Drawn(segments) == 0
    ensures Drawn(segments) != 0 ==> DotToLengthOrZero(t, dot) == DotToLength(t, dot).value
  {
    BuiltTable(space, tol, depth, segments, t, t);
    DotToLengthCases(t, dot);
  }

  /** As written, a path whose every segment is a skip builds an empty table
      on which `length()` and `lengthToDot` answer 0 but `dotToLength` reads
      the entry at index -1 and throws. */
  lemma SkipOnlyPathThrows(space: Space, tol: real, depth: nat, segments: seq<Segment>, t: seq<Mapping>,
                           length: real, dot: real)
    requires NonNegative(space.dist) && Built(space, tol, depth, segments, t)
    requires forall k :: 0 <= k < |segments| ==> segments[k].Skip?
    ensures Length(t) == 0.0 && LengthToDot(t, length) == 0.0
    ensures DotToLength(t, dot) == OutOfBounds(-1)
  {
    SkipOnlyUndrawn(segments);
    BuiltTable(space, tol, depth, segments, t, t);
  }

  /** The corrected query on the same path answers 0, the length of the empty
      table, for every parameter, and on every built table it never answers
      more than `length()`. */
  lemma SkipOnlyPathOrZero(space: Space, tol: real, depth: nat, segments: seq<Segment>, t: seq<Mapping>, dot: real)
    requires NonNegative(space.dist) && Built(space, tol, depth, segments, t)
    ensures (forall k :: 0 <= k < |segments| ==> segments[k].Skip?) ==> DotToLengthOrZero(t, dot) == 0.0 == Length(t)
    ensures DotToLengthOrZero(t, dot) <= Length(t)
  {
    if forall k :: 0 <= k < |segments| ==> segments[k].Skip? {
      SkipOnlyUndrawn(segments);
    }
    BuiltTable(space, tol, depth, segments, t, t);
    LengthCases(t, space.dist);
    DotToLengthBelowLength(t, space.dist, dot);
  }

  /** A path of skips draws nothing. */
  lemma {:induction false} SkipOnlyUndrawn(segments: seq<Segment>)
    requires forall k :: 0 <= k < |segments| ==> segments[k].Skip?
    ensures Drawn(segments) == 0
    decreases |segments|
  {
    if segments != [] {
      SkipOnlyUndrawn(segments[..|segments| - 1]);
    }
  }

  /** A move followed by one line from a to b: the move takes the parameter
      range [-1, 0] and emits nothing, the line emits its chord over [0, 1]. */
  lemma SingleLinePieces(space: Space, tol: real, a: Point, b: Point)
    ensures PathChords(space, tol, 0, [Skip, Linear(a, b)]) == Some([Chord(0.0, 1.0, a, b)])
  {
    var segments := [Skip, Linear(a, b)];
    var move := segments[..1];
    assert move[..0] == [] && move[0] == Skip;
    assert PathChords(space, tol, 0, move[..0]) == Some([]);
    assert SegmentChords(space, tol, 0, move[0], 0) == Some([]);
    assert PathChords(space, tol, 0, move[..0]).value + SegmentChords(space, tol, 0, move[0], 0).value == [];
    assert PathChords(space, tol, 0, move) == Some([]);
    assert SegmentChords(space, tol, 0, segments[1], 1) == Some([Chord(0.0, 1.0, a, b)]);
    assert [] + [Chord(0.0, 1.0, a, b)] == [Chord(0.0, 1.0, a, b)];
  }

  /** The queries on the one-entry table over [0, 1] with total 5: half the
      length maps to half the parameter and back, the ends of the range map
      to 0 and 5, and values past the end clamp to the last entry. */
  lemma SingleLineQueries(a: Point, b: Point)
    ensures var t := [Mapping(0.0, 1.0, a, b, 5.0)];
      && Length(t) == 5.0
      && LengthToDot(t, 2.5) == 0.5 && DotToLength(t, 0.5) == Ok(2.5)
      && DotToLength(t, 0.0) == Ok(0.0) && DotToLength(t, 1.0) == Ok(5.0)
      && LengthToDot(t, 7.0) == 1.0 && DotToLength(t, 3.0) == Ok(5.0)
  {
    var t := [Mapping(0.0, 1.0, a, b, 5.0)];
    assert Before(t, 0) == 0.0;
    LengthToDotAt(t, 2.5, 0);
    DotToLengthAt(t, 0.5, 0);
    DotToLengthAt(t, 0.0, 0);
    SearchMiss(Distances(t), 7.0, 1);
    SearchMiss(DotEnds(t), 3.0, 1);
  }

  /** A line of length 5 over [-1, 0], a skip, and a line of length 3 over
      [1, 2]: inside the skip's gap (0, 1) `dotToLength` extrapolates the
      second entry's interpolation below the first entry's total, so it
      answers less at 0.5 than at 0. */
  lemma SkipGapQueries(a: Point, b: Point, c: Point, d: Point)
    ensures var t := [Mapping(-1.0, 0.0, a, b, 5.0), Mapping(1.0, 2.0, c, d, 8.0)];
      && DotToLength(t, 0.0) == Ok(5.0)
      && DotToLength(t, 0.5) == Ok(3.5)
      && DotToLength(t, 1.5) == Ok(6.5)
  {
    var t := [Mapping(-1.0, 0.0, a, b, 5.0), Mapping(1.0, 2.0, c, d, 8.0)];
    assert Before(t, 1) == 5.0 by {
      assert t[..1] == [t[0]];
    }
    DotToLengthAt(t, 0.5, 1);
    DotToLengthAt(t, 1.5, 1);
  }

  /** A single line of length 5 over [-1, 0]: before the first entry's start
      neither query clamps; both extrapolate the entry's interpolation, to a
      negative length at parameter -2 and back to parameter -2. */
  lemma BeforeFirstQueries(a: Point, b: Point)
    ensures var t := [Mapping(-1.0, 0.0, a, b, 5.0)];
      && DotToLength(t, -2.0) == Ok(-5.0)
      && LengthToDot(t, -5.0) == -2.0
  {
  }

  /** Flattening a move followed by one line of length 5 from a to b builds
      the single entry over [0, 1], with the query answers of
      `SingleLineQueries`. */
  method SingleLine(space: Space, tol: real, a: Point, b: Point) returns (t: seq<Mapping>)
    requires NonNegative(space.dist) && space.dist(b, a) == 5.0
    ensures t == [Mapping(0.0, 1.0, a, b, 5.0)]
    ensures LengthToDot(t, 2.5) == 0.5 && DotToLength(t, 0.5) == Ok(2.5)
  {
    SingleLinePieces(space, tol, a, b);
    t := Flatten([Skip, Linear(a, b)], tol, space, 0);
    var expected := [Mapping(0.0, 1.0, a, b, 5.0)];
    assert Before(expected, 0) == 0.0;
    assert Pieces(expected) == [Chord(0.0, 1.0, a, b)];
    RunningSumDetermined(t, expected, space.dist);
    SingleLineQueries(a, b);
  }

  /** A move, a line of length 5 from a to b, and a line of length 0 from c
      to c: the second line adds the entry over [1, 2] with the same total
      5. */
  lemma ZeroLengthEndPieces(space: Space, tol: real, a: Point, b: Point, c: Point)
    ensures PathChords(space, tol, 0, [Skip, Linear(a, b), Linear(c, c)])
         == Some([Chord(0.0, 1.0, a, b), Chord(1.0, 2.0, c, c)])
  {
    var segments := [Skip, Linear(a, b), Linear(c, c)];
    SingleLinePieces(space, tol, a, b);
    assert segments[..2] == [Skip, Linear(a, b)];
    assert PathChords(space, tol, 0, segments[..2]) == Some([Chord(0.0, 1.0, a, b)]);
    assert SegmentChords(space, tol, 0, segments[2], 2) == Some([Chord(1.0, 2.0, c, c)]);
    assert [Chord(0.0, 1.0, a, b)] + [Chord(1.0, 2.0, c, c)] == [Chord(0.0, 1.0, a, b), Chord(1.0, 2.0, c, c)];
  }

  /** On that table `length()` is 5, but `lengthToDot(length())` answers 1,
      the end of the first line, and not 2, the end of the path: both
      entries hold the total 5 and the search probes the first one. */
  lemma ZeroLengthEndQueries(a: Point, b: Point, c: Point)
    ensures var t := [Mapping(0.0, 1.0, a, b, 5.0), Mapping(1.0, 2.0, c, c, 5.0)];
      && Length(t) == 5.0
      && LengthToDot(t, Length(t)) == 1.0
      && t[|t| - 1].dotEnd == 2.0
  {
    var t := [Mapping(0.0, 1.0, a, b, 5.0), Mapping(1.0, 2.0, c, c, 5.0)];
    assert Distances(t) == [5.0, 5.0];
    assert BinarySearch(Distances(t), 5.0) == 0;
  }

  /** Flattening a move, a line of length 5 and a line of length 0 builds the
      two entries of `ZeroLengthEndQueries`, so for that path
      `lengthToDot(length())` stops short of the path's last parameter. */
  method ZeroLengthEnd(space: Space, tol: real, a: Point, b: Point, c: Point) returns (t: seq<Mapping>)
    requires NonNegative(space.dist) && space.dist(b, a) == 5.0 && space.dist(c, c) == 0.0
    ensures t == [Mapping(0.0, 1.0, a, b, 5.0), Mapping(1.0, 2.0, c, c, 5.0)]
    ensures LengthToDot(t, Length(t)) == 1.0 && Length(t) == 5.0
  {
    ZeroLengthEndPieces(space, tol, a, b, c);
    t := Flatten([Skip, Linear(a, b), Linear(c, c)], tol, space, 0);
    var expected := [Mapping(0.0, 1.0, a, b, 5.0), Mapping(1.0, 2.0, c, c, 5.0)];
    assert Before(expected, 0) == 0.0;
    assert Before(expected, 1) == 5.0 by {
      assert expected[..1] == [expected[0]];
    }
    assert Pieces(expected) == [Chord(0.0, 1.0, a, b), Chord(1.0, 2.0, c, c)];
    RunningSumDetermined(t, expected, space.dist);
    ZeroLengthEndQueries(a, b, c);
  }
}

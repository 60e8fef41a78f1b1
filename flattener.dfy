/** Building the table: the constructor walks the path's segments, appends
    one entry per linear segment and, for a cubic segment, one entry per piece
    of its recursive subdivision. */
module Flattener {
  import opened Geometry
  import opened Mappings

  datatype Option<T> = None | Some(value: T)

  /** What the path cursor reports for one step of the path. */
  datatype Segment =
    | Linear(a: Point, b: Point)
    | Cubic(a: Point, c1: Point, c2: Point, b: Point)
    | Skip

  /** The pieces `emitCubicFrame` emits for the cubic (a, c1, c2, b) over the
      parameter range [dotStart, dotEnd], in emission order: the chord itself
      when the cubic passes the flatness test, otherwise the pieces of the
      left half over [dotStart, mp] followed by those of the right half over
      [mp, dotEnd].  `None` when the recursion would go deeper than `depth`
      levels. */
  function CubicChords(space: Space, tol: real, depth: nat, dotStart: real, dotEnd: real,
                       a: Point, c1: Point, c2: Point, b: Point): Option<seq<Chord>>
    decreases depth
  {
    if space.flatness(a, c1, c2, b) > tol then
      if depth == 0 then None
      else
        var h := space.split(a, c1, c2, b);
        var mp := dotStart + (dotEnd - dotStart) * 0.5;
        var left := CubicChords(space, tol, depth - 1, dotStart, mp, a, h.c1, h.c12, h.m);
        var right := CubicChords(space, tol, depth - 1, mp, dotEnd, h.m, h.c21, h.c2, b);
        if left.Some? && right.Some? then Some(left.value + right.value) else None
    else
      Some([Chord(dotStart, dotEnd, a, b)])
  }

  /** The pieces one step of the constructor's loop emits for the segment at
      position `index`, whose parameter range is [index - 1, index]. */
  function SegmentChords(space: Space, tol: real, depth: nat, s: Segment, index: int): Option<seq<Chord>> {
    match s
    case Cubic(a, c1, c2, b) =>
      CubicChords(space, tol, depth, (index - 1) as real, index as real, a, c1, c2, b)
    case Linear(a, b) => Some([Chord((index - 1) as real, index as real, a, b)])
    case Skip => Some([])
  }

  /** The pieces the constructor emits for a whole path, in table order. */
  function PathChords(space: Space, tol: real, depth: nat, segments: seq<Segment>): Option<seq<Chord>>
    decreases |segments|
  {
    if segments == [] then Some([])
    else
      var n := |segments| - 1;
      var front := PathChords(space, tol, depth, segments[..n]);
      var last := SegmentChords(space, tol, depth, segments[n], n);
      if front.Some? && last.Some? then Some(front.value + last.value) else None
  }

  /** The pieces tile [lo, hi] in parameter: the first starts at lo, the last
      ends at hi, and each ends where the next starts. */
  ghost predicate Tiles(cs: seq<Chord>, lo: real, hi: real) {
    && |cs| > 0
    && cs[0].dotStart == lo
    && cs[|cs| - 1].dotEnd == hi
    && forall i :: 0 <= i < |cs| - 1 ==> cs[i].dotEnd == cs[i + 1].dotStart
  }

  /** The pieces form one connected polyline from a to b. */
  ghost predicate Joined(cs: seq<Chord>, a: Point, b: Point) {
    && |cs| > 0
    && cs[0].start == a
    && cs[|cs| - 1].end == b
    && forall i :: 0 <= i < |cs| - 1 ==> cs[i].end == cs[i + 1].start
  }

  /** Every piece lies in [lo, hi] with a positive parameter width, and none
      ends after the next one starts. */
  ghost predicate Increasing(cs: seq<Chord>, lo: real, hi: real) {
    && (forall i :: 0 <= i < |cs| ==> lo <= cs[i].dotStart < cs[i].dotEnd <= hi)
    && (forall i :: 0 <= i < |cs| - 1 ==> cs[i].dotEnd <= cs[i + 1].dotStart)
  }

  /** A cubic by its end points and control points. */
  datatype Bezier = Bezier(a: Point, c1: Point, c2: Point, b: Point)

  /** The left half (a, c1, c12, m) of the cubic split at its midpoint. */
  function LeftHalf(space: Space, x: Bezier): (l: Bezier)
    ensures l.a == x.a && l.b == space.split(x.a, x.c1, x.c2, x.b).m
  {
    var h := space.split(x.a, x.c1, x.c2, x.b);
    Bezier(x.a, h.c1, h.c12, h.m)
  }

  /** The right half (m, c21, c2, b) of the cubic split at its midpoint. */
  function RightHalf(space: Space, x: Bezier): (r: Bezier)
    ensures r.a == space.split(x.a, x.c1, x.c2, x.b).m && r.b == x.b
  {
    var h := space.split(x.a, x.c1, x.c2, x.b);
    Bezier(h.m, h.c21, h.c2, x.b)
  }

  /** x is c itself or is reached from c by at most k splits, each step
      keeping the left or the right half. */
  ghost predicate Descends(space: Space, k: nat, c: Bezier, x: Bezier)
    decreases k
  {
    || x == c
    || (k > 0 && (Descends(space, k - 1, LeftHalf(space, c), x)
                  || Descends(space, k - 1, RightHalf(space, c), x)))
  }

  /** The piece is the chord of a cubic that c splits into within k levels
      and that passed the flatness test. */
  ghost predicate FlatDescendant(space: Space, tol: real, k: nat, c: Bezier, p: Chord) {
    exists x: Bezier :: x.a == p.start && x.b == p.end && Descends(space, k, c, x)
                        && space.flatness(x.a, x.c1, x.c2, x.b) <= tol
  }

  /** Every piece is the chord of such a flat descendant of c. */
  ghost predicate AllFlat(space: Space, tol: real, k: nat, c: Bezier, cs: seq<Chord>) {
    forall i :: 0 <= i < |cs| ==> FlatDescendant(space, tol, k, c, cs[i])
  }

  lemma TilesConcat(x: seq<Chord>, y: seq<Chord>, lo: real, mid: real, hi: real)
    requires Tiles(x, lo, mid) && Tiles(y, mid, hi)
    ensures Tiles(x + y, lo, hi)
  {
    forall i | 0 <= i < |x + y| - 1
      ensures (x + y)[i].dotEnd == (x + y)[i + 1].dotStart
    {
      if i + 1 < |x| {
      } else if i + 1 == |x| {
        assert (x + y)[i] == x[|x| - 1] && (x + y)[i + 1] == y[0];
      } else {
        assert (x + y)[i] == y[i - |x|] && (x + y)[i + 1] == y[i - |x| + 1];
      }
    }
  }

  lemma JoinedConcat(x: seq<Chord>, y: seq<Chord>, a: Point, m: Point, b: Point)
    requires Joined(x, a, m) && Joined(y, m, b)
    ensures Joined(x + y, a, b)
  {
    forall i | 0 <= i < |x + y| - 1
      ensures (x + y)[i].end == (x + y)[i + 1].start
    {
      if i + 1 < |x| {
      } else if i + 1 == |x| {
        assert (x + y)[i] == x[|x| - 1] && (x + y)[i + 1] == y[0];
      } else {
        assert (x + y)[i] == y[i - |x|] && (x + y)[i + 1] == y[i - |x| + 1];
      }
    }
  }

  lemma IncreasingConcat(x: seq<Chord>, y: seq<Chord>, lo: real, mid: real, hi: real)
    requires Increasing(x, lo, mid) && Increasing(y, mid, hi) && lo <= mid <= hi
    ensures Increasing(x + y, lo, hi)
  {
    forall i | 0 <= i < |x + y|
      ensures lo <= (x + y)[i].dotStart < (x + y)[i].dotEnd <= hi
    {
      if i < |x| {
        assert (x + y)[i] == x[i];
      } else {
        assert (x + y)[i] == y[i - |x|];
      }
    }
    forall i | 0 <= i < |x + y| - 1
      ensures (x + y)[i].dotEnd <= (x + y)[i + 1].dotStart
    {
      if i + 1 < |x| {
      } else if i + 1 == |x| {
        assert (x + y)[i] == x[|x| - 1] && (x + y)[i + 1] == y[0];
      } else {
        assert (x + y)[i] == y[i - |x|] && (x + y)[i + 1] == y[i - |x| + 1];
      }
    }
  }

  lemma AllFlatConcat(space: Space, tol: real, k: nat, c: Bezier, x: seq<Chord>, y: seq<Chord>)
    requires AllFlat(space, tol, k, c, x) && AllFlat(space, tol, k, c, y)
    ensures AllFlat(space, tol, k, c, x + y)
  {
    forall i | 0 <= i < |x + y|
      ensures FlatDescendant(space, tol, k, c, (x + y)[i])
    {
      if i < |x| {
        assert (x + y)[i] == x[i];
      } else {
        assert (x + y)[i] == y[i - |x|];
      }
    }
  }

  /** A flat descendant of one half within k - 1 levels is a flat
      descendant of the whole within k levels. */
  lemma AllFlatLift(space: Space, tol: real, k: nat, c: Bezier, half: Bezier, cs: seq<Chord>)
    requires k > 0 && (half == LeftHalf(space, c) || half == RightHalf(space, c))
    requires AllFlat(space, tol, k - 1, half, cs)
    ensures AllFlat(space, tol, k, c, cs)
  {
  }

  /** What `emitCubicFrame` emits: a non-empty run of pieces that tiles
      [dotStart, dotEnd] and joins a to b, every piece the chord of a cubic
      reached from (a, c1, c2, b) by at most depth midpoint splits that
      passed the flatness test; a single piece exactly when the cubic
      itself is flat enough; and, for an increasing range, pieces in
      increasing parameter order inside it. */
  lemma {:induction false} CubicChordsTile(space: Space, tol: real, depth: nat, dotStart: real, dotEnd: real,
                                           a: Point, c1: Point, c2: Point, b: Point)
    requires CubicChords(space, tol, depth, dotStart, dotEnd, a, c1, c2, b).Some?
    ensures var cs := CubicChords(space, tol, depth, dotStart, dotEnd, a, c1, c2, b).value;
      && Tiles(cs, dotStart, dotEnd)
      && Joined(cs, a, b)
      && AllFlat(space, tol, depth, Bezier(a, c1, c2, b), cs)
      && (|cs| == 1 <==> space.flatness(a, c1, c2, b) <= tol)
      && (dotStart < dotEnd ==> Increasing(cs, dotStart, dotEnd))
    decreases depth
  {
    var cs := CubicChords(space, tol, depth, dotStart, dotEnd, a, c1, c2, b).value;
    if space.flatness(a, c1, c2, b) > tol {
      var h := space.split(a, c1, c2, b);
      var mp := dotStart + (dotEnd - dotStart) * 0.5;
      var left := CubicChords(space, tol, depth - 1, dotStart, mp, a, h.c1, h.c12, h.m).value;
      var right := CubicChords(space, tol, depth - 1, mp, dotEnd, h.m, h.c21, h.c2, b).value;
      CubicChordsTile(space, tol, depth - 1, dotStart, mp, a, h.c1, h.c12, h.m);
      CubicChordsTile(space, tol, depth - 1, mp, dotEnd, h.m, h.c21, h.c2, b);
      assert cs == left + right;
      TilesConcat(left, right, dotStart, mp, dotEnd);
      JoinedConcat(left, right, a, h.m, b);
      var c := Bezier(a, c1, c2, b);
      AllFlatLift(space, tol, depth, c, LeftHalf(space, c), left);
      AllFlatLift(space, tol, depth, c, RightHalf(space, c), right);
      AllFlatConcat(space, tol, depth, c, left, right);
      if dotStart < dotEnd {
        IncreasingConcat(left, right, dotStart, mp, dotEnd);
      }
    } else {
      assert cs[0] == Chord(dotStart, dotEnd, a, b);
      assert Descends(space, depth, Bezier(a, c1, c2, b), Bezier(a, c1, c2, b));
    }
  }

  /** A cubic that fails the flatness test is split at the parameter midpoint
      dotStart + (dotEnd - dotStart) * 0.5: the run begins with the pieces of
      the left half, which tile [dotStart, mp] and join a to the split point
      m, and continues with those of the right half, which tile [mp, dotEnd]
      and join m to b. */
  lemma CubicChordsSplit(space: Space, tol: real, depth: nat, dotStart: real, dotEnd: real,
                         a: Point, c1: Point, c2: Point, b: Point)
    requires CubicChords(space, tol, depth, dotStart, dotEnd, a, c1, c2, b).Some?
    requires space.flatness(a, c1, c2, b) > tol
    ensures var cs := CubicChords(space, tol, depth, dotStart, dotEnd, a, c1, c2, b).value;
      var mp := dotStart + (dotEnd - dotStart) * 0.5;
      var m := space.split(a, c1, c2, b).m;
      exists k :: 0 < k < |cs|
        && Tiles(cs[..k], dotStart, mp) && Joined(cs[..k], a, m)
        && Tiles(cs[k..], mp, dotEnd) && Joined(cs[k..], m, b)
  {
    var cs := CubicChords(space, tol, depth, dotStart, dotEnd, a, c1, c2, b).value;
    var h := space.split(a, c1, c2, b);
    var mp := dotStart + (dotEnd - dotStart) * 0.5;
    var left := CubicChords(space, tol, depth - 1, dotStart, mp, a, h.c1, h.c12, h.m).value;
    var right := CubicChords(space, tol, depth - 1, mp, dotEnd, h.m, h.c21, h.c2, b).value;
    CubicChordsTile(space, tol, depth - 1, dotStart, mp, a, h.c1, h.c12, h.m);
    CubicChordsTile(space, tol, depth - 1, mp, dotEnd, h.m, h.c21, h.c2, b);
    var k := |left|;
    assert cs[..k] == left && cs[k..] == right;
  }

  /** The depth bound only decides whether the subdivision finishes: once it
      does, a larger bound yields the same pieces. */
  lemma {:induction false} CubicChordsDepth(space: Space, tol: real, depth: nat, more: nat,
                                            dotStart: real, dotEnd: real,
                                            a: Point, c1: Point, c2: Point, b: Point)
    requires CubicChords(space, tol, depth, dotStart, dotEnd, a, c1, c2, b).Some?
    requires depth <= more
    ensures CubicChords(space, tol, more, dotStart, dotEnd, a, c1, c2, b)
         == CubicChords(space, tol, depth, dotStart, dotEnd, a, c1, c2, b)
    decreases depth
  {
    if space.flatness(a, c1, c2, b) > tol {
      var h := space.split(a, c1, c2, b);
      var mp := dotStart + (dotEnd - dotStart) * 0.5;
      CubicChordsDepth(space, tol, depth - 1, more - 1, dotStart, mp, a, h.c1, h.c12, h.m);
      CubicChordsDepth(space, tol, depth - 1, more - 1, mp, dotEnd, h.m, h.c21, h.c2, b);
    }
  }

  /** One step of the constructor's loop for the segment at position index:
      a skip emits nothing; a linear segment emits exactly its chord over
      [index - 1, index]; a cubic emits pieces in increasing parameter order
      that tile [index - 1, index] and join its two end points. */
  lemma SegmentChordsShape(space: Space, tol: real, depth: nat, s: Segment, index: int)
    requires SegmentChords(space, tol, depth, s, index).Some?
    ensures var cs := SegmentChords(space, tol, depth, s, index).value;
      && (s.Skip? <==> cs == [])
      && (s.Linear? ==> cs == [Chord((index - 1) as real, index as real, s.a, s.b)])
      && (!s.Skip? ==>
            && Tiles(cs, (index - 1) as real, index as real)
            && Joined(cs, s.a, s.b)
            && Increasing(cs, (index - 1) as real, index as real))
  {
    if s.Cubic? {
      CubicChordsTile(space, tol, depth, (index - 1) as real, index as real, s.a, s.c1, s.c2, s.b);
    }
  }

  /** If the whole path flattens within the depth bound, so does every prefix. */
  lemma {:induction false} PathChordsPrefix(space: Space, tol: real, depth: nat, segments: seq<Segment>, k: nat)
    requires PathChords(space, tol, depth, segments).Some? && k <= |segments|
    ensures PathChords(space, tol, depth, segments[..k]).Some?
    decreases |segments|
  {
    if k < |segments| {
      var n := |segments| - 1;
      PathChordsPrefix(space, tol, depth, segments[..n], k);
      assert segments[..n][..k] == segments[..k];
    } else {
      assert segments[..k] == segments;
    }
  }

  /** The path's pieces come in increasing parameter order inside
      [-1, |segments| - 1]: segment i covers [i - 1, i], and the pieces of a
      cubic stay inside its range. */
  lemma {:induction false} PathChordsOrdered(space: Space, tol: real, depth: nat, segments: seq<Segment>)
    requires PathChords(space, tol, depth, segments).Some?
    ensures Increasing(PathChords(space, tol, depth, segments).value, -1.0, (|segments| - 1) as real)
    decreases |segments|
  {
    if segments != [] {
      var n := |segments| - 1;
      var front := PathChords(space, tol, depth, segments[..n]).value;
      var last := SegmentChords(space, tol, depth, segments[n], n).value;
      PathChordsOrdered(space, tol, depth, segments[..n]);
      match segments[n] {
        case Cubic(a, c1, c2, b) =>
          CubicChordsTile(space, tol, depth, (n - 1) as real, n as real, a, c1, c2, b);
        case Linear(a, b) =>
        case Skip =>
      }
      IncreasingConcat(front, last, -1.0, (n - 1) as real, n as real);
    }
  }

  /** Without skips the path's pieces tile [-1, |segments| - 1]: each piece
      ends where the next one starts. */
  lemma {:induction false} PathChordsContiguous(space: Space, tol: real, depth: nat, segments: seq<Segment>)
    requires PathChords(space, tol, depth, segments).Some?
    requires |segments| > 0 && forall k :: 0 <= k < |segments| ==> !segments[k].Skip?
    ensures Tiles(PathChords(space, tol, depth, segments).value, -1.0, (|segments| - 1) as real)
    decreases |segments|
  {
    var n := |segments| - 1;
    var front := PathChords(space, tol, depth, segments[..n]).value;
    var last := SegmentChords(space, tol, depth, segments[n], n).value;
    match segments[n] {
      case Cubic(a, c1, c2, b) =>
        CubicChordsTile(space, tol, depth, (n - 1) as real, n as real, a, c1, c2, b);
      case Linear(a, b) =>
    }
    if n == 0 {
      assert front + last == last;
    } else {
      PathChordsContiguous(space, tol, depth, segments[..n]);
      TilesConcat(front, last, -1.0, (n - 1) as real, n as real);
    }
  }

  /** The number of segments that are not skips. */
  function Drawn(segments: seq<Segment>): nat {
    if segments == [] then 0
    else Drawn(segments[..|segments| - 1]) + (if segments[|segments| - 1].Skip? then 0 else 1)
  }

  /** Every segment that is not a skip contributes at least one piece, and a
      skip contributes none: the table is empty exactly when every segment is
      a skip. */
  lemma {:induction false} PathChordsCount(space: Space, tol: real, depth: nat, segments: seq<Segment>)
    requires PathChords(space, tol, depth, segments).Some?
    ensures |PathChords(space, tol, depth, segments).value| >= Drawn(segments)
    ensures Drawn(segments) == 0 ==> PathChords(space, tol, depth, segments).value == []
    decreases |segments|
  {
    if segments != [] {
      var n := |segments| - 1;
      PathChordsCount(space, tol, depth, segments[..n]);
      match segments[n]
      case Cubic(a, c1, c2, b) =>
        CubicChordsTile(space, tol, depth, (n - 1) as real, n as real, a, c1, c2, b);
      case Linear(a, b) =>
      case Skip =>
    }
  }

  /** `PathFlattener3`: the table built from a path, and the geometry and
      tolerance it was built with. */
  class PathFlattener3 {
    const space: Space
    const tol: real
    var mappings: seq<Mapping>

    ghost predicate Valid()
      reads this
    {
      NonNegative(space.dist) && RunningSum(mappings, space.dist)
    }

    /** Walks the segments once; `index` counts every step, skips included,
        so the segment at position i covers the parameter range [i - 1, i].
        The model requires that every cubic's subdivision finishes within
        `depth` levels. */
    constructor (segments: seq<Segment>, tol: real, space: Space, ghost depth: nat)
      requires NonNegative(space.dist)
      requires PathChords(space, tol, depth, segments).Some?
      ensures Valid() && this.space == space && this.tol == tol
      ensures Pieces(mappings) == PathChords(space, tol, depth, segments).value
      ensures Ordered(mappings)
    {
      this.space := space;
      this.tol := tol;
      mappings := [];
      new;
      var index := 0;
      while index < |segments|
        invariant 0 <= index <= |segments|
        invariant Valid()
        invariant PathChords(space, tol, depth, segments[..index]).Some?
        invariant Pieces(mappings) == PathChords(space, tol, depth, segments[..index]).value
      {
        PathChordsPrefix(space, tol, depth, segments, index + 1);
        assert segments[..index + 1][..index] == segments[..index];
        match segments[index] {
          case Cubic(a, c1, c2, b) =>
            EmitCubicFrame((index - 1) as real, index as real, a, c1, c2, b, depth);
          case Linear(a, b) =>
            EmitLinearFrame((index - 1) as real, index as real, a, b);
          case Skip =>
        }
        index := index + 1;
      }
      assert segments[..index] == segments;
      PathChordsOrdered(space, tol, depth, segments);
      PiecesAt(mappings);
    }

    /** Appends exactly one entry for the chord from a to b over
        [dotStart, dotEnd]; its running total is the chord length when the
        table was empty and the chord length plus the last total otherwise. */
    method EmitLinearFrame(dotStart: real, dotEnd: real, a: Point, b: Point)
      requires Valid()
      modifies this
      ensures Valid()
      ensures mappings == old(mappings) + [Entry(old(mappings), Chord(dotStart, dotEnd, a, b), space.dist)]
    {
      var total: real;
      if |mappings| == 0 {
        total := space.dist(b, a);
      } else {
        total := space.dist(b, a) + mappings[|mappings| - 1].cumulativeDistanceAtEnd;
      }
      AppendEntry(mappings, Chord(dotStart, dotEnd, a, b), space.dist);
      mappings := mappings + [Mapping(dotStart, dotEnd, a, b, total)];
    }

    /** Emits the pieces of the cubic (a, c1, c2, b) over [dotStart, dotEnd]:
        earlier entries stay as they were and the new entries carry exactly
        the pieces `CubicChords` describes, with their running totals. */
    method EmitCubicFrame(dotStart: real, dotEnd: real, a: Point, c1: Point, c2: Point, b: Point,
                          ghost depth: nat)
      requires Valid()
      requires CubicChords(space, tol, depth, dotStart, dotEnd, a, c1, c2, b).Some?
      modifies this
      ensures Valid()
      ensures Pieces(mappings) == Pieces(old(mappings)) + CubicChords(space, tol, depth, dotStart, dotEnd, a, c1, c2, b).value
      ensures mappings[..|old(mappings)|] == old(mappings)
      decreases depth
    {
      var f := space.flatness(a, c1, c2, b);
      if f > tol {
        var h := space.split(a, c1, c2, b);
        var mp := dotStart + (dotEnd - dotStart) * 0.5;
        EmitCubicFrame(dotStart, mp, a, h.c1, h.c12, h.m, depth - 1);
        EmitCubicFrame(mp, dotEnd, h.m, h.c21, h.c2, b, depth - 1);
      } else {
        EmitLinearFrame(dotStart, dotEnd, a, b);
      }
    }
  }
}

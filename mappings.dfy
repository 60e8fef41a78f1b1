/** The table the flattener builds: an ordered list of straight pieces, each
    carrying the running total of the chord lengths up to and including it. */
module Mappings {
  import opened Geometry

  /** One straight piece of the flattened path (`PathFlattener3.Mapping`): its
      parameter range, its end points, and the length of the polyline from the
      start of the table to the end of this piece. */
  datatype Mapping = Mapping(dotStart: real, dotEnd: real, start: Point, end: Point,
                             cumulativeDistanceAtEnd: real)
  {
    /** The piece without its running total. */
    function Piece(): Chord {
      Chord(dotStart, dotEnd, start, end)
    }
  }

  /** A straight piece before it is appended to the table. */
  datatype Chord = Chord(dotStart: real, dotEnd: real, start: Point, end: Point)

  /** The pieces of a table, in table order. */
  function Pieces(t: seq<Mapping>): seq<Chord> {
    seq(|t|, i requires 0 <= i < |t| => t[i].Piece())
  }

  /** Reading the pieces of a table entry by entry. */
  lemma PiecesAt(t: seq<Mapping>)
    ensures |Pieces(t)| == |t|
    ensures forall i :: 0 <= i < |t| ==> Pieces(t)[i] == t[i].Piece()
  {
  }

  /** `length()`: the total length covered by the table. */
  function Length(t: seq<Mapping>): real {
    if |t| < 1 then 0.0 else t[|t| - 1].cumulativeDistanceAtEnd
  }

  /** The running total reached before entry i, that is, the length of the
      table made of the first i entries. */
  function Before(t: seq<Mapping>, i: int): real
    requires 0 <= i <= |t|
  {
    Length(t[..i])
  }

  /** The entry `emitLinearFrame` appends to the table t for the piece c: the
      chord length (measured as `end.distanceFrom(start)`) added to the total
      so far. */
  function Entry(t: seq<Mapping>, c: Chord, dist: (Point, Point) -> real): Mapping {
    Mapping(c.dotStart, c.dotEnd, c.start, c.end, Length(t) + dist(c.end, c.start))
  }

  /** The table invariant: every running total is the total before the entry
      plus the entry's own chord length. */
  ghost predicate RunningSum(t: seq<Mapping>, dist: (Point, Point) -> real) {
    forall i :: 0 <= i < |t| ==>
      t[i].cumulativeDistanceAtEnd == Before(t, i) + dist(t[i].end, t[i].start)
  }

  /** The sum of the chord lengths of a run of pieces. */
  function TotalDistance(cs: seq<Chord>, dist: (Point, Point) -> real): real {
    if cs == [] then 0.0
    else TotalDistance(cs[..|cs| - 1], dist) + dist(cs[|cs| - 1].end, cs[|cs| - 1].start)
  }

  /** Appending one entry keeps the running sum, adds exactly the new piece
      and grows the total by its chord length. */
  lemma AppendEntry(t: seq<Mapping>, c: Chord, dist: (Point, Point) -> real)
    requires RunningSum(t, dist)
    ensures RunningSum(t + [Entry(t, c, dist)], dist)
    ensures Pieces(t + [Entry(t, c, dist)]) == Pieces(t) + [c]
    ensures Length(t + [Entry(t, c, dist)]) == Length(t) + dist(c.end, c.start)
  {
    var u := t + [Entry(t, c, dist)];
    forall i | 0 <= i < |u|
      ensures u[i].cumulativeDistanceAtEnd == Before(u, i) + dist(u[i].end, u[i].start)
    {
      assert u[..i] == t[..i];
    }
  }

  /** With non-negative distances the running totals are non-negative and
      never decrease along the table. */
  lemma {:induction false} CumulativeOrdered(t: seq<Mapping>, dist: (Point, Point) -> real, i: int, j: int)
    requires NonNegative(dist) && RunningSum(t, dist)
    requires 0 <= i <= j < |t|
    ensures 0.0 <= t[i].cumulativeDistanceAtEnd <= t[j].cumulativeDistanceAtEnd
    decreases j
  {
    if i < j {
      CumulativeOrdered(t, dist, i, j - 1);
      assert Before(t, j) == t[j - 1].cumulativeDistanceAtEnd;
    } else if 0 < i {
      CumulativeOrdered(t, dist, i - 1, i - 1);
      assert Before(t, i) == t[i - 1].cumulativeDistanceAtEnd;
    }
  }

  /** Every running total lies between 0 and the table's `length()`. */
  lemma LengthBoundsTable(t: seq<Mapping>, dist: (Point, Point) -> real)
    requires NonNegative(dist) && RunningSum(t, dist)
    ensures 0.0 <= Length(t)
    ensures forall i :: 0 <= i < |t| ==> 0.0 <= t[i].cumulativeDistanceAtEnd <= Length(t)
  {
    forall i | 0 <= i < |t|
      ensures 0.0 <= t[i].cumulativeDistanceAtEnd <= Length(t)
    {
      CumulativeOrdered(t, dist, i, |t| - 1);
    }
  }

  /** The running total before entry k is the sum of the chord lengths of the
      first k pieces. */
  lemma {:induction false} BeforeIsTotalDistance(t: seq<Mapping>, dist: (Point, Point) -> real, k: nat)
    requires RunningSum(t, dist) && k <= |t|
    ensures Before(t, k) == TotalDistance(Pieces(t)[..k], dist)
  {
    if k > 0 {
      BeforeIsTotalDistance(t, dist, k - 1);
      assert Pieces(t)[..k][..k - 1] == Pieces(t)[..k - 1];
      assert Before(t, k) == t[k - 1].cumulativeDistanceAtEnd;
    }
  }

  /** `length()` of a table with the running sum is the sum of its chord lengths. */
  lemma LengthIsTotalDistance(t: seq<Mapping>, dist: (Point, Point) -> real)
    requires RunningSum(t, dist)
    ensures Length(t) == TotalDistance(Pieces(t), dist)
  {
    BeforeIsTotalDistance(t, dist, |t|);
    assert t[..|t|] == t;
    assert Pieces(t)[..|t|] == Pieces(t);
  }

  /** A table with the running sum is determined by its pieces: the totals
      carry no information of their own. */
  lemma {:induction false} RunningSumDetermined(t: seq<Mapping>, u: seq<Mapping>, dist: (Point, Point) -> real)
    requires RunningSum(t, dist) && RunningSum(u, dist)
    requires Pieces(t) == Pieces(u)
    ensures t == u
  {
    forall i | 0 <= i < |t|
      ensures t[i] == u[i]
    {
      SameTotals(t, u, dist, i);
      assert t[i].Piece() == Pieces(t)[i] == Pieces(u)[i] == u[i].Piece();
    }
  }

  lemma {:induction false} SameTotals(t: seq<Mapping>, u: seq<Mapping>, dist: (Point, Point) -> real, i: nat)
    requires RunningSum(t, dist) && RunningSum(u, dist)
    requires Pieces(t) == Pieces(u) && i < |t|
    ensures t[i].cumulativeDistanceAtEnd == u[i].cumulativeDistanceAtEnd
  {
    assert t[i].Piece() == Pieces(t)[i] == Pieces(u)[i] == u[i].Piece();
    if i > 0 {
      SameTotals(t, u, dist, i - 1);
      assert Before(t, i) == t[i - 1].cumulativeDistanceAtEnd;
      assert Before(u, i) == u[i - 1].cumulativeDistanceAtEnd;
    }
  }

  /** The parameter order of every table the flattener builds: each entry has
      a positive parameter width and ends no later than the next one starts. */
  ghost predicate Ordered(t: seq<Mapping>) {
    (forall i :: 0 <= i < |t| ==> t[i].dotStart < t[i].dotEnd) &&
    (forall i :: 0 <= i < |t| - 1 ==> t[i].dotEnd <= t[i + 1].dotStart)
  }

  /** In an ordered table every entry ends no later than any later entry starts. */
  lemma {:induction false} OrderedSpan(t: seq<Mapping>, i: int, j: int)
    requires Ordered(t) && 0 <= i < j < |t|
    ensures t[i].dotEnd <= t[j].dotStart
    decreases j - i
  {
    if i + 1 < j {
      OrderedSpan(t, i + 1, j);
    }
  }
}

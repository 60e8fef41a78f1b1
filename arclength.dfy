/** The arc-length index: the queries `length`, `lengthToDot`, `dotToLength`
    and `getMappingSublist`, each a binary search of the table on one of two
    keys followed by a clamp, an exact hit or a linear interpolation inside
    the bracketing entry.  The table is read, never changed. */
module ArcLength {
  import opened Geometry
  import opened Mappings
  import opened Search

  /** A value, or the index at which a list access throws
      `IndexOutOfBoundsException`. */
  datatype Result<T> = Ok(value: T) | OutOfBounds(index: int)

  /** The key `searchDistance` compares: each entry's running total. */
  function Distances(t: seq<Mapping>): seq<real> {
    seq(|t|, i requires 0 <= i < |t| => t[i].cumulativeDistanceAtEnd)
  }

  /** The key `searchDot` compares: each entry's end parameter. */
  function DotEnds(t: seq<Mapping>): seq<real> {
    seq(|t|, i requires 0 <= i < |t| => t[i].dotEnd)
  }

  /** Reading the two search keys entry by entry. */
  lemma KeysAt(t: seq<Mapping>)
    ensures |Distances(t)| == |t| && |DotEnds(t)| == |t|
    ensures forall i :: 0 <= i < |t| ==> Distances(t)[i] == t[i].cumulativeDistanceAtEnd
    ensures forall i :: 0 <= i < |t| ==> DotEnds(t)[i] == t[i].dotEnd
  {
  }

  /** x lies between p and q, whichever of the two is larger. */
  predicate Between(x: real, p: real, q: real) {
    (p <= x <= q) || (q <= x <= p)
  }

  /** The fraction of the way from l1 to l2 at which v lies. */
  function Fraction(l1: real, v: real, l2: real): real
    requires l1 != l2
  {
    (v - l1) / (l2 - l1)
  }

  /** Linear interpolation from p (at fraction 0) to q (at fraction 1). */
  function Lerp(p: real, q: real, x: real): real {
    p * (1.0 - x) + x * q
  }

  /** `lengthToDot`: the curve parameter at arc length `length`. */
  function LengthToDot(t: seq<Mapping>, length: real): real {
    if length == 0.0 then 0.0
    else if |t| == 0 then 0.0
    else
      var found := BinarySearch(Distances(t), length);
      if found >= 0 then t[found].dotEnd
      else
        var leftOf := -found - 1;
        var rightOf := leftOf - 1;
        if leftOf > |t| - 1 then t[|t| - 1].dotEnd
        else
          var l1 := if rightOf >= 0 then t[rightOf].cumulativeDistanceAtEnd else 0.0;
          var l2 := t[leftOf].cumulativeDistanceAtEnd;
          if l2 == l1 then t[leftOf].dotEnd
          else
            var x := Fraction(l1, length, l2);
            Lerp(t[leftOf].dotStart, t[leftOf].dotEnd, x)
  }

  /** `dotToLength`: the arc length at curve parameter `dot`.  Two branches
      read the entry before the bracketing one without checking that there
      is one; there the list access throws. */
  function DotToLength(t: seq<Mapping>, dot: real): Result<real> {
    var found := BinarySearch(DotEnds(t), dot);
    if found >= 0 then Ok(t[found].cumulativeDistanceAtEnd)
    else
      var leftOf := -found - 1;
      var rightOf := leftOf - 1;
      if leftOf > |t| - 1 then
        if |t| - 1 >= 0 then Ok(t[|t| - 1].cumulativeDistanceAtEnd) else OutOfBounds(|t| - 1)
      else
        var l1 := t[leftOf].dotStart;
        var l2 := t[leftOf].dotEnd;
        if l2 == l1 then
          if rightOf >= 0 then Ok(t[rightOf].cumulativeDistanceAtEnd) else OutOfBounds(rightOf)
        else
          var x := Fraction(l1, dot, l2);
          Ok(Lerp(if rightOf >= 0 then t[rightOf].cumulativeDistanceAtEnd else 0.0,
                  t[leftOf].cumulativeDistanceAtEnd, x))
  }

  /** `List.subList(0, toIndex)`: the first toIndex entries, or the exception
      when toIndex is past the end. */
  function SubList(t: seq<Mapping>, toIndex: int): Result<seq<Mapping>> {
    if 0 <= toIndex <= |t| then Ok(t[..toIndex]) else OutOfBounds(toIndex)
  }

  /** `getMappingSublist`: the table up to and including the entry that the
      search on running totals finds or would insert `length` before. */
  function GetMappingSublist(t: seq<Mapping>, length: real): Result<seq<Mapping>> {
    var found := BinarySearch(Distances(t), length);
    if found >= 0 then SubList(t, found + 1)
    else SubList(t, -found - 1 + 1)
  }

  /** `dotToLength` with both out-of-range reads answered by 0, the total
      before the first entry, as `length()` and `lengthToDot` answer for an
      empty table: it never throws and agrees with `dotToLength` wherever
      that returns. */
  function DotToLengthOrZero(t: seq<Mapping>, dot: real): (r: real)
    ensures |t| == 0 ==> r == 0.0 == Length(t) == LengthToDot(t, dot)
    ensures DotToLength(t, dot).Ok? ==> r == DotToLength(t, dot).value
  {
    match DotToLength(t, dot)
    case Ok(v) => v
    case OutOfBounds(_) => 0.0
  }

  // ----- the two keys are in search order on every built table -----

  /** With non-negative chord lengths the running totals are in the order
      `searchDistance` needs. */
  lemma DistancesSorted(t: seq<Mapping>, dist: (Point, Point) -> real)
    requires NonNegative(dist) && RunningSum(t, dist)
    ensures Sorted(Distances(t))
  {
    forall i, j | 0 <= i <= j < |t|
      ensures Distances(t)[i] <= Distances(t)[j]
    {
      CumulativeOrdered(t, dist, i, j);
    }
  }

  /** In an ordered table the end parameters strictly increase: they are in
      the order `searchDot` needs, and no two entries share one. */
  lemma DotEndsIncreasing(t: seq<Mapping>)
    requires Ordered(t)
    ensures Sorted(DotEnds(t))
    ensures forall i, j :: 0 <= i < j < |t| ==> t[i].dotEnd < t[j].dotEnd
  {
    forall i, j | 0 <= i < j < |t|
      ensures t[i].dotEnd < t[j].dotEnd
    {
      OrderedSpan(t, i, j);
    }
  }

  // ----- arithmetic of the interpolation -----

  lemma MulBetween(x: real, w: real)
    requires 0.0 <= x <= 1.0 && 0.0 <= w
    ensures 0.0 <= x * w <= w
  {
  }

  /** A value inside [l1, l2] lies at a fraction inside [0, 1], strictly
      inside when the value is strictly inside. */
  lemma FractionBounds(l1: real, v: real, l2: real)
    requires l1 < l2 && l1 <= v <= l2
    ensures 0.0 <= Fraction(l1, v, l2) <= 1.0
    ensures l1 < v < l2 ==> 0.0 < Fraction(l1, v, l2) < 1.0
  {
    var d := l2 - l1;
    assert 0.0 <= (v - l1) / d;
    assert 0.0 <= (l2 - v) / d;
    assert (v - l1) / d + (l2 - v) / d == 1.0;
    if l1 < v < l2 {
      assert 0.0 < (v - l1) / d;
      assert 0.0 < (l2 - v) / d;
    }
  }

  /** Interpolation at a fraction in [0, 1] stays between its two ends,
      strictly inside when the fraction is strictly inside and the ends
      differ. */
  lemma LerpBetween(p: real, q: real, x: real)
    requires 0.0 <= x <= 1.0
    ensures Between(Lerp(p, q, x), p, q)
    ensures 0.0 < x < 1.0 && p < q ==> p < Lerp(p, q, x) < q
  {
    var w := q - p;
    assert Lerp(p, q, x) == p + x * w;
    if p <= q {
      MulBetween(x, w);
      if 0.0 < x < 1.0 && p < q {
        LerpStrict(p, q, x);
      }
    } else {
      MulBetween(x, -w);
      assert x * -w == -(x * w);
    }
  }

  /** Interpolating strictly inside (0, 1) between two different ends lands
      strictly between them. */
  lemma LerpStrict(p: real, q: real, x: real)
    requires 0.0 < x < 1.0 && p < q
    ensures p < Lerp(p, q, x) < q
  {
    var w := q - p;
    var y := 1.0 - x;
    MulStrictlyPositive(x, w);
    MulStrictlyPositive(y, w);
    assert Lerp(p, q, x) == p + x * w;
    assert Lerp(p, q, x) == q - y * w;
  }

  /** Interpolating upwards at a fraction of at most 1 never passes the upper
      end. */
  lemma LerpAtMost(p: real, q: real, x: real)
    requires p <= q && x <= 1.0
    ensures Lerp(p, q, x) <= q
  {
    assert Lerp(p, q, x) == q - (1.0 - x) * (q - p);
    MulNonNegative(1.0 - x, q - p);
  }

  lemma FractionAtMostOne(l1: real, v: real, l2: real)
    requires l1 < l2 && v <= l2
    ensures Fraction(l1, v, l2) <= 1.0
  {
    var d := l2 - l1;
    var x := Fraction(l1, v, l2);
    assert x * d == v - l1;
    if x > 1.0 {
      MulStrictlyPositive(x - 1.0, d);
      assert x * d - d == (x - 1.0) * d;
    }
  }

  lemma MulStrictlyPositive(x: real, w: real)
    requires 0.0 < x && 0.0 < w
    ensures 0.0 < x * w
  {
  }

  lemma MulNonNegative(x: real, w: real)
    requires 0.0 <= x && 0.0 <= w
    ensures 0.0 <= x * w
  {
  }

  /** Interpolating from l1 to l2 at the fraction where v lies gives v back. */
  lemma LerpOfFraction(l1: real, v: real, l2: real)
    requires l1 != l2
    ensures Lerp(l1, l2, Fraction(l1, v, l2)) == v
  {
    var x := Fraction(l1, v, l2);
    assert x * (l2 - l1) == v - l1;
    assert Lerp(l1, l2, x) == l1 + x * (l2 - l1);
  }

  /** The fraction at which an interpolated value lies is the fraction it was
      made from. */
  lemma FractionOfLerp(p: real, q: real, x: real)
    requires p != q
    ensures Fraction(p, Lerp(p, q, x), q) == x
  {
    assert Lerp(p, q, x) - p == x * (q - p);
  }

  // ----- the queries -----

  /** `length()`: 0 on an empty table; on a table with the running sum, the
      sum of all chord lengths, at least every running total. */
  lemma LengthCases(t: seq<Mapping>, dist: (Point, Point) -> real)
    requires NonNegative(dist) && RunningSum(t, dist)
    ensures |t| == 0 ==> Length(t) == 0.0
    ensures Length(t) == TotalDistance(Pieces(t), dist)
    ensures forall i :: 0 <= i < |t| ==> 0.0 <= t[i].cumulativeDistanceAtEnd <= Length(t)
  {
    LengthIsTotalDistance(t, dist);
    LengthBoundsTable(t, dist);
  }

  /** Where the search on running totals misses with insertion point j inside
      the table, `lengthToDot` answers from entry j: its end parameter when
      the bracket [total before j, total of j] has zero width, otherwise the
      parameter interpolated at the fraction of the bracket that `length`
      reaches. */
  lemma LengthToDotAt(t: seq<Mapping>, length: real, j: int)
    requires Sorted(Distances(t)) && length != 0.0
    requires 0 <= j < |t| && InsertionPoint(Distances(t), length, j)
    ensures LengthToDot(t, length) ==
      if Before(t, j) == t[j].cumulativeDistanceAtEnd then t[j].dotEnd
      else Lerp(t[j].dotStart, t[j].dotEnd, Fraction(Before(t, j), length, t[j].cumulativeDistanceAtEnd))
  {
    SearchMiss(Distances(t), length, j);
    assert Before(t, j) == if j - 1 >= 0 then t[j - 1].cumulativeDistanceAtEnd else 0.0;
  }

  /** Where the search on end parameters misses with insertion point j inside
      the table, `dotToLength` answers from entry j: when j has zero
      parameter width, the running total of the entry before it (which
      throws for j = 0), otherwise the running total interpolated between
      the totals before and after j. */
  lemma DotToLengthAt(t: seq<Mapping>, dot: real, j: int)
    requires Sorted(DotEnds(t))
    requires 0 <= j < |t| && InsertionPoint(DotEnds(t), dot, j)
    ensures DotToLength(t, dot) ==
      if t[j].dotStart == t[j].dotEnd then
        (if 1 <= j then Ok(t[j - 1].cumulativeDistanceAtEnd) else OutOfBounds(-1))
      else Ok(Lerp(Before(t, j), t[j].cumulativeDistanceAtEnd, Fraction(t[j].dotStart, dot, t[j].dotEnd)))
  {
    SearchMiss(DotEnds(t), dot, j);
    assert Before(t, j) == if j - 1 >= 0 then t[j - 1].cumulativeDistanceAtEnd else 0.0;
  }

  /** A key greater than the last of a sorted run of keys is not among them
      and belongs after all of them. */
  lemma PastTheEnd(keys: seq<real>, key: real)
    requires Sorted(keys) && 0 < |keys| && keys[|keys| - 1] < key
    ensures InsertionPoint(keys, key, |keys|)
  {
    forall i | 0 <= i < |keys| ensures keys[i] < key {
      assert keys[i] <= keys[|keys| - 1];
    }
  }

  /** `lengthToDot` on a table sorted by running total: 0 for length 0 or an
      empty table; the end parameter of an entry holding the length on an
      exact hit; the last end parameter past the end of the table. */
  lemma LengthToDotCases(t: seq<Mapping>, length: real)
    requires Sorted(Distances(t))
    ensures length == 0.0 || |t| == 0 ==> LengthToDot(t, length) == 0.0
    ensures length != 0.0 && length in Distances(t) ==>
      exists i :: 0 <= i < |t| && t[i].cumulativeDistanceAtEnd == length && LengthToDot(t, length) == t[i].dotEnd
    ensures length != 0.0 && 0 < |t| && Length(t) < length ==> LengthToDot(t, length) == t[|t| - 1].dotEnd
  {
    if length != 0.0 && 0 < |t| && Length(t) < length {
      PastTheEnd(Distances(t), length);
      SearchMiss(Distances(t), length, |t|);
    }
  }

  /** `lengthToDot` inside the table: with insertion point j, a zero-width
      bracket answers entry j's end parameter, and a positive length answers
      a parameter inside entry j's range. */
  lemma LengthToDotBracket(t: seq<Mapping>, length: real, j: int)
    requires Sorted(Distances(t)) && length != 0.0
    requires 0 <= j < |t| && InsertionPoint(Distances(t), length, j)
    ensures Before(t, j) == t[j].cumulativeDistanceAtEnd ==> LengthToDot(t, length) == t[j].dotEnd
    ensures 0.0 < length ==> Between(LengthToDot(t, length), t[j].dotStart, t[j].dotEnd)
  {
    KeysAt(t);
    LengthToDotAt(t, length, j);
    var l1, l2 := Before(t, j), t[j].cumulativeDistanceAtEnd;
    if 0.0 < length && l1 != l2 {
      assert l1 == if j - 1 >= 0 then t[j - 1].cumulativeDistanceAtEnd else 0.0;
      FractionBounds(l1, length, l2);
      LerpBetween(t[j].dotStart, t[j].dotEnd, Fraction(l1, length, l2));
    }
  }

  /** `dotToLength` on a table sorted by end parameter: it throws exactly on
      an empty table (reading index -1) or when `dot` falls before the first
      entry's end and that entry has zero parameter width; an exact hit
      returns the running total of an entry ending at `dot`; past the last
      entry it returns `length()`. */
  lemma DotToLengthCases(t: seq<Mapping>, dot: real)
    requires Sorted(DotEnds(t))
    ensures DotToLength(t, dot).OutOfBounds? <==>
      |t| == 0 || (dot < t[0].dotEnd && t[0].dotStart == t[0].dotEnd)
    ensures |t| == 0 ==> DotToLength(t, dot) == OutOfBounds(-1)
    ensures dot in DotEnds(t) ==>
      exists i :: 0 <= i < |t| && t[i].dotEnd == dot && DotToLength(t, dot) == Ok(t[i].cumulativeDistanceAtEnd)
    ensures 0 < |t| && t[|t| - 1].dotEnd < dot ==> DotToLength(t, dot) == Ok(Length(t))
  {
    var keys := DotEnds(t);
    var found := BinarySearch(keys, dot);
    if 0 < |t| && t[|t| - 1].dotEnd < dot {
      PastTheEnd(keys, dot);
      SearchMiss(keys, dot, |t|);
    }
    if 0 < |t| && dot < t[0].dotEnd {
      forall i | 0 <= i < |t| ensures dot < keys[i] {
        assert keys[0] <= keys[i];
      }
      DotToLengthAt(t, dot, 0);
    }
    if found < 0 && 0 < -found - 1 < |t| {
      DotToLengthAt(t, dot, -found - 1);
    }
  }

  /** `dotToLength` inside the table: with insertion point j, a `dot` at or
      after entry j's start, and j of positive parameter width, the answer
      is a running total between the totals before and after entry j. */
  lemma DotToLengthBracket(t: seq<Mapping>, dot: real, j: int)
    requires Sorted(DotEnds(t))
    requires 0 <= j < |t| && InsertionPoint(DotEnds(t), dot, j)
    requires t[j].dotStart <= dot && t[j].dotStart != t[j].dotEnd
    ensures DotToLength(t, dot).Ok?
    ensures Between(DotToLength(t, dot).value, Before(t, j), t[j].cumulativeDistanceAtEnd)
  {
    KeysAt(t);
    DotToLengthAt(t, dot, j);
    FractionBounds(t[j].dotStart, dot, t[j].dotEnd);
    LerpBetween(Before(t, j), t[j].cumulativeDistanceAtEnd, Fraction(t[j].dotStart, dot, t[j].dotEnd));
  }

  /** `getMappingSublist` on a table sorted by running total: it throws
      exactly when the table is empty or `length` is past `length()`;
      otherwise it returns a non-empty prefix of the table whose last entry
      reaches `length` and whose earlier entries do not pass it; on an exact
      hit the prefix ends at an entry holding `length`. */
  lemma GetMappingSublistCases(t: seq<Mapping>, length: real)
    requires Sorted(Distances(t))
    ensures GetMappingSublist(t, length).OutOfBounds? <==> |t| == 0 || Length(t) < length
    ensures GetMappingSublist(t, length).Ok? ==>
      var p := GetMappingSublist(t, length).value;
      && 0 < |p| <= |t| && p == t[..|p|]
      && length <= t[|p| - 1].cumulativeDistanceAtEnd
      && forall i :: 0 <= i < |p| - 1 ==> t[i].cumulativeDistanceAtEnd <= length
    ensures length in Distances(t) ==>
      (GetMappingSublist(t, length).Ok?
       && t[|GetMappingSublist(t, length).value| - 1].cumulativeDistanceAtEnd == length)
  {
    KeysAt(t);
    var keys := Distances(t);
    var found := BinarySearch(keys, length);
    if 0 < |t| && Length(t) < length {
      PastTheEnd(keys, length);
      SearchMiss(keys, length, |t|);
    }
    if 0 <= found {
      forall i | 0 <= i < found
        ensures t[i].cumulativeDistanceAtEnd <= length
      {
        assert keys[i] <= keys[found];
      }
    }
    if 0 < |t| && length <= Length(t) && found < 0 {
      assert keys[|t| - 1] >= length;
    }
  }

  /** On a table with the running sum and in parameter order, whatever
      `dotToLength` returns is at most `length()`.  (There is no matching
      lower bound: before the first entry's start, and inside a gap that a
      skip leaves between two entries, the answer is extrapolated below the
      total before the bracketing entry.) */
  lemma DotToLengthBelowLength(t: seq<Mapping>, dist: (Point, Point) -> real, dot: real)
    requires NonNegative(dist) && RunningSum(t, dist) && Ordered(t)
    ensures DotToLength(t, dot).Ok? ==> DotToLength(t, dot).value <= Length(t)
  {
    DotEndsIncreasing(t);
    LengthBoundsTable(t, dist);
    var found := BinarySearch(DotEnds(t), dot);
    if found >= 0 {
      assert DotToLength(t, dot) == Ok(t[found].cumulativeDistanceAtEnd);
    } else if -found - 1 < |t| {
      InterpolatedBelow(t, dist, dot, -found - 1);
    }
  }

  /** Where the search on end parameters misses inside the table, the answer
      is at most the bracketing entry's running total: the interpolation
      fraction never exceeds 1 because `dot` lies below the entry's end. */
  lemma InterpolatedBelow(t: seq<Mapping>, dist: (Point, Point) -> real, dot: real, j: int)
    requires NonNegative(dist) && RunningSum(t, dist) && Ordered(t) && Sorted(DotEnds(t))
    requires 0 <= j < |t| && InsertionPoint(DotEnds(t), dot, j)
    ensures DotToLength(t, dot).Ok? && DotToLength(t, dot).value <= t[j].cumulativeDistanceAtEnd
  {
    var ds, de := t[j].dotStart, t[j].dotEnd;
    var l1, l2 := Before(t, j), t[j].cumulativeDistanceAtEnd;
    DotToLengthAt(t, dot, j);
    assert ds < de;
    assert dot < de by {
      assert DotEnds(t)[j] == de;
    }
    assert l1 <= l2 by {
      assert dist(t[j].end, t[j].start) >= 0.0;
    }
    FractionAtMostOne(ds, dot, de);
    LerpAtMost(l1, l2, Fraction(ds, dot, de));
  }

  // ----- round trips -----

  /** In a table with the running sum and in parameter order, a length
      strictly inside entry j lies at insertion point j of the running
      totals, and a parameter strictly inside entry j lies at insertion
      point j of the end parameters. */
  lemma InsideEntry(t: seq<Mapping>, dist: (Point, Point) -> real, j: int, length: real, dot: real)
    requires NonNegative(dist) && RunningSum(t, dist) && Ordered(t)
    requires 0 <= j < |t|
    ensures Before(t, j) < length < t[j].cumulativeDistanceAtEnd ==> InsertionPoint(Distances(t), length, j)
    ensures t[j].dotStart < dot < t[j].dotEnd ==> InsertionPoint(DotEnds(t), dot, j)
    ensures 0.0 <= Before(t, j)
  {
    var distances, dots := Distances(t), DotEnds(t);
    DistancesSorted(t, dist);
    DotEndsIncreasing(t);
    assert Before(t, j) == if j - 1 >= 0 then t[j - 1].cumulativeDistanceAtEnd else 0.0;
    if j > 0 {
      CumulativeOrdered(t, dist, j - 1, j - 1);
    }
    if Before(t, j) < length < t[j].cumulativeDistanceAtEnd {
      forall i | 0 <= i < j ensures distances[i] < length {
        assert distances[i] <= distances[j - 1];
      }
      forall i | j <= i < |t| ensures length < distances[i] {
        assert distances[j] <= distances[i];
      }
    }
    if t[j].dotStart < dot < t[j].dotEnd {
      forall i | 0 <= i < j ensures dots[i] < dot {
        OrderedSpan(t, i, j);
      }
      forall i | j <= i < |t| ensures dot < dots[i] {
        assert dots[j] <= dots[i];
      }
    }
  }

  /** On a table with the running sum and in parameter order, mapping a
      length strictly inside an entry to a parameter and back gives the same
      length. */
  lemma LengthDotLength(t: seq<Mapping>, dist: (Point, Point) -> real, j: int, length: real)
    requires NonNegative(dist) && RunningSum(t, dist) && Ordered(t)
    requires 0 <= j < |t| && Before(t, j) < length < t[j].cumulativeDistanceAtEnd
    ensures DotToLength(t, LengthToDot(t, length)) == Ok(length)
  {
    DistancesSorted(t, dist);
    DotEndsIncreasing(t);
    var l1, l2 := Before(t, j), t[j].cumulativeDistanceAtEnd;
    var ds, de := t[j].dotStart, t[j].dotEnd;
    InsideEntry(t, dist, j, length, ds);
    LengthToDotAt(t, length, j);
    var x := Fraction(l1, length, l2);
    FractionBounds(l1, length, l2);
    LerpBetween(ds, de, x);
    var dot := Lerp(ds, de, x);
    InsideEntry(t, dist, j, length, dot);
    DotToLengthAt(t, dot, j);
    FractionOfLerp(ds, de, x);
    LerpOfFraction(l1, length, l2);
  }

  /** On a table with the running sum and in parameter order, mapping a
      parameter strictly inside an entry of positive length to a length and
      back gives the same parameter. */
  lemma DotLengthDot(t: seq<Mapping>, dist: (Point, Point) -> real, j: int, dot: real)
    requires NonNegative(dist) && RunningSum(t, dist) && Ordered(t)
    requires 0 <= j < |t| && t[j].dotStart < dot < t[j].dotEnd
    requires Before(t, j) < t[j].cumulativeDistanceAtEnd
    ensures DotToLength(t, dot).Ok?
    ensures LengthToDot(t, DotToLength(t, dot).value) == dot
  {
    DistancesSorted(t, dist);
    DotEndsIncreasing(t);
    var l1, l2 := Before(t, j), t[j].cumulativeDistanceAtEnd;
    var ds, de := t[j].dotStart, t[j].dotEnd;
    InsideEntry(t, dist, j, l1, dot);
    DotToLengthAt(t, dot, j);
    var x := Fraction(ds, dot, de);
    FractionBounds(ds, dot, de);
    LerpBetween(l1, l2, x);
    var length := Lerp(l1, l2, x);
    InsideEntry(t, dist, j, length, dot);
    LengthToDotAt(t, length, j);
    FractionOfLerp(l1, l2, x);
    LerpOfFraction(ds, dot, de);
  }

  /** A non-zero length equal to some entry's running total is answered with
      the end parameter of an entry holding that total (not necessarily the
      first or the last of several). */
  lemma LengthToDotOfTotal(t: seq<Mapping>, j: int)
    requires Sorted(Distances(t))
    requires 0 <= j < |t| && t[j].cumulativeDistanceAtEnd != 0.0
    ensures exists k :: 0 <= k < |t| && t[k].cumulativeDistanceAtEnd == t[j].cumulativeDistanceAtEnd
                        && LengthToDot(t, t[j].cumulativeDistanceAtEnd) == t[k].dotEnd
  {
    KeysAt(t);
    assert Distances(t)[j] == t[j].cumulativeDistanceAtEnd;
  }

  /** In a table in parameter order, `dotToLength` at an entry's end
      parameter hits exactly that entry and answers its running total. */
  lemma DotToLengthAtEnd(t: seq<Mapping>, k: int)
    requires Ordered(t) && 0 <= k < |t|
    ensures DotToLength(t, t[k].dotEnd) == Ok(t[k].cumulativeDistanceAtEnd)
  {
    KeysAt(t);
    DotEndsIncreasing(t);
    assert DotEnds(t)[k] == t[k].dotEnd;
  }

  /** When the last chord has positive length, `lengthToDot(length())` is the
      last entry's end parameter: no earlier running total reaches
      `length()`, so the search can only hit the last entry. */
  lemma LengthToDotOfLength(t: seq<Mapping>, dist: (Point, Point) -> real)
    requires NonNegative(dist) && RunningSum(t, dist)
    requires 0 < |t| && Before(t, |t| - 1) < Length(t)
    ensures LengthToDot(t, Length(t)) == t[|t| - 1].dotEnd
  {
    var n := |t| - 1;
    forall i | 0 <= i < n
      ensures t[i].cumulativeDistanceAtEnd < Length(t)
    {
      CumulativeOrdered(t, dist, i, n - 1);
      assert Before(t, n) == t[n - 1].cumulativeDistanceAtEnd;
    }
    assert 0.0 <= Before(t, n) by {
      if n > 0 {
        CumulativeOrdered(t, dist, n - 1, n - 1);
        assert Before(t, n) == t[n - 1].cumulativeDistanceAtEnd;
      }
    }
    assert Length(t) == t[n].cumulativeDistanceAtEnd;
    DistancesSorted(t, dist);
    LengthToDotOfTotal(t, n);
    var k :| 0 <= k < |t| && t[k].cumulativeDistanceAtEnd == t[n].cumulativeDistanceAtEnd
             && LengthToDot(t, t[n].cumulativeDistanceAtEnd) == t[k].dotEnd;
    assert k == n;
  }

  /** On a table with the running sum and in parameter order, mapping any
      non-zero running total to a parameter and back gives the same total:
      `lengthToDot` answers the end parameter of some entry holding that
      total, and `dotToLength` hits exactly that entry. */
  lemma EndRoundTrip(t: seq<Mapping>, dist: (Point, Point) -> real, j: int)
    requires NonNegative(dist) && RunningSum(t, dist) && Ordered(t)
    requires 0 <= j < |t| && t[j].cumulativeDistanceAtEnd != 0.0
    ensures DotToLength(t, LengthToDot(t, t[j].cumulativeDistanceAtEnd)) == Ok(t[j].cumulativeDistanceAtEnd)
  {
    DistancesSorted(t, dist);
    LengthToDotOfTotal(t, j);
    var k :| 0 <= k < |t| && t[k].cumulativeDistanceAtEnd == t[j].cumulativeDistanceAtEnd
             && LengthToDot(t, t[j].cumulativeDistanceAtEnd) == t[k].dotEnd;
    DotToLengthAtEnd(t, k);
  }

  /** The other direction at an entry's end: the running total there maps
      back to that end parameter when no other entry holds the same total
      (no zero-length piece next to it) and the total is not zero. */
  lemma DotLengthDotAtEnd(t: seq<Mapping>, dist: (Point, Point) -> real, k: int)
    requires NonNegative(dist) && RunningSum(t, dist) && Ordered(t)
    requires 0 <= k < |t| && t[k].cumulativeDistanceAtEnd != 0.0
    requires forall i :: 0 <= i < |t| && i != k ==> t[i].cumulativeDistanceAtEnd != t[k].cumulativeDistanceAtEnd
    ensures DotToLength(t, t[k].dotEnd).Ok?
    ensures LengthToDot(t, DotToLength(t, t[k].dotEnd).value) == t[k].dotEnd
  {
    DotToLengthAtEnd(t, k);
    DistancesSorted(t, dist);
    LengthToDotOfTotal(t, k);
  }
}

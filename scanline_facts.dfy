/**
 * The earlier rasteriser against the current one: both sample the same
 * stops, and pairing the earlier one's trimmed stops, dropping empty pairs
 * and a trailing unpaired stop, gives exactly the current one's ranges.
 */
module ScanlineFacts {
  import opened Numeric
  import opened Scanlines
  import opened ScanlinesFacts
  import opened Scanline
  import Sorting

  /** Consecutive trimmed stops as ranges, empty ones and a trailing unpaired stop left out. */
  function NonEmptyPairs(t: seq<int>): seq<Range>
  {
    if |t| < 2 then []
    else (if t[0] < t[1] then [Range(t[0], t[1])] else []) + NonEmptyPairs(t[2..])
  }

  /** Clamping before or after rounding gives the same pixel: an odd stop starts a range, an even one ends it. */
  lemma TrimStopIsClampedRounding(x: real, areaWidth: u16)
    ensures TrimStop(x, true, areaWidth) == StartOf(x, areaWidth)
    ensures TrimStop(x, false, areaWidth) == EndOf(x, areaWidth)
  {
    if x > areaWidth as real {
      assert RoundHalfDown(x) >= areaWidth;
      assert Round(x) >= areaWidth;
    } else if x >= 0.0 {
      assert 0 <= RoundHalfDown(x) <= areaWidth;
      assert 0 <= Round(x) <= areaWidth;
    }
  }

  /** Pairing the earlier rasteriser's trimmed row gives the current rasteriser's ranges. */
  lemma {:induction false} PairingTrimmedStops(stops: seq<real>, areaWidth: u16)
    ensures NonEmptyPairs(TrimStops(stops, areaWidth)) == PairRanges(stops, areaWidth)
  {
    if |stops| >= 2 {
      var t := TrimStops(stops, areaWidth);
      TrimStopIsClampedRounding(stops[0], areaWidth);
      TrimStopIsClampedRounding(stops[1], areaWidth);
      assert t[2..] == TrimStops(stops[2..], areaWidth);
      PairingTrimmedStops(stops[2..], areaWidth);
    }
  }

  /**
   * The two rasterisers agree on every path: each row of the earlier one,
   * paired, is the current one's row, and every row the current one keeps is
   * a row of the earlier one.
   */
  lemma VariantsAgree(path: FlatPath, areaWidth: u16, areaHeight: u16, rows: seq<Row>)
    requires OrderedTrimOf(rows, Stops(path, areaHeight), areaWidth)
    ensures forall i :: 0 <= i < |rows| ==>
      NonEmptyPairs(rows[i].stops) == RangesAt(ScanlinesOf(path, areaWidth, areaHeight), rows[i].row)
    ensures forall k :: k in ScanlinesOf(path, areaWidth, areaHeight) ==> exists i :: 0 <= i < |rows| && rows[i].row == k
  {
    var m := Stops(path, areaHeight);
    forall i | 0 <= i < |rows|
      ensures NonEmptyPairs(rows[i].stops) == RangesAt(ScanlinesOf(path, areaWidth, areaHeight), rows[i].row)
    {
      PairingTrimmedStops(Sorting.SortSeq(m[rows[i].row], Sorting.RealLe), areaWidth);
    }
  }

  function RowKeys(rows: seq<Row>): (r: seq<int>)
    ensures |r| == |rows| && forall i :: 0 <= i < |rows| ==> r[i] == rows[i].row
  {
    seq(|rows|, i requires 0 <= i < |rows| => rows[i].row)
  }

  lemma {:induction false} StrictlyIncreasingMultiplicity(s: seq<int>)
    requires StrictlyIncreasing(s)
    ensures forall x :: multiset(s)[x] == if x in s then 1 else 0
  {
    if s != [] {
      var tail := s[1..];
      assert StrictlyIncreasing(tail);
      StrictlyIncreasingMultiplicity(tail);
      assert s == [s[0]] + tail;
      assert s[0] !in tail;
    }
  }

  /** Strictly increasing sequences with the same members are equal. */
  lemma StrictlyIncreasingUnique(a: seq<int>, b: seq<int>)
    requires StrictlyIncreasing(a) && StrictlyIncreasing(b)
    requires forall x :: x in a <==> x in b
    ensures a == b
  {
    StrictlyIncreasingMultiplicity(a);
    StrictlyIncreasingMultiplicity(b);
    assert multiset(a) == multiset(b);
    Sorting.IntLeIsTotalOrder();
    assert Sorting.SortedBy(a, Sorting.IntLe);
    assert Sorting.SortedBy(b, Sorting.IntLe);
    Sorting.SortedUnique(a, b, Sorting.IntLe);
  }

  /** `scanlines_order_and_trim` has exactly one possible result. */
  lemma OrderedTrimUnique(rows1: seq<Row>, rows2: seq<Row>, scanlines: map<int, seq<real>>, areaWidth: u16)
    requires OrderedTrimOf(rows1, scanlines, areaWidth) && OrderedTrimOf(rows2, scanlines, areaWidth)
    ensures rows1 == rows2
  {
    var k1, k2 := RowKeys(rows1), RowKeys(rows2);
    forall x ensures x in k1 <==> x in k2 {
      if x in k1 {
        var i :| 0 <= i < |k1| && k1[i] == x;
        assert rows1[i].row == x;
      }
      if x in k2 {
        var i :| 0 <= i < |k2| && k2[i] == x;
        assert rows2[i].row == x;
        var j :| 0 <= j < |rows1| && rows1[j].row == x;
        assert k1[j] == x;
      }
    }
    StrictlyIncreasingUnique(k1, k2);
    assert |rows1| == |rows2|;
    forall i | 0 <= i < |rows1| ensures rows1[i] == rows2[i] {
      assert k1[i] == k2[i];
    }
  }
}

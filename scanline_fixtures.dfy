/** The earlier rasteriser's own examples, as lemmas about every result `OrderedTrimOf` allows. */
module ScanlineFixtures {
  import opened Numeric
  import opened Points
  import opened Scanlines
  import opened ScanlinesFacts
  import opened ScanlinesFixtures
  import opened Scanline
  import opened ScanlineFacts
  import Sorting

  /**
   * Rows `lo`, `lo + 1`, ... each carrying its row's sorted and trimmed
   * stops are what `OrderedTrimOf` allows.
   */
  lemma RowsFromTrims(rows: seq<Row>, m: map<int, seq<real>>, areaWidth: u16, lo: int)
    requires forall k :: k in m <==> lo <= k < lo + |rows|
    requires forall i :: 0 <= i < |rows| ==> rows[i].row == lo + i
    requires forall k :: k in m ==> TrimStops(Sorting.SortSeq(m[k], Sorting.RealLe), areaWidth) == rows[k - lo].stops
    ensures OrderedTrimOf(rows, m, areaWidth)
  {
    forall k | k in m ensures exists i :: 0 <= i < |rows| && rows[i].row == k {
      assert rows[k - lo].row == k;
    }
  }

  /** A row's stops trim as their sorted arrangement `t` does. */
  lemma TrimSorted(s: seq<real>, t: seq<real>, areaWidth: u16, r: seq<int>)
    requires Sorting.SortedBy(t, Sorting.RealLe) && multiset(s) == multiset(t)
    requires TrimStops(t, areaWidth) == r
    ensures TrimStops(Sorting.SortSeq(s, Sorting.RealLe), areaWidth) == r
  {
    SortsTo(s, t);
  }

  /** Four sorted stops trim one by one, alternately as a span's first and last. */
  lemma TrimFour(t: seq<real>, areaWidth: u16)
    requires |t| == 4
    ensures TrimStops(t, areaWidth) == [TrimStop(t[0], true, areaWidth), TrimStop(t[1], false, areaWidth),
      TrimStop(t[2], true, areaWidth), TrimStop(t[3], false, areaWidth)]
  {
  }

  lemma QuadStops(m: map<int, seq<real>>)
    requires m == Stops(QuadPath(), 5)
    ensures forall k :: k in m <==> 1 <= k < 4
    ensures forall k :: k in m ==> m[k] == [6.0, 1.0]
  {
    forall k ensures (k in m <==> 1 <= k < 4) && (k in m ==> m[k] == [6.0, 1.0]) {
      QuadStopsAt(m, k);
    }
  }

  lemma QuadStopsAt(m: map<int, seq<real>>, k: int)
    requires m == Stops(QuadPath(), 5)
    ensures (k in m <==> 1 <= k < 4) && (k in m ==> m[k] == [6.0, 1.0])
  {
    QuadKept();
    StopsRow(QuadPath(), 5, k);
    if 0 <= k < 5 {
      QuadRowStops(k);
    }
  }

  lemma QuadTrimmedRow(s: seq<real>)
    requires s == [6.0, 1.0]
    ensures TrimStops(Sorting.SortSeq(s, Sorting.RealLe), 5) == [1, 5]
  {
    var t := [1.0, 6.0];
    assert multiset(s) == multiset(t);
    assert TrimStop(t[0], true, 5) == 1 && TrimStop(t[1], false, 5) == 5;
    assert TrimStops(t, 5) == [1, 5];
    TrimSorted(s, t, 5, [1, 5]);
  }

  lemma QuadTrims(m: map<int, seq<real>>)
    requires m == Stops(QuadPath(), 5)
    ensures forall k :: k in m <==> 1 <= k < 4
    ensures forall k :: k in m ==> TrimStops(Sorting.SortSeq(m[k], Sorting.RealLe), 5) == [1, 5]
  {
    QuadStops(m);
    forall k | k in m ensures TrimStops(Sorting.SortSeq(m[k], Sorting.RealLe), 5) == [1, 5] {
      QuadTrimmedRow(m[k]);
    }
  }

  lemma QuadExpected(rows: seq<Row>, m: map<int, seq<real>>)
    requires forall k :: k in m <==> 1 <= k < 4
    requires forall k :: k in m ==> TrimStops(Sorting.SortSeq(m[k], Sorting.RealLe), 5) == [1, 5]
    requires rows == [Row(1, [1, 5]), Row(2, [1, 5]), Row(3, [1, 5])]
    ensures OrderedTrimOf(rows, m, 5)
  {
    RowsFromTrims(rows, m, 5, 1);
  }

  /** The rectangle of the current rasteriser's example, as flat stop lists clamped at the right edge. */
  lemma QuadTrimmedRows(rows: seq<Row>)
    requires OrderedTrimOf(rows, Stops(QuadPath(), 5), 5)
    ensures rows == [Row(1, [1, 5]), Row(2, [1, 5]), Row(3, [1, 5])]
  {
    var expected := [Row(1, [1, 5]), Row(2, [1, 5]), Row(3, [1, 5])];
    QuadTrims(Stops(QuadPath(), 5));
    QuadExpected(expected, Stops(QuadPath(), 5));
    OrderedTrimUnique(rows, expected, Stops(QuadPath(), 5), 5);
  }

  lemma UnclosedStops(m: map<int, seq<real>>)
    requires m == Stops(UnclosedPath(), 3)
    ensures forall k :: k in m <==> 0 <= k < 3
    ensures forall k :: k in m ==> m[k] == [1.0]
  {
    UnclosedKept();
    forall k ensures (k in m <==> 0 <= k < 3) && (k in m ==> m[k] == [1.0]) {
      StopsRow(UnclosedPath(), 3, k);
      if 0 <= k < 3 {
        UnclosedRowStops(KeptLines(Lines(UnclosedPath()), 3), k);
      }
    }
  }

  lemma UnclosedTrims(m: map<int, seq<real>>)
    requires m == Stops(UnclosedPath(), 3)
    ensures forall k :: k in m <==> 0 <= k < 3
    ensures forall k :: k in m ==> TrimStops(Sorting.SortSeq(m[k], Sorting.RealLe), 4) == [1]
  {
    UnclosedStops(m);
    forall k | k in m ensures TrimStops(Sorting.SortSeq(m[k], Sorting.RealLe), 4) == [1] {
      var t := [1.0];
      assert TrimStops(t, 4) == [1];
      TrimSorted(m[k], t, 4, [1]);
    }
  }

  lemma UnclosedExpected(rows: seq<Row>, m: map<int, seq<real>>)
    requires forall k :: k in m <==> 0 <= k < 3
    requires forall k :: k in m ==> TrimStops(Sorting.SortSeq(m[k], Sorting.RealLe), 4) == [1]
    requires rows == [Row(0, [1]), Row(1, [1]), Row(2, [1])]
    ensures OrderedTrimOf(rows, m, 4)
  {
    RowsFromTrims(rows, m, 4, 0);
  }

  /** Unlike the current rasteriser, the earlier one keeps an unclosed path's unpaired stops. */
  lemma UnclosedKeepsStops(rows: seq<Row>)
    requires OrderedTrimOf(rows, Stops(UnclosedPath(), 3), 4)
    ensures rows == [Row(0, [1]), Row(1, [1]), Row(2, [1])]
  {
    var expected := [Row(0, [1]), Row(1, [1]), Row(2, [1])];
    UnclosedTrims(Stops(UnclosedPath(), 3));
    UnclosedExpected(expected, Stops(UnclosedPath(), 3));
    OrderedTrimUnique(rows, expected, Stops(UnclosedPath(), 3), 4);
  }

  lemma HoleStops(m: map<int, seq<real>>)
    requires m == Stops(HolePath(), 10)
    ensures forall k :: k in m <==> 0 <= k < 10
    ensures forall k :: k in m ==> m[k] == if 2 <= k < 5 then [9.0, 0.0, 2.0, 7.0] else [9.0, 0.0]
  {
    HoleKept();
    forall k ensures (k in m <==> 0 <= k < 10) && (k in m ==> m[k] == if 2 <= k < 5 then [9.0, 0.0, 2.0, 7.0] else [9.0, 0.0]) {
      StopsRow(HolePath(), 10, k);
      if 0 <= k < 10 {
        HoleRowStops(HoleKeptLines(), k);
      }
    }
  }

  lemma HoleTrimmedFull(s: seq<real>)
    requires s == [9.0, 0.0]
    ensures TrimStops(Sorting.SortSeq(s, Sorting.RealLe), 10) == [0, 9]
  {
    var t := [0.0, 9.0];
    assert multiset(s) == multiset(t);
    assert TrimStop(t[0], true, 10) == 0 && TrimStop(t[1], false, 10) == 9;
    assert TrimStops(t, 10) == [0, 9];
    TrimSorted(s, t, 10, [0, 9]);
  }

  lemma HoleTrimmedSplit(s: seq<real>)
    requires s == [9.0, 0.0, 2.0, 7.0]
    ensures TrimStops(Sorting.SortSeq(s, Sorting.RealLe), 10) == [0, 2, 7, 9]
  {
    var t := [0.0, 2.0, 7.0, 9.0];
    RotatedFour(t, s);
    SortedFour(t);
    HoleSplitTrim(t);
    TrimSorted(s, t, 10, [0, 2, 7, 9]);
  }

  lemma HoleSplitTrim(t: seq<real>)
    requires t == [0.0, 2.0, 7.0, 9.0]
    ensures TrimStops(t, 10) == [0, 2, 7, 9]
  {
    TrimFour(t, 10);
    assert TrimStop(t[0], true, 10) == 0 && TrimStop(t[1], false, 10) == 2;
    assert TrimStop(t[2], true, 10) == 7 && TrimStop(t[3], false, 10) == 9;
  }

  function HoleRowTrimmed(k: int): seq<int>
  {
    if 2 <= k < 5 then [0, 2, 7, 9] else [0, 9]
  }

  lemma HoleRowsTrimmed(m: map<int, seq<real>>)
    requires forall k :: k in m ==> m[k] == if 2 <= k < 5 then [9.0, 0.0, 2.0, 7.0] else [9.0, 0.0]
    ensures forall k :: k in m ==> TrimStops(Sorting.SortSeq(m[k], Sorting.RealLe), 10) == HoleRowTrimmed(k)
  {
    forall k | k in m ensures TrimStops(Sorting.SortSeq(m[k], Sorting.RealLe), 10) == HoleRowTrimmed(k) {
      if 2 <= k < 5 {
        HoleTrimmedSplit(m[k]);
      } else {
        HoleTrimmedFull(m[k]);
      }
    }
  }

  function HoleRowsExpected(): seq<Row>
  {
    seq(10, k => Row(k, HoleRowTrimmed(k)))
  }

  lemma HoleTrims(m: map<int, seq<real>>)
    requires m == Stops(HolePath(), 10)
    ensures forall k :: k in m <==> 0 <= k < 10
    ensures forall k :: k in m ==> TrimStops(Sorting.SortSeq(m[k], Sorting.RealLe), 10) == HoleRowTrimmed(k)
  {
    HoleStops(m);
    HoleRowsTrimmed(m);
  }

  lemma HoleExpected(rows: seq<Row>, m: map<int, seq<real>>)
    requires forall k :: k in m <==> 0 <= k < 10
    requires forall k :: k in m ==> TrimStops(Sorting.SortSeq(m[k], Sorting.RealLe), 10) == HoleRowTrimmed(k)
    requires rows == HoleRowsExpected()
    ensures OrderedTrimOf(rows, m, 10)
  {
    RowsFromTrims(rows, m, 10, 0);
  }

  /** The square with a hole: rows 2 to 4 keep the hole's two edges, every other row spans the square. */
  lemma HoleTrimmedRows(rows: seq<Row>)
    requires OrderedTrimOf(rows, Stops(HolePath(), 10), 10)
    ensures rows == HoleRowsExpected()
  {
    HoleTrims(Stops(HolePath(), 10));
    HoleExpected(HoleRowsExpected(), Stops(HolePath(), 10));
    OrderedTrimUnique(rows, HoleRowsExpected(), Stops(HolePath(), 10), 10);
  }

  lemma SubpixelStops(m: map<int, seq<real>>)
    requires m == Stops(SubpixelPath(), 10)
    ensures forall k :: k in m <==> 1 <= k < 7
    ensures 1 in m ==> m[1] == [39.0 / 7.0, 46.0 / 7.0, 9.5, 13.0 / 12.0]
    ensures forall k :: 2 <= k < 7 ==> k in m && m[k] == [9.5, SubpixelLeftStop(k)]
  {
    SubpixelKept();
    var kept := SubpixelKeptLines();
    forall k ensures (k in m <==> 1 <= k < 7) && (k == 1 ==> CrossingStops(kept, k) == m[1])
      && (2 <= k < 7 ==> k in m && m[k] == [9.5, SubpixelLeftStop(k)])
    {
      StopsRow(SubpixelPath(), 10, k);
      if 0 <= k < 10 {
        SubpixelRowStops(kept, k);
      }
    }
    SubpixelRowStops(kept, 1);
  }

  lemma SubpixelTrimmedSpike(s: seq<real>)
    requires s == [39.0 / 7.0, 46.0 / 7.0, 9.5, 13.0 / 12.0]
    ensures TrimStops(Sorting.SortSeq(s, Sorting.RealLe), 10) == [1, 6, 7, 10]
  {
    var t := [13.0 / 12.0, 39.0 / 7.0, 46.0 / 7.0, 9.5];
    RotatedFour(s, t);
    SortedFour(t);
    SubpixelSpikeTrim(t);
    TrimSorted(s, t, 10, [1, 6, 7, 10]);
  }

  lemma SubpixelSpikeTrim(t: seq<real>)
    requires t == [13.0 / 12.0, 39.0 / 7.0, 46.0 / 7.0, 9.5]
    ensures TrimStops(t, 10) == [1, 6, 7, 10]
  {
    TrimFour(t, 10);
    assert TrimStop(t[0], true, 10) == 1 && TrimStop(t[1], false, 10) == 6;
    assert TrimStop(t[2], true, 10) == 7 && TrimStop(t[3], false, 10) == 10;
  }

  lemma SubpixelTrimmedSide(s: seq<real>, k: int)
    requires 2 <= k < 7 && s == [9.5, SubpixelLeftStop(k)]
    ensures TrimStops(Sorting.SortSeq(s, Sorting.RealLe), 10) == [if k < 4 then 1 else 2, 10]
  {
    SubpixelLeftRounding(k);
    var t := [SubpixelLeftStop(k), 9.5];
    assert multiset(s) == multiset(t);
    assert TrimStop(t[0], true, 10) == RoundHalfDown(t[0]) && TrimStop(t[1], false, 10) == 10;
    assert TrimStops(t, 10) == [if k < 4 then 1 else 2, 10];
    TrimSorted(s, t, 10, [if k < 4 then 1 else 2, 10]);
  }

  function SubpixelRowTrimmed(k: int): seq<int>
  {
    if k == 1 then [1, 6, 7, 10] else if k < 4 then [1, 10] else [2, 10]
  }

  lemma SubpixelRowsTrimmed(m: map<int, seq<real>>)
    requires forall k :: k in m <==> 1 <= k < 7
    requires 1 in m ==> m[1] == [39.0 / 7.0, 46.0 / 7.0, 9.5, 13.0 / 12.0]
    requires forall k :: 2 <= k < 7 ==> k in m && m[k] == [9.5, SubpixelLeftStop(k)]
    ensures forall k :: k in m ==> TrimStops(Sorting.SortSeq(m[k], Sorting.RealLe), 10) == SubpixelRowTrimmed(k)
  {
    forall k | k in m ensures TrimStops(Sorting.SortSeq(m[k], Sorting.RealLe), 10) == SubpixelRowTrimmed(k) {
      if k == 1 {
        SubpixelTrimmedSpike(m[k]);
      } else {
        SubpixelTrimmedSide(m[k], k);
      }
    }
  }

  function SubpixelRowsExpected(): seq<Row>
  {
    seq(6, i => Row(i + 1, SubpixelRowTrimmed(i + 1)))
  }

  lemma SubpixelTrims(m: map<int, seq<real>>)
    requires m == Stops(SubpixelPath(), 10)
    ensures forall k :: k in m <==> 1 <= k < 7
    ensures forall k :: k in m ==> TrimStops(Sorting.SortSeq(m[k], Sorting.RealLe), 10) == SubpixelRowTrimmed(k)
  {
    SubpixelStops(m);
    SubpixelRowsTrimmed(m);
  }

  lemma SubpixelExpected(rows: seq<Row>, m: map<int, seq<real>>)
    requires forall k :: k in m <==> 1 <= k < 7
    requires forall k :: k in m ==> TrimStops(Sorting.SortSeq(m[k], Sorting.RealLe), 10) == SubpixelRowTrimmed(k)
    requires rows == SubpixelRowsExpected()
    ensures OrderedTrimOf(rows, m, 10)
  {
    RowsFromTrims(rows, m, 10, 1);
  }

  /** Sub-pixel geometry: the spike's row keeps four stops, and the slanted left edge rounds down until it passes the half. */
  lemma SubpixelTrimmedRows(rows: seq<Row>)
    requires OrderedTrimOf(rows, Stops(SubpixelPath(), 10), 10)
    ensures rows == SubpixelRowsExpected()
  {
    SubpixelTrims(Stops(SubpixelPath(), 10));
    SubpixelExpected(SubpixelRowsExpected(), Stops(SubpixelPath(), 10));
    OrderedTrimUnique(rows, SubpixelRowsExpected(), Stops(SubpixelPath(), 10), 10);
  }
}

/** The rasteriser's own examples, as lemmas about `ScanlinesOf`. */
module ScanlinesFixtures {
  import opened Numeric
  import opened Points
  import opened Scanlines
  import opened ScanlinesFacts
  import Sorting

  /** A scanlines map is determined row by row by the reference definition. */
  lemma ScanlinesByRows(path: FlatPath, areaWidth: u16, areaHeight: u16, kept: seq<Line>, e: map<int, seq<Range>>)
    requires KeptLines(Lines(path), areaHeight) == kept
    requires forall k :: 0 <= k < areaHeight ==> RowRanges(CrossingStops(kept, k), areaWidth) == RangesAt(e, k)
    requires forall k :: k in e ==> 0 <= k < areaHeight && e[k] != []
    ensures ScanlinesOf(path, areaWidth, areaHeight) == e
  {
    var r := ScanlinesOf(path, areaWidth, areaHeight);
    forall k ensures (k in r <==> k in e) && (k in r ==> r[k] == e[k]) {
      RowByRow(path, areaWidth, areaHeight, kept, e, k);
    }
  }

  lemma RowByRow(path: FlatPath, areaWidth: u16, areaHeight: u16, kept: seq<Line>, e: map<int, seq<Range>>, k: int)
    requires KeptLines(Lines(path), areaHeight) == kept
    requires 0 <= k < areaHeight ==> RowRanges(CrossingStops(kept, k), areaWidth) == RangesAt(e, k)
    requires k in e ==> 0 <= k < areaHeight && e[k] != []
    ensures var r := ScanlinesOf(path, areaWidth, areaHeight); (k in r <==> k in e) && (k in r ==> r[k] == e[k])
  {
    ScanlinesRow(path, areaWidth, areaHeight, k);
  }

  lemma {:induction false} KeptLinesAppend(a: seq<Line>, b: seq<Line>, areaHeight: u16)
    ensures KeptLines(a + b, areaHeight) == KeptLines(a, areaHeight) + KeptLines(b, areaHeight)
    decreases |b|
  {
    if b == [] {
      assert a + b == a;
    } else {
      var b' := b[..|b| - 1];
      assert (a + b)[..|a + b| - 1] == a + b';
      KeptLinesAppend(a, b', areaHeight);
    }
  }

  lemma {:induction false} CrossingStopsAppend(a: seq<Line>, b: seq<Line>, k: int)
    requires forall l :: l in a + b ==> l.p0.y != l.p1.y
    ensures forall l :: l in a ==> l.p0.y != l.p1.y
    ensures forall l :: l in b ==> l.p0.y != l.p1.y
    ensures CrossingStops(a + b, k) == CrossingStops(a, k) + CrossingStops(b, k)
    decreases |b|
  {
    assert forall l :: l in a ==> l in a + b;
    assert forall l :: l in b ==> l in a + b;
    if b == [] {
      assert a + b == a;
    } else {
      var b' := b[..|b| - 1];
      assert (a + b)[..|a + b| - 1] == a + b';
      assert forall l :: l in a + b' ==> l in a + b;
      CrossingStopsAppend(a, b', k);
    }
  }

  lemma KeptOne(l: Line, areaHeight: u16)
    ensures KeptLines([l], areaHeight) == if KeepLine(l, areaHeight) then [l] else []
  {
    assert [l][..0] == [];
  }

  /** What one line contributes to the kept lines. */
  function KeptOf(l: Line, areaHeight: u16): seq<Line>
  {
    if KeepLine(l, areaHeight) then [l] else []
  }

  lemma KeptThree(a: Line, b: Line, c: Line, areaHeight: u16)
    ensures KeptLines([a, b, c], areaHeight) == KeptOf(a, areaHeight) + KeptOf(b, areaHeight) + KeptOf(c, areaHeight)
  {
    KeptTwo(a, b, areaHeight);
    assert [a, b, c][..2] == [a, b];
  }

  lemma KeptFour(a: Line, b: Line, c: Line, d: Line, areaHeight: u16)
    ensures KeptLines([a, b, c, d], areaHeight)
      == KeptOf(a, areaHeight) + KeptOf(b, areaHeight) + KeptOf(c, areaHeight) + KeptOf(d, areaHeight)
  {
    KeptThree(a, b, c, areaHeight);
    assert [a, b, c, d][..3] == [a, b, c];
  }

  /** What one line contributes to a row's stops. */
  function StopOf(l: Line, k: int): seq<real>
    requires l.p0.y != l.p1.y
  {
    if Crosses(l, k as real + 0.5) then [StopAt(l, k)] else []
  }

  lemma StopsFour(a: Line, b: Line, c: Line, d: Line, k: int)
    requires a.p0.y != a.p1.y && b.p0.y != b.p1.y && c.p0.y != c.p1.y && d.p0.y != d.p1.y
    ensures CrossingStops([a, b, c, d], k) == StopOf(a, k) + StopOf(b, k) + StopOf(c, k) + StopOf(d, k)
  {
    StopsThree(a, b, c, k);
    assert [a, b, c, d][..3] == [a, b, c];
  }

  lemma StopsTwo(a: Line, b: Line, k: int)
    requires a.p0.y != a.p1.y && b.p0.y != b.p1.y
    ensures CrossingStops([a, b], k) == StopOf(a, k) + StopOf(b, k)
  {
    CrossingStopsOne(a, k);
    assert [a, b][..1] == [a];
  }

  lemma StopsThree(a: Line, b: Line, c: Line, k: int)
    requires a.p0.y != a.p1.y && b.p0.y != b.p1.y && c.p0.y != c.p1.y
    ensures CrossingStops([a, b, c], k) == StopOf(a, k) + StopOf(b, k) + StopOf(c, k)
  {
    StopsTwo(a, b, k);
    assert [a, b, c][..2] == [a, b];
  }

  /** A vertical line stops at its own x on the rows it crosses. */
  lemma VerticalStop(l: Line, k: int)
    requires l.p0.y != l.p1.y && l.p0.x == l.p1.x
    ensures StopOf(l, k) == if Crosses(l, k as real + 0.5) then [l.p0.x] else []
  {
  }

  /** Two stops in either order. */
  lemma SwappedTwo(s: seq<real>, t: seq<real>)
    requires |s| == 2 && t == [s[1], s[0]]
    ensures multiset(s) == multiset(t)
  {
    assert s == [s[0]] + [s[1]];
    assert t == [s[1]] + [s[0]];
  }

  lemma SortedTwo(t: seq<real>)
    requires |t| == 2 && t[0] <= t[1]
    ensures Sorting.SortedBy(t, Sorting.RealLe)
  {
  }

  /** A row's ranges are those of its sorted arrangement `t`. */
  lemma RangesSorted(s: seq<real>, t: seq<real>, areaWidth: u16, r: seq<Range>)
    requires Sorting.SortedBy(t, Sorting.RealLe) && multiset(s) == multiset(t)
    requires PairRanges(t, areaWidth) == r
    ensures RowRanges(s, areaWidth) == r
  {
    SortsTo(s, t);
  }

  /** One pair of stops in a row of width `areaWidth`, rounded inwards from `x` and outwards to `y`. */
  lemma OnePair(t: seq<real>, areaWidth: u16, x: int, y: int)
    requires |t| == 2 && 0.0 <= t[0] && t[1] <= areaWidth as real
    requires RoundHalfDown(t[0]) == x && Round(t[1]) == y && x < y
    ensures PairRanges(t, areaWidth) == [Range(x, y)]
  {
    assert t[2..] == [];
    assert 0 <= x && y <= areaWidth;
  }

  function QuadPoints(): seq<Point>
  {
    [Point(1.0, 1.0), Point(6.0, 1.0), Point(6.0, 4.0), Point(1.0, 4.0)]
  }

  function QuadPath(): FlatPath
  {
    ClosedPath(QuadPoints())
  }

  function QuadSides(): seq<Line>
  {
    [Line(Point(1.0, 1.0), Point(6.0, 1.0)), Line(Point(6.0, 1.0), Point(6.0, 4.0)),
     Line(Point(6.0, 4.0), Point(1.0, 4.0)), Line(Point(1.0, 4.0), Point(1.0, 1.0))]
  }

  lemma QuadLines(path: FlatPath, ps: seq<Point>)
    requires ps == QuadPoints() && path == ClosedPath(ps)
    ensures Lines(path) == QuadSides()
  {
    ClosedPathLines([], ps);
    assert [] + ClosedPath(ps) == ClosedPath(ps);
    assert Chain(ps) == QuadSides()[..3];
  }

  lemma QuadSidesKept(sides: seq<Line>)
    requires sides == QuadSides()
    ensures KeptLines(sides, 5) == [sides[1], sides[3]]
  {
    assert sides == [sides[0], sides[1], sides[2], sides[3]];
    KeptFour(sides[0], sides[1], sides[2], sides[3], 5);
    assert KeptOf(sides[0], 5) == [] && KeptOf(sides[1], 5) == [sides[1]];
    assert KeptOf(sides[2], 5) == [] && KeptOf(sides[3], 5) == [sides[3]];
  }

  lemma QuadKept()
    ensures KeptLines(Lines(QuadPath()), 5) == [Line(Point(6.0, 1.0), Point(6.0, 4.0)), Line(Point(1.0, 4.0), Point(1.0, 1.0))]
  {
    QuadLines(QuadPath(), QuadPoints());
    QuadSidesKept(QuadSides());
  }

  lemma QuadRowStops(k: int)
    ensures CrossingStops([Line(Point(6.0, 1.0), Point(6.0, 4.0)), Line(Point(1.0, 4.0), Point(1.0, 1.0))], k)
      == if 1 <= k < 4 then [6.0, 1.0] else []
  {
    var right, left := Line(Point(6.0, 1.0), Point(6.0, 4.0)), Line(Point(1.0, 4.0), Point(1.0, 1.0));
    CrossingStopsAppend([right], [left], k);
    assert [right][..0] == [] && [left][..0] == [];
  }

  lemma QuadRowRanges(s: seq<real>)
    requires s == [6.0, 1.0]
    ensures RowRanges(s, 5) == [Range(1, 5)]
  {
    var t := [1.0, 6.0];
    SwappedTwo(s, t);
    SortedTwo(t);
    assert RoundHalfDown(1.0) == 1 && Round(6.0) == 6;
    assert PairRange(t[0], t[1], 5) == Range(1, 5);
    assert t[2..] == [];
    RangesSorted(s, t, 5, [Range(1, 5)]);
  }

  lemma QuadRows(kept: seq<Line>)
    requires kept == [Line(Point(6.0, 1.0), Point(6.0, 4.0)), Line(Point(1.0, 4.0), Point(1.0, 1.0))]
    ensures forall k | 0 <= k < 5 :: RowRanges(CrossingStops(kept, k), 5) == if 1 <= k < 4 then [Range(1, 5)] else []
  {
    forall k | 0 <= k < 5 ensures RowRanges(CrossingStops(kept, k), 5) == if 1 <= k < 4 then [Range(1, 5)] else [] {
      QuadRowStops(k);
      if 1 <= k < 4 {
        QuadRowRanges(CrossingStops(kept, k));
      } else {
        assert Sorting.SortSeq([], Sorting.RealLe) == [];
      }
    }
  }

  lemma QuadExpected(e: map<int, seq<Range>>)
    requires e == map[1 := [Range(1, 5)], 2 := [Range(1, 5)], 3 := [Range(1, 5)]]
    ensures forall k | 0 <= k < 5 :: RangesAt(e, k) == if 1 <= k < 4 then [Range(1, 5)] else []
    ensures forall k :: k in e ==> 0 <= k < 5 && e[k] != []
  {
  }

  lemma QuadFromRows(path: FlatPath, kept: seq<Line>, e: map<int, seq<Range>>)
    requires path == QuadPath()
    requires kept == [Line(Point(6.0, 1.0), Point(6.0, 4.0)), Line(Point(1.0, 4.0), Point(1.0, 1.0))]
    requires e == map[1 := [Range(1, 5)], 2 := [Range(1, 5)], 3 := [Range(1, 5)]]
    ensures ScanlinesOf(path, 5, 5) == e
  {
    QuadKept();
    QuadRows(kept);
    QuadExpected(e);
    ScanlinesByRows(path, 5, 5, kept, e);
  }

  /** A rectangle wider than the viewport is trimmed at its right edge. */
  lemma QuadTrimmed()
    ensures ScanlinesOf(QuadPath(), 5, 5) == map[1 := [Range(1, 5)], 2 := [Range(1, 5)], 3 := [Range(1, 5)]]
  {
    QuadFromRows(QuadPath(), [Line(Point(6.0, 1.0), Point(6.0, 4.0)), Line(Point(1.0, 4.0), Point(1.0, 1.0))],
                 map[1 := [Range(1, 5)], 2 := [Range(1, 5)], 3 := [Range(1, 5)]]);
  }

  function UnclosedPath(): FlatPath
  {
    OpenPath([Point(1.0, 0.0), Point(1.0, 3.0), Point(4.0, 3.0)])
  }

  lemma UnclosedLines(path: FlatPath, ps: seq<Point>)
    requires ps == [Point(1.0, 0.0), Point(1.0, 3.0), Point(4.0, 3.0)] && path == OpenPath(ps)
    ensures Lines(path) == [Line(ps[0], ps[1]), Line(ps[1], ps[2])]
    ensures !WellClosed(path)
  {
    OpenPathLines([], ps);
    assert [] + OpenPath(ps) == OpenPath(ps);
  }

  lemma UnclosedLinesKept(a: Line, b: Line)
    requires a == Line(Point(1.0, 0.0), Point(1.0, 3.0)) && b == Line(Point(1.0, 3.0), Point(4.0, 3.0))
    ensures KeptLines([a, b], 3) == [a]
  {
    KeptTwo(a, b, 3);
  }

  lemma UnclosedKept()
    ensures KeptLines(Lines(UnclosedPath()), 3) == [Line(Point(1.0, 0.0), Point(1.0, 3.0))]
    ensures !WellClosed(UnclosedPath())
  {
    var ps := [Point(1.0, 0.0), Point(1.0, 3.0), Point(4.0, 3.0)];
    UnclosedLines(UnclosedPath(), ps);
    UnclosedLinesKept(Line(ps[0], ps[1]), Line(ps[1], ps[2]));
  }

  lemma UnclosedRowStops(kept: seq<Line>, k: int)
    requires kept == [Line(Point(1.0, 0.0), Point(1.0, 3.0))] && 0 <= k < 3
    ensures CrossingStops(kept, k) == [1.0]
  {
    CrossingStopsOne(kept[0], k);
  }

  /** An unclosed path leaves a single stop per row, which pairs with nothing. */
  lemma UnclosedIsEmpty()
    ensures ScanlinesOf(UnclosedPath(), 4, 3) == map[]
    ensures !WellClosed(UnclosedPath())
  {
    UnclosedKept();
    var kept := [Line(Point(1.0, 0.0), Point(1.0, 3.0))];
    forall k | 0 <= k < 3 ensures RowRanges(CrossingStops(kept, k), 4) == RangesAt(map[], k) {
      UnclosedRowStops(kept, k);
    }
    ScanlinesByRows(UnclosedPath(), 4, 3, kept, map[]);
  }

  /** A concrete sort: the ascending arrangement of the same stops. */
  /** Moving the last of four stops to the front keeps the same stops. */
  lemma RotatedFour(s: seq<real>, t: seq<real>)
    requires |s| == 4 && t == [s[3], s[0], s[1], s[2]]
    ensures multiset(s) == multiset(t)
  {
    assert s == [s[0], s[1], s[2]] + [s[3]];
    assert t == [s[3]] + [s[0], s[1], s[2]];
  }

  /** Four ascending stops are sorted. */
  lemma SortedFour(t: seq<real>)
    requires |t| == 4 && t[0] <= t[1] <= t[2] <= t[3]
    ensures Sorting.SortedBy(t, Sorting.RealLe)
  {
  }

  lemma SortsTo(s: seq<real>, t: seq<real>)
    requires Sorting.SortedBy(t, Sorting.RealLe) && multiset(s) == multiset(t)
    ensures Sorting.SortSeq(s, Sorting.RealLe) == t
  {
    Sorting.RealLeIsTotalOrder();
    Sorting.SortSeqSorted(s, Sorting.RealLe);
    Sorting.SortedUnique(Sorting.SortSeq(s, Sorting.RealLe), t, Sorting.RealLe);
  }

  function OuterPoints(): seq<Point>
  {
    [Point(0.0, 0.0), Point(9.0, 0.0), Point(9.0, 10.0), Point(0.0, 10.0)]
  }

  function InnerPoints(): seq<Point>
  {
    [Point(2.0, 2.0), Point(2.0, 5.0), Point(7.0, 5.0), Point(7.0, 2.0)]
  }

  function HolePath(): FlatPath
  {
    ClosedPath(OuterPoints()) + ClosedPath(InnerPoints())
  }

  function HoleKeptLines(): seq<Line>
  {
    [Line(Point(9.0, 0.0), Point(9.0, 10.0)), Line(Point(0.0, 10.0), Point(0.0, 0.0)),
     Line(Point(2.0, 2.0), Point(2.0, 5.0)), Line(Point(7.0, 5.0), Point(7.0, 2.0))]
  }

  lemma OuterKept()
    ensures KeptLines(Sides(OuterPoints()), 10) == [Line(Point(9.0, 0.0), Point(9.0, 10.0)), Line(Point(0.0, 10.0), Point(0.0, 0.0))]
  {
    var a, b := Line(Point(0.0, 0.0), Point(9.0, 0.0)), Line(Point(9.0, 0.0), Point(9.0, 10.0));
    var c, d := Line(Point(9.0, 10.0), Point(0.0, 10.0)), Line(Point(0.0, 10.0), Point(0.0, 0.0));
    assert Sides(OuterPoints()) == [a, b, c, d];
    KeptFour(a, b, c, d, 10);
    assert KeptOf(a, 10) == [] && KeptOf(b, 10) == [b] && KeptOf(c, 10) == [] && KeptOf(d, 10) == [d];
  }

  lemma InnerKept()
    ensures KeptLines(Sides(InnerPoints()), 10) == [Line(Point(2.0, 2.0), Point(2.0, 5.0)), Line(Point(7.0, 5.0), Point(7.0, 2.0))]
  {
    var a, b := Line(Point(2.0, 2.0), Point(2.0, 5.0)), Line(Point(2.0, 5.0), Point(7.0, 5.0));
    var c, d := Line(Point(7.0, 5.0), Point(7.0, 2.0)), Line(Point(7.0, 2.0), Point(2.0, 2.0));
    assert Sides(InnerPoints()) == [a, b, c, d];
    KeptFour(a, b, c, d, 10);
    assert KeptOf(a, 10) == [a] && KeptOf(b, 10) == [] && KeptOf(c, 10) == [c] && KeptOf(d, 10) == [];
  }

  lemma HoleLines(path: FlatPath, outer: seq<Point>, inner: seq<Point>)
    requires outer == OuterPoints() && inner == InnerPoints() && path == ClosedPath(outer) + ClosedPath(inner)
    ensures Lines(path) == Sides(outer) + Sides(inner)
    ensures WellClosed(path)
  {
    ClosedPathLines([], outer);
    assert [] + ClosedPath(outer) == ClosedPath(outer);
    ClosedPathLines(ClosedPath(outer), inner);
  }

  lemma HoleSidesKept(a: seq<Line>, b: seq<Line>)
    requires a == Sides(OuterPoints()) && b == Sides(InnerPoints())
    ensures KeptLines(a + b, 10) == HoleKeptLines()
  {
    KeptLinesAppend(a, b, 10);
    OuterKept();
    InnerKept();
  }

  lemma HoleKept()
    ensures KeptLines(Lines(HolePath()), 10) == HoleKeptLines()
    ensures WellClosed(HolePath())
  {
    HoleLines(HolePath(), OuterPoints(), InnerPoints());
    HoleSidesKept(Sides(OuterPoints()), Sides(InnerPoints()));
  }

  lemma CrossingStopsOne(l: Line, k: int)
    requires l.p0.y != l.p1.y
    ensures CrossingStops([l], k) == if Crosses(l, k as real + 0.5) then [StopAt(l, k)] else []
  {
    assert [l][..0] == [];
  }

  /** The hole's rows: the outer square alone, or with the inner square's two sides. */
  lemma HoleRowStops(kept: seq<Line>, k: int)
    requires kept == HoleKeptLines() && 0 <= k < 10
    ensures CrossingStops(kept, k) == if 2 <= k < 5 then [9.0, 0.0, 2.0, 7.0] else [9.0, 0.0]
  {
    assert kept == [kept[0], kept[1], kept[2], kept[3]];
    StopsFour(kept[0], kept[1], kept[2], kept[3], k);
    VerticalStop(kept[0], k);
    VerticalStop(kept[1], k);
    VerticalStop(kept[2], k);
    VerticalStop(kept[3], k);
  }

  lemma HoleFullRow(s: seq<real>)
    requires s == [9.0, 0.0]
    ensures RowRanges(s, 10) == [Range(0, 9)]
  {
    var t := [0.0, 9.0];
    SwappedTwo(s, t);
    SortedTwo(t);
    OnePair(t, 10, 0, 9);
    RangesSorted(s, t, 10, [Range(0, 9)]);
  }

  lemma HoleSplitPairs(t: seq<real>)
    requires t == [0.0, 2.0, 7.0, 9.0]
    ensures PairRanges(t, 10) == [Range(0, 2), Range(7, 9)]
  {
    assert RoundHalfDown(0.0) == 0 && Round(2.0) == 2 && RoundHalfDown(7.0) == 7 && Round(9.0) == 9;
    assert t[2..] == [7.0, 9.0];
    assert t[2..][2..] == [];
  }

  lemma HoleSplitRow(s: seq<real>)
    requires s == [9.0, 0.0, 2.0, 7.0]
    ensures RowRanges(s, 10) == [Range(0, 2), Range(7, 9)]
  {
    var t := [0.0, 2.0, 7.0, 9.0];
    RotatedFour(t, s);
    SortedFour(t);
    HoleSplitPairs(t);
    RangesSorted(s, t, 10, [Range(0, 2), Range(7, 9)]);
  }

  function HoleRow(k: int): seq<Range>
  {
    if 2 <= k < 5 then [Range(0, 2), Range(7, 9)] else [Range(0, 9)]
  }

  function HoleExpected(): map<int, seq<Range>>
  {
    map k | 0 <= k < 10 :: HoleRow(k)
  }

  lemma HoleExpectedRows(e: map<int, seq<Range>>)
    requires e == HoleExpected()
    ensures forall k | 0 <= k < 10 :: RangesAt(e, k) == HoleRow(k)
    ensures forall k :: k in e ==> 0 <= k < 10 && e[k] != []
  {
  }

  lemma HoleFromRows(path: FlatPath, kept: seq<Line>, e: map<int, seq<Range>>)
    requires path == HolePath() && kept == HoleKeptLines() && e == HoleExpected()
    ensures ScanlinesOf(path, 10, 10) == e
  {
    HoleKept();
    HoleExpectedRows(e);
    forall k | 0 <= k < 10 ensures RowRanges(CrossingStops(kept, k), 10) == RangesAt(e, k) {
      HoleRowStops(kept, k);
      if 2 <= k < 5 {
        HoleSplitRow(CrossingStops(kept, k));
      } else {
        HoleFullRow(CrossingStops(kept, k));
      }
    }
    ScanlinesByRows(path, 10, 10, kept, e);
  }

  /** A square with a square hole: the hole's rows get two ranges, the others one. */
  lemma HoleScanlines()
    ensures ScanlinesOf(HolePath(), 10, 10) == HoleExpected()
    ensures WellClosed(HolePath())
  {
    HoleKept();
    HoleFromRows(HolePath(), HoleKeptLines(), HoleExpected());
  }

  function SubpixelPoints(): seq<Point>
  {
    [Point(1.0, 1.0), Point(4.5, 1.0), Point(6.0, 1.7), Point(8.0, 1.0),
     Point(9.5, 1.0), Point(9.5, 7.0), Point(2.0, 7.0)]
  }

  function SubpixelPath(): FlatPath
  {
    ClosedPath(SubpixelPoints())
  }

  function SubpixelKeptLines(): seq<Line>
  {
    [Line(Point(4.5, 1.0), Point(6.0, 1.7)), Line(Point(6.0, 1.7), Point(8.0, 1.0)),
     Line(Point(9.5, 1.0), Point(9.5, 7.0)), Line(Point(2.0, 7.0), Point(1.0, 1.0))]
  }

  function SubpixelSides(): seq<Line>
  {
    [Line(Point(1.0, 1.0), Point(4.5, 1.0)), Line(Point(4.5, 1.0), Point(6.0, 1.7)),
     Line(Point(6.0, 1.7), Point(8.0, 1.0)), Line(Point(8.0, 1.0), Point(9.5, 1.0)),
     Line(Point(9.5, 1.0), Point(9.5, 7.0)), Line(Point(9.5, 7.0), Point(2.0, 7.0)),
     Line(Point(2.0, 7.0), Point(1.0, 1.0))]
  }

  lemma SubpixelTopKept(a: Line, b: Line, c: Line)
    requires a == Line(Point(1.0, 1.0), Point(4.5, 1.0)) && b == Line(Point(4.5, 1.0), Point(6.0, 1.7))
    requires c == Line(Point(6.0, 1.7), Point(8.0, 1.0))
    ensures KeptLines([a, b, c], 10) == [b, c]
  {
    KeptThree(a, b, c, 10);
    assert KeptOf(a, 10) == [] && KeptOf(b, 10) == [b] && KeptOf(c, 10) == [c];
  }

  lemma KeptTwo(a: Line, b: Line, areaHeight: u16)
    ensures KeptLines([a, b], areaHeight)
      == (if KeepLine(a, areaHeight) then [a] else []) + (if KeepLine(b, areaHeight) then [b] else [])
  {
    KeptOne(a, areaHeight);
    KeptOne(b, areaHeight);
    KeptLinesAppend([a], [b], areaHeight);
  }

  lemma SubpixelRestKept(d: Line, e: Line, f: Line, g: Line)
    requires d == Line(Point(8.0, 1.0), Point(9.5, 1.0)) && e == Line(Point(9.5, 1.0), Point(9.5, 7.0))
    requires f == Line(Point(9.5, 7.0), Point(2.0, 7.0)) && g == Line(Point(2.0, 7.0), Point(1.0, 1.0))
    ensures KeptLines([d, e, f, g], 10) == [e, g]
  {
    KeptFour(d, e, f, g, 10);
    assert KeptOf(d, 10) == [] && KeptOf(e, 10) == [e] && KeptOf(f, 10) == [] && KeptOf(g, 10) == [g];
  }

  lemma SubpixelSidesKept(sides: seq<Line>)
    requires sides == SubpixelSides()
    ensures KeptLines(sides, 10) == SubpixelKeptLines()
  {
    var top, rest := sides[..3], sides[3..];
    assert sides == top + rest;
    SubpixelTopKept(top[0], top[1], top[2]);
    SubpixelRestKept(rest[0], rest[1], rest[2], rest[3]);
    assert top == [top[0], top[1], top[2]];
    assert rest == [rest[0], rest[1], rest[2], rest[3]];
    KeptLinesAppend(top, rest, 10);
  }

  lemma SubpixelSidesOf(ps: seq<Point>)
    requires ps == SubpixelPoints()
    ensures Sides(ps) == SubpixelSides()
  {
    var chain := Chain(ps);
    assert |chain| == 6;
    assert chain == SubpixelSides()[..6];
  }

  lemma SubpixelLines(path: FlatPath, ps: seq<Point>)
    requires ps == SubpixelPoints() && path == ClosedPath(ps)
    ensures Lines(path) == SubpixelSides()
    ensures WellClosed(path)
  {
    ClosedPathLines([], ps);
    assert [] + ClosedPath(ps) == ClosedPath(ps);
    SubpixelSidesOf(ps);
  }

  lemma SubpixelKept()
    ensures KeptLines(Lines(SubpixelPath()), 10) == SubpixelKeptLines()
    ensures WellClosed(SubpixelPath())
  {
    SubpixelLines(SubpixelPath(), SubpixelPoints());
    SubpixelSidesKept(SubpixelSides());
  }

  /** The left edge's stop on row `k`. */
  function SubpixelLeftStop(k: int): real
  {
    2.0 + (k as real + 0.5 - 7.0) / 6.0
  }

  /** Row 1 meets the spike and both sides; rows 2 to 6 meet only the sides. */
  lemma SubpixelRowStops(kept: seq<Line>, k: int)
    requires kept == SubpixelKeptLines() && 0 <= k < 10
    ensures CrossingStops(kept, k) == if k == 1 then [39.0 / 7.0, 46.0 / 7.0, 9.5, 13.0 / 12.0]
      else if 2 <= k < 7 then [9.5, SubpixelLeftStop(k)] else []
  {
    assert kept == [kept[0], kept[1], kept[2], kept[3]];
    StopsFour(kept[0], kept[1], kept[2], kept[3], k);
  }

  lemma SubpixelSpikePairs(t: seq<real>)
    requires t == [13.0 / 12.0, 39.0 / 7.0, 46.0 / 7.0, 9.5]
    ensures PairRanges(t, 10) == [Range(1, 6), Range(7, 10)]
  {
    assert RoundHalfDown(13.0 / 12.0) == 1 && Round(39.0 / 7.0) == 6;
    assert RoundHalfDown(46.0 / 7.0) == 7 && Round(9.5) == 10;
    assert t[2..] == [46.0 / 7.0, 9.5];
    assert t[2..][2..] == [];
  }

  lemma SubpixelSpikeRow(s: seq<real>)
    requires s == [39.0 / 7.0, 46.0 / 7.0, 9.5, 13.0 / 12.0]
    ensures RowRanges(s, 10) == [Range(1, 6), Range(7, 10)]
  {
    var t := [13.0 / 12.0, 39.0 / 7.0, 46.0 / 7.0, 9.5];
    RotatedFour(s, t);
    SortedFour(t);
    SubpixelSpikePairs(t);
    RangesSorted(s, t, 10, [Range(1, 6), Range(7, 10)]);
  }

  lemma SubpixelSideRow(s: seq<real>, x: real)
    requires s == [9.5, x] && 1.0 <= x <= 2.0
    ensures RowRanges(s, 10) == [Range(RoundHalfDown(x), 10)]
  {
    var t := [x, 9.5];
    SwappedTwo(s, t);
    SortedTwo(t);
    assert Round(9.5) == 10 && RoundHalfDown(x) <= 2;
    OnePair(t, 10, RoundHalfDown(x), 10);
    RangesSorted(s, t, 10, [Range(RoundHalfDown(x), 10)]);
  }

  function SubpixelRow(k: int): seq<Range>
  {
    if k == 1 then [Range(1, 6), Range(7, 10)]
    else if k < 4 then [Range(1, 10)]
    else [Range(2, 10)]
  }

  function SubpixelExpected(): map<int, seq<Range>>
  {
    map k | 1 <= k < 7 :: SubpixelRow(k)
  }

  lemma SubpixelExpectedRows(e: map<int, seq<Range>>)
    requires e == SubpixelExpected()
    ensures forall k | 0 <= k < 10 :: RangesAt(e, k) == if 1 <= k < 7 then SubpixelRow(k) else []
    ensures forall k :: k in e ==> 0 <= k < 10 && e[k] != []
  {
  }

  lemma SubpixelLeftRounding(k: int)
    requires 2 <= k < 7
    ensures 1.0 <= SubpixelLeftStop(k) <= 2.0
    ensures RoundHalfDown(SubpixelLeftStop(k)) == if k < 4 then 1 else 2
  {
    if k == 2 {
      assert SubpixelLeftStop(k) == 1.25;
    } else if k == 3 {
      assert SubpixelLeftStop(k) == 17.0 / 12.0;
    } else if k == 4 {
      assert SubpixelLeftStop(k) == 19.0 / 12.0;
    } else if k == 5 {
      assert SubpixelLeftStop(k) == 1.75;
    } else {
      assert SubpixelLeftStop(k) == 23.0 / 12.0;
    }
  }

  lemma SubpixelFromRows(path: FlatPath, kept: seq<Line>, e: map<int, seq<Range>>)
    requires path == SubpixelPath() && kept == SubpixelKeptLines() && e == SubpixelExpected()
    ensures ScanlinesOf(path, 10, 10) == e
  {
    SubpixelKept();
    SubpixelExpectedRows(e);
    forall k | 0 <= k < 10 ensures RowRanges(CrossingStops(kept, k), 10) == RangesAt(e, k) {
      SubpixelRowStops(kept, k);
      if k == 1 {
        SubpixelSpikeRow(CrossingStops(kept, k));
      } else if 2 <= k < 7 {
        SubpixelLeftRounding(k);
        SubpixelSideRow(CrossingStops(kept, k), SubpixelLeftStop(k));
      }
    }
    ScanlinesByRows(path, 10, 10, kept, e);
  }

  /**
   * Sub-pixel geometry: a spike of 0.7 pixels reaches row 1's centre and
   * splits it; the slanted left side moves from pixel 1 to pixel 2 by
   * half-down rounding.
   */
  lemma SubpixelScanlines()
    ensures ScanlinesOf(SubpixelPath(), 10, 10) == SubpixelExpected()
    ensures WellClosed(SubpixelPath())
  {
    SubpixelKept();
    SubpixelFromRows(SubpixelPath(), SubpixelKeptLines(), SubpixelExpected());
  }
}

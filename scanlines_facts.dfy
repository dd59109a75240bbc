/**
 * What the scanline rasteriser promises: which rows a line is sampled on,
 * where its stop lies, that closed paths give every row an even number of
 * stops, and how the ranges of a row relate to each other.
 */
module ScanlinesFacts {
  import opened Numeric
  import opened Points
  import opened Scanlines
  import Sorting

  // ---------------------------------------------------------------------
  // Rows

  /** The line crosses the horizontal at height `c`: one end at or below it, the other above. */
  predicate Crosses(l: Line, c: real)
  {
    (l.p0.y <= c) != (l.p1.y <= c)
  }

  lemma RoundHalfDownAtMost(y: real, k: int)
    requires k >= 0
    ensures RoundHalfDown(y) <= k <==> y <= k as real + 0.5
  {
    if y < 0.0 {
      assert RoundHalfDown(y) == Floor(y);
    }
  }

  /**
   * A line is sampled on row `k` exactly when `k` is a viewport row and the
   * line crosses the row's centre: the scan range is the half-open
   * interval of row centres `[ymin, ymax)`.
   */
  lemma RowSampledIffCrossed(l: Line, areaHeight: u16, k: int)
    ensures RowLo(l) <= k < RowHi(l, areaHeight) <==> 0 <= k < areaHeight && Crosses(l, k as real + 0.5)
  {
    if k >= 0 {
      RoundHalfDownAtMost(Min(l.p0.y, l.p1.y), k);
      RoundHalfDownAtMost(Max(l.p0.y, l.p1.y), k);
    }
  }

  /** A reference definition of a row: the stops of the lines crossing its centre, in drawing order. */
  function CrossingStops(lines: seq<Line>, k: int): seq<real>
    requires forall l :: l in lines ==> l.p0.y != l.p1.y
  {
    if lines == [] then []
    else
      var prefix := lines[..|lines| - 1];
      var l := lines[|lines| - 1];
      assert forall x :: x in prefix ==> x in lines;
      CrossingStops(prefix, k) + (if Crosses(l, k as real + 0.5) then [StopAt(l, k)] else [])
  }

  /** Each viewport row of the stops map holds exactly the crossing stops; other rows are absent. */
  lemma {:induction false} StopsMapRow(lines: seq<Line>, areaHeight: u16, k: int)
    requires forall l :: l in lines ==> l.p0.y != l.p1.y
    requires 0 <= k < areaHeight
    ensures Get(StopsMap(lines, areaHeight), k) == CrossingStops(lines, k)
    ensures k in StopsMap(lines, areaHeight) <==> CrossingStops(lines, k) != []
  {
    if lines != [] {
      var prefix := lines[..|lines| - 1];
      var l := lines[|lines| - 1];
      assert forall x :: x in prefix ==> x in lines;
      StopsMapRow(prefix, areaHeight, k);
      RowSampledIffCrossed(l, areaHeight, k);
    }
  }

  /** The stops of a path's row `k`, by the reference definition. */
  lemma StopsRow(path: FlatPath, areaHeight: u16, k: int)
    ensures 0 <= k < areaHeight ==> Get(Stops(path, areaHeight), k) == CrossingStops(KeptLines(Lines(path), areaHeight), k)
    ensures k in Stops(path, areaHeight) <==> 0 <= k < areaHeight && CrossingStops(KeptLines(Lines(path), areaHeight), k) != []
  {
    StopsMapRowsInViewport(KeptLines(Lines(path), areaHeight), areaHeight);
    if 0 <= k < areaHeight {
      StopsMapRow(KeptLines(Lines(path), areaHeight), areaHeight, k);
    }
  }

  /** The ranges of row `k`, none when the row is absent. */
  function RangesAt(e: map<int, seq<Range>>, k: int): seq<Range>
  {
    if k in e then e[k] else []
  }

  /** Row `k` of a path's scanlines, from the reference definition of its stops. */
  lemma ScanlinesRow(path: FlatPath, areaWidth: u16, areaHeight: u16, k: int)
    ensures var ranges := RowRanges(CrossingStops(KeptLines(Lines(path), areaHeight), k), areaWidth);
      && (k in ScanlinesOf(path, areaWidth, areaHeight) <==> 0 <= k < areaHeight && ranges != [])
      && (k in ScanlinesOf(path, areaWidth, areaHeight) ==> ScanlinesOf(path, areaWidth, areaHeight)[k] == ranges)
  {
    StopsRow(path, areaHeight, k);
  }

  // ---------------------------------------------------------------------
  // Stops

  lemma MulNonnegative(a: real, b: real)
    requires 0.0 <= a && 0.0 <= b
    ensures 0.0 <= a * b
  {
  }

  /** A row's stop lies on its line: between the ends' x and on the line through them. */
  lemma StopOnLine(l: Line, k: int)
    requires l.p0.y != l.p1.y && Crosses(l, k as real + 0.5)
    ensures Min(l.p0.x, l.p1.x) <= StopAt(l, k) <= Max(l.p0.x, l.p1.x)
    ensures (StopAt(l, k) - l.p0.x) * (l.p1.y - l.p0.y) == (k as real + 0.5 - l.p0.y) * (l.p1.x - l.p0.x)
  {
    var dx, dy := l.p1.x - l.p0.x, l.p1.y - l.p0.y;
    var d := k as real + 0.5 - l.p0.y;
    var t := d / dy;
    assert t * dy == d;
    if dy > 0.0 {
      assert 0.0 <= d < dy;
    } else {
      assert dy <= d < 0.0;
    }
    assert 0.0 <= t <= 1.0;
    if dx != 0.0 {
      assert d * (dx / dy) == t * dx;
      assert StopAt(l, k) == l.p0.x + t * dx;
      if dx > 0.0 {
        MulNonnegative(t, dx);
        MulNonnegative(1.0 - t, dx);
      } else {
        MulNonnegative(t, -dx);
        MulNonnegative(1.0 - t, -dx);
      }
    }
  }

  // ---------------------------------------------------------------------
  // Even-odd parity

  /** The number of lines crossing the horizontal at `c`. */
  function Crossings(lines: seq<Line>, c: real): nat
  {
    if lines == [] then 0
    else
      var l := lines[|lines| - 1];
      Crossings(lines[..|lines| - 1], c) + Crossing(l, c)
  }

  lemma {:induction false} CrossingStopsCount(lines: seq<Line>, k: int)
    requires forall l :: l in lines ==> l.p0.y != l.p1.y
    ensures |CrossingStops(lines, k)| == Crossings(lines, k as real + 0.5)
  {
    if lines != [] {
      var prefix := lines[..|lines| - 1];
      assert forall x :: x in prefix ==> x in lines;
      CrossingStopsCount(prefix, k);
    }
  }

  /** The discarded lines never cross a viewport row centre. */
  lemma {:induction false} KeptCrossings(lines: seq<Line>, areaHeight: u16, k: int)
    requires 0 <= k < areaHeight
    ensures Crossings(KeptLines(lines, areaHeight), k as real + 0.5) == Crossings(lines, k as real + 0.5)
  {
    if lines != [] {
      var prefix := lines[..|lines| - 1];
      var l := lines[|lines| - 1];
      KeptCrossings(prefix, areaHeight, k);
      var kept := KeptLines(prefix, areaHeight);
      if KeepLine(l, areaHeight) {
        assert (kept + [l])[..|kept|] == kept;
      } else {
        assert kept + [] == kept;
      }
    }
  }

  /** The pen is where its sub-path started. */
  predicate AtRest(c: Cursor)
  {
    c.lastPoint == c.lastMove
  }

  /** Every move happens with the pen at rest (at the start, after a close, or back at the sub-path's start). */
  predicate MovesAtRest(path: FlatPath)
  {
    if path == [] then true
    else
      var prefix := path[..|path| - 1];
      MovesAtRest(prefix) && (path[|path| - 1].MoveTo? ==> AtRest(CursorAfter(prefix)))
  }

  /** Every sub-path of the path is closed. */
  predicate WellClosed(path: FlatPath)
  {
    MovesAtRest(path) && AtRest(CursorAfter(path))
  }

  /** The lines emitted so far, plus the implicit closing line, cross `c` an even number of times. */
  lemma {:induction false} ParityInvariant(path: FlatPath, c: real)
    requires MovesAtRest(path)
    ensures EvenWithClosing(Lines(path), CursorAfter(path), c)
  {
    if path != [] {
      var prefix := path[..|path| - 1];
      ParityInvariant(prefix, c);
      ParityStep(Lines(prefix), CursorAfter(prefix), path[|path| - 1], c);
    }
  }

  /** `lines` and the line back to the sub-path's start cross `c` an even number of times. */
  predicate EvenWithClosing(lines: seq<Line>, cur: Cursor, c: real)
  {
    (Crossings(lines, c) + Crossing(Line(cur.lastPoint, cur.lastMove), c)) % 2 == 0
  }

  function Crossing(l: Line, c: real): nat
  {
    if Crosses(l, c) then 1 else 0
  }

  /** Going from `p` to `r` by way of `q` crosses `c` as often as going straight, or twice more. */
  lemma DetourCrossings(p: Point, q: Point, r: Point, c: real)
    ensures Crossing(Line(p, q), c) + Crossing(Line(q, r), c) == Crossing(Line(p, r), c)
      || Crossing(Line(p, q), c) + Crossing(Line(q, r), c) == Crossing(Line(p, r), c) + 2
  {
  }

  lemma EvenPlusTwo(n: int)
    requires n % 2 == 0
    ensures (n + 2) % 2 == 0
  {
  }

  /** One segment keeps the parity, provided a move happens with the pen at rest. */
  lemma ParityStep(lines: seq<Line>, cur: Cursor, seg: FlatPathSegment, c: real)
    requires EvenWithClosing(lines, cur, c)
    requires seg.MoveTo? ==> AtRest(cur)
    ensures EvenWithClosing(lines + OptionToSeq(StepLine(cur, seg)), StepCursor(cur, seg), c)
  {
    match seg
    case MoveTo(p) =>
      assert lines + [] == lines;
    case Close =>
      if cur.lastPoint != cur.lastMove {
        CrossingsSnoc(lines, Line(cur.lastPoint, cur.lastMove), c);
      } else {
        assert lines + [] == lines;
      }
    case LineTo(p) =>
      CrossingsSnoc(lines, Line(cur.lastPoint, p), c);
      DetourCrossings(cur.lastPoint, p, cur.lastMove, c);
      var n := Crossings(lines, c) + Crossing(Line(cur.lastPoint, cur.lastMove), c);
      if Crossing(Line(cur.lastPoint, p), c) + Crossing(Line(p, cur.lastMove), c) != Crossing(Line(cur.lastPoint, cur.lastMove), c) {
        EvenPlusTwo(n);
      }
  }

  lemma CrossingsSnoc(lines: seq<Line>, l: Line, c: real)
    ensures Crossings(lines + [l], c) == Crossings(lines, c) + Crossing(l, c)
  {
    assert (lines + [l])[..|lines|] == lines;
  }

  /**
   * Even-odd filling is well defined: when every sub-path is closed, every
   * row holds an even number of stops, so no stop is left unpaired.
   */
  lemma EvenStopsPerRow(path: FlatPath, areaHeight: u16)
    requires WellClosed(path)
    ensures forall k :: k in Stops(path, areaHeight) ==> |Stops(path, areaHeight)[k]| % 2 == 0
  {
    forall k | k in Stops(path, areaHeight)
      ensures |Stops(path, areaHeight)[k]| % 2 == 0
    {
      StopsRow(path, areaHeight, k);
      EvenCrossings(path, areaHeight, k);
    }
  }

  /** A well-closed path's kept lines cross every viewport row centre an even number of times. */
  lemma EvenCrossings(path: FlatPath, areaHeight: u16, k: int)
    requires WellClosed(path) && 0 <= k < areaHeight
    ensures |CrossingStops(KeptLines(Lines(path), areaHeight), k)| % 2 == 0
  {
    var c := k as real + 0.5;
    var kept := KeptLines(Lines(path), areaHeight);
    CrossingStopsCount(kept, k);
    KeptCrossings(Lines(path), areaHeight, k);
    ParityInvariant(path, c);
    var cur := CursorAfter(path);
    assert Crossing(Line(cur.lastPoint, cur.lastMove), c) == 0;
  }

  // ---------------------------------------------------------------------
  // Polygons

  function LineTos(ps: seq<Point>): (r: FlatPath)
    ensures |r| == |ps| && forall i :: 0 <= i < |ps| ==> r[i] == LineTo(ps[i])
  {
    seq(|ps|, i requires 0 <= i < |ps| => LineTo(ps[i]))
  }

  /** `move_to(ps[0]).line_to(ps[1])…` */
  function OpenPath(ps: seq<Point>): FlatPath
    requires |ps| >= 1
  {
    [MoveTo(ps[0])] + LineTos(ps[1..])
  }

  /** `move_to(ps[0]).line_to(ps[1])….close()` */
  function ClosedPath(ps: seq<Point>): FlatPath
    requires |ps| >= 1
  {
    OpenPath(ps) + [Close]
  }

  /** The lines between consecutive points. */
  function Chain(ps: seq<Point>): (r: seq<Line>)
    requires |ps| >= 1
    ensures |r| == |ps| - 1 && forall i :: 0 <= i < |ps| - 1 ==> r[i] == Line(ps[i], ps[i + 1])
  {
    seq(|ps| - 1, i requires 0 <= i < |ps| - 1 => Line(ps[i], ps[i + 1]))
  }

  /** The sides of the polygon: the chain and, unless the last point is the first, the closing side. */
  function Sides(ps: seq<Point>): seq<Line>
    requires |ps| >= 1
  {
    Chain(ps) + (if ps[|ps| - 1] != ps[0] then [Line(ps[|ps| - 1], ps[0])] else [])
  }

  /** An open sub-path emits the lines between its points, whatever came before it. */
  lemma {:induction false} OpenPathLines(pre: FlatPath, ps: seq<Point>)
    requires |ps| >= 1
    ensures CursorAfter(pre + OpenPath(ps)) == Cursor(ps[|ps| - 1], ps[0])
    ensures Lines(pre + OpenPath(ps)) == Lines(pre) + Chain(ps)
    ensures MovesAtRest(pre + OpenPath(ps)) <==> MovesAtRest(pre) && AtRest(CursorAfter(pre))
    decreases |ps|
  {
    if |ps| == 1 {
      assert pre + OpenPath(ps) == pre + [MoveTo(ps[0])];
      SegmentStep(pre, MoveTo(ps[0]));
      assert Lines(pre) + [] == Lines(pre);
    } else {
      var qs := ps[..|ps| - 1];
      OpenPathLines(pre, qs);
      OpenPathSnoc(pre, qs, ps[|ps| - 1]);
      assert qs + [ps[|ps| - 1]] == ps;
    }
  }

  /** One more point on an open sub-path: one more line, from the previous point. */
  lemma OpenPathSnoc(pre: FlatPath, qs: seq<Point>, p: Point)
    requires |qs| >= 1
    requires CursorAfter(pre + OpenPath(qs)) == Cursor(qs[|qs| - 1], qs[0])
    requires Lines(pre + OpenPath(qs)) == Lines(pre) + Chain(qs)
    ensures CursorAfter(pre + OpenPath(qs + [p])) == Cursor(p, qs[0])
    ensures Lines(pre + OpenPath(qs + [p])) == Lines(pre) + Chain(qs + [p])
    ensures MovesAtRest(pre + OpenPath(qs + [p])) <==> MovesAtRest(pre + OpenPath(qs))
  {
    OpenPathAppend(qs, p);
    AppendSegment(pre, OpenPath(qs), LineTo(p));
    ChainAppend(qs, p);
    LineToStep(pre + OpenPath(qs), pre + OpenPath(qs + [p]), p, Lines(pre) + Chain(qs));
  }

  /** A line-to after a path: the pen moves on and one line from its last point is emitted. */
  lemma LineToStep(open: FlatPath, next: FlatPath, p: Point, lines: seq<Line>)
    requires next == open + [LineTo(p)] && Lines(open) == lines
    ensures CursorAfter(next) == Cursor(p, CursorAfter(open).lastMove)
    ensures Lines(next) == lines + [Line(CursorAfter(open).lastPoint, p)]
    ensures MovesAtRest(next) <==> MovesAtRest(open)
  {
    SegmentStep(open, LineTo(p));
  }

  lemma OpenPathAppend(qs: seq<Point>, p: Point)
    requires |qs| >= 1
    ensures OpenPath(qs + [p]) == OpenPath(qs) + [LineTo(p)]
  {
    assert (qs + [p])[1..] == qs[1..] + [p];
    assert LineTos(qs[1..] + [p]) == LineTos(qs[1..]) + [LineTo(p)];
  }

  lemma ChainAppend(qs: seq<Point>, p: Point)
    requires |qs| >= 1
    ensures Chain(qs + [p]) == Chain(qs) + [Line(qs[|qs| - 1], p)]
  {
    var ps := qs + [p];
    assert forall i :: 0 <= i < |qs| ==> ps[i] == qs[i];
  }

  /** Appending one segment steps the cursor, the lines and the move condition once. */
  lemma SegmentStep(path: FlatPath, seg: FlatPathSegment)
    ensures CursorAfter(path + [seg]) == StepCursor(CursorAfter(path), seg)
    ensures Lines(path + [seg]) == Lines(path) + OptionToSeq(StepLine(CursorAfter(path), seg))
    ensures MovesAtRest(path + [seg]) <==> MovesAtRest(path) && (seg.MoveTo? ==> AtRest(CursorAfter(path)))
  {
    assert (path + [seg])[..|path|] == path;
  }

  /** A closed sub-path emits the polygon's sides and returns the pen to rest. */
  lemma ClosedPathLines(pre: FlatPath, ps: seq<Point>)
    requires |ps| >= 1
    ensures CursorAfter(pre + ClosedPath(ps)) == START
    ensures Lines(pre + ClosedPath(ps)) == Lines(pre) + Sides(ps)
    ensures MovesAtRest(pre + ClosedPath(ps)) <==> MovesAtRest(pre) && AtRest(CursorAfter(pre))
    ensures WellClosed(pre) ==> WellClosed(pre + ClosedPath(ps))
  {
    OpenPathLines(pre, ps);
    AppendSegment(pre, OpenPath(ps), Close);
    CloseStep(pre + OpenPath(ps), pre + ClosedPath(ps), Lines(pre) + Chain(ps));
    SidesAfterChain(Lines(pre), ps);
  }

  lemma AppendSegment(pre: FlatPath, open: FlatPath, seg: FlatPathSegment)
    ensures pre + (open + [seg]) == (pre + open) + [seg]
  {
  }

  /** The closing side follows the chain. */
  lemma SidesAfterChain(lines: seq<Line>, ps: seq<Point>)
    requires |ps| >= 1
    ensures (lines + Chain(ps)) + (if ps[|ps| - 1] == ps[0] then [] else [Line(ps[|ps| - 1], ps[0])])
      == lines + Sides(ps)
  {
  }

  /** A close after a path: the pen returns to rest at the origin, emitting the closing line unless already at rest. */
  lemma CloseStep(open: FlatPath, next: FlatPath, lines: seq<Line>)
    requires next == open + [Close] && Lines(open) == lines
    ensures CursorAfter(next) == START
    ensures var cur := CursorAfter(open);
      Lines(next) == lines + (if AtRest(cur) then [] else [Line(cur.lastPoint, cur.lastMove)])
    ensures MovesAtRest(next) <==> MovesAtRest(open)
  {
    SegmentStep(open, Close);
  }

  // ---------------------------------------------------------------------
  // Ranges

  /** A trailing unpaired stop does not change the ranges. */
  lemma {:induction false} OddStopIgnored(stops: seq<real>, areaWidth: u16)
    requires |stops| % 2 == 1
    ensures PairRanges(stops, areaWidth) == PairRanges(stops[..|stops| - 1], areaWidth)
  {
    if |stops| > 1 {
      var rest := stops[2..];
      OddStopIgnored(rest, areaWidth);
      assert stops[..|stops| - 1][2..] == rest[..|rest| - 1];
    }
  }

  /** The order in which lines were drawn does not matter: a row's ranges depend only on its stops' multiset. */
  lemma RowRangesIgnoreOrder(a: seq<real>, b: seq<real>, areaWidth: u16)
    requires multiset(a) == multiset(b)
    ensures RowRanges(a, areaWidth) == RowRanges(b, areaWidth)
  {
    Sorting.RealLeIsTotalOrder();
    Sorting.SortSeqPermutationInvariant(a, b, Sorting.RealLe);
  }

  /** The clamped half-down start a stop gives. */
  function StartOf(x: real, areaWidth: u16): int
  {
    Floor(Clamp(RoundHalfDown(x) as real, 0.0, areaWidth as real))
  }

  /** The clamped rounded end a stop gives. */
  function EndOf(x: real, areaWidth: u16): int
  {
    Floor(Clamp(Round(x) as real, 0.0, areaWidth as real))
  }

  lemma ClampFloorMonotonic(a: int, b: int, areaWidth: u16)
    requires a <= b
    ensures Floor(Clamp(a as real, 0.0, areaWidth as real)) <= Floor(Clamp(b as real, 0.0, areaWidth as real))
  {
  }

  lemma ClampFloorStep(a: int, areaWidth: u16)
    ensures Floor(Clamp((a + 1) as real, 0.0, areaWidth as real)) <= Floor(Clamp(a as real, 0.0, areaWidth as real)) + 1
  {
  }

  /** Larger stops give later starts and ends, and a start at most one pixel before the end. */
  lemma StopBounds(v: real, x: real, areaWidth: u16)
    requires v <= x
    ensures StartOf(v, areaWidth) <= StartOf(x, areaWidth)
    ensures EndOf(v, areaWidth) <= EndOf(x, areaWidth)
    ensures EndOf(v, areaWidth) - 1 <= StartOf(x, areaWidth)
  {
    RoundHalfDownMonotonic(v, x);
    RoundMonotonic(v, x);
    RoundHalfDownBelowRound(v);
    ClampFloorMonotonic(RoundHalfDown(v), RoundHalfDown(x), areaWidth);
    ClampFloorMonotonic(Round(v), Round(x), areaWidth);
    ClampFloorMonotonic(Round(v), RoundHalfDown(v) + 1, areaWidth);
    ClampFloorStep(RoundHalfDown(v), areaWidth);
  }

  /** Every range of stops at or above `v` starts and ends no earlier than `v`'s own would. */
  lemma {:induction false} RangesAbove(stops: seq<real>, v: real, areaWidth: u16)
    requires forall i :: 0 <= i < |stops| ==> v <= stops[i]
    ensures forall r :: r in PairRanges(stops, areaWidth) ==>
      && StartOf(v, areaWidth) <= r.start
      && EndOf(v, areaWidth) <= r.end
      && EndOf(v, areaWidth) - 1 <= r.start
  {
    if |stops| >= 2 {
      RangesAbove(stops[2..], v, areaWidth);
      StopBounds(v, stops[0], areaWidth);
      StopBounds(v, stops[1], areaWidth);
    }
  }

  /**
   * Ranges in order: starts and ends never go back, and a range starts at most
   * one pixel before any earlier one ends. They may overlap by that pixel, as
   * `PairRangesMayOverlap` shows.
   */
  predicate OrderedRanges(r: seq<Range>)
  {
    forall i, j :: 0 <= i < j < |r| ==>
      && r[i].start <= r[j].start
      && r[i].end <= r[j].end
      && r[i].end - 1 <= r[j].start
  }

  lemma OrderedCons(range: Range, rest: seq<Range>)
    requires OrderedRanges(rest)
    requires forall r :: r in rest ==> range.start <= r.start && range.end <= r.end && range.end - 1 <= r.start
    ensures OrderedRanges([range] + rest)
  {
    var r := [range] + rest;
    forall i, j | 0 <= i < j < |r|
      ensures r[i].start <= r[j].start && r[i].end <= r[j].end && r[i].end - 1 <= r[j].start
    {
      assert r[j] == rest[j - 1];
      if i > 0 {
        assert r[i] == rest[i - 1];
      }
    }
  }

  /** The ranges of a sorted row come in order. */
  lemma {:induction false} RangesOrdered(stops: seq<real>, areaWidth: u16)
    requires Sorting.SortedBy(stops, Sorting.RealLe)
    ensures OrderedRanges(PairRanges(stops, areaWidth))
  {
    if |stops| >= 2 {
      var rest := stops[2..];
      assert Sorting.SortedBy(rest, Sorting.RealLe) by {
        forall i, j | 0 <= i < j < |rest| ensures Sorting.RealLe(rest[i], rest[j]) {
          assert rest[i] == stops[i + 2] && rest[j] == stops[j + 2];
        }
      }
      RangesOrdered(rest, areaWidth);
      var range := PairRange(stops[0], stops[1], areaWidth);
      if range.start < range.end {
        assert forall i :: 0 <= i < |rest| ==> stops[1] <= rest[i] by {
          forall i | 0 <= i < |rest| ensures stops[1] <= rest[i] {
            assert Sorting.RealLe(stops[1], stops[i + 2]);
          }
        }
        assert Sorting.RealLe(stops[0], stops[1]);
        RangesAbove(rest, stops[1], areaWidth);
        StopBounds(stops[0], stops[1], areaWidth);
        OrderedCons(range, PairRanges(rest, areaWidth));
      }
    }
  }

  /** Every row's ranges are ordered. */
  lemma RowRangesOrdered(stops: seq<real>, areaWidth: u16)
    ensures OrderedRanges(RowRanges(stops, areaWidth))
  {
    Sorting.RealLeIsTotalOrder();
    Sorting.SortSeqSorted(stops, Sorting.RealLe);
    RangesOrdered(Sorting.SortSeq(stops, Sorting.RealLe), areaWidth);
  }

  /** Two spans meeting at a half-pixel boundary share that pixel. */
  lemma PairRangesMayOverlap()
    ensures PairRanges([1.0, 2.5, 2.5, 4.0], 10) == [Range(1, 3), Range(2, 4)]
  {
    assert RoundHalfDown(1.0) == 1 && Round(2.5) == 3;
    assert RoundHalfDown(2.5) == 2 && Round(4.0) == 4;
    assert [1.0, 2.5, 2.5, 4.0][2..] == [2.5, 4.0];
  }
}

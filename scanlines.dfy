/**
 * The scanline rasteriser (`g2d::raster::scanlines`): a flattened path and a
 * viewport become a sparse map from row to the pixel ranges to fill on it,
 * by even-odd crossing of pixel-centre rows.
 *
 * The flattened path segments are defined here; the path type itself
 * (`g2d::vector::path`) is not part of this model.
 */
module Scanlines {
  import opened Wrappers
  import opened Numeric
  import opened Points
  import Sorting

  /** `FlatPathSegment`: the flattened path's alphabet. */
  datatype FlatPathSegment = MoveTo(point: Point) | LineTo(point: Point) | Close

  type FlatPath = seq<FlatPathSegment>

  /** An edge of the path, from `p0` to `p1`, in drawing order. */
  datatype Line = Line(p0: Point, p1: Point)

  /** A half-open pixel range `start..end` (`Range<u16>`). */
  datatype Range = Range(start: int, end: int)

  // ---------------------------------------------------------------------
  // Edge extraction: the state machine of the `filter_map` closure

  /** The closure's state: the current point and the last move point. */
  datatype Cursor = Cursor(lastPoint: Point, lastMove: Point)

  const START: Cursor := Cursor(ORIGIN_POINT, ORIGIN_POINT)

  /** The state after one segment. */
  function StepCursor(c: Cursor, s: FlatPathSegment): Cursor
  {
    match s
    case MoveTo(p) => Cursor(p, p)
    case Close => START
    case LineTo(p) => Cursor(p, c.lastMove)
  }

  /** The line one segment emits, if any. */
  function StepLine(c: Cursor, s: FlatPathSegment): Option<Line>
  {
    match s
    case MoveTo(_) => None
    case Close => if c.lastPoint != c.lastMove then Some(Line(c.lastPoint, c.lastMove)) else None
    case LineTo(p) => Some(Line(c.lastPoint, p))
  }

  function OptionToSeq<T>(o: Option<T>): seq<T>
  {
    if o.Some? then [o.value] else []
  }

  /** The state after the whole path. */
  function CursorAfter(path: FlatPath): Cursor
  {
    if path == [] then START
    else StepCursor(CursorAfter(path[..|path| - 1]), path[|path| - 1])
  }

  /** All lines the path emits, in order. */
  function Lines(path: FlatPath): seq<Line>
  {
    if path == [] then []
    else
      var prefix := path[..|path| - 1];
      Lines(prefix) + OptionToSeq(StepLine(CursorAfter(prefix), path[|path| - 1]))
  }

  // ---------------------------------------------------------------------
  // Line filtering

  /** Not horizontal, not entirely above the viewport, not entirely below it. */
  predicate KeepLine(l: Line, areaHeight: u16)
  {
    && l.p0.y != l.p1.y
    && !(l.p0.y < 0.0 && l.p1.y < 0.0)
    && !(l.p0.y >= areaHeight as real && l.p1.y >= areaHeight as real)
  }

  function KeptLines(lines: seq<Line>, areaHeight: u16): (r: seq<Line>)
    ensures |r| <= |lines|
    ensures forall l :: l in r ==> l in lines && KeepLine(l, areaHeight)
  {
    if lines == [] then []
    else
      var prefix := lines[..|lines| - 1];
      var l := lines[|lines| - 1];
      KeptLines(prefix, areaHeight) + (if KeepLine(l, areaHeight) then [l] else [])
  }

  // ---------------------------------------------------------------------
  // Row sampling

  /** First sampled row: `max(round_half_down(ymin) + 0.5, 0.5)` less the half. */
  function RowLo(l: Line): int
  {
    var r := RoundHalfDown(Min(l.p0.y, l.p1.y));
    if r >= 0 then r else 0
  }

  /** One past the last sampled row: `min(round_half_down(ymax) - 0.5, h - 0.5)` plus the half. */
  function RowHi(l: Line, areaHeight: u16): int
  {
    var r := RoundHalfDown(Max(l.p0.y, l.p1.y));
    if r <= areaHeight then r else areaHeight
  }

  /** The x stop a sloped or vertical line contributes to a row (sampled at its centre). */
  function StopAt(l: Line, row: int): real
    requires l.p0.y != l.p1.y
  {
    if l.p0.x == l.p1.x then l.p0.x
    else
      var v := Sub(l.p1, l.p0);
      l.p0.x + ((row as real + 0.5) - l.p0.y) * (v.x / v.y)
  }

  function Get(m: map<int, seq<real>>, k: int): seq<real>
  {
    if k in m then m[k] else []
  }

  /** `scanlines.entry(row).or_insert_with(Vec::new).push(stop)`. */
  function Push(m: map<int, seq<real>>, row: int, stop: real): map<int, seq<real>>
  {
    m[row := Get(m, row) + [stop]]
  }

  /** The rows `lo..hi`. */
  function RowSet(lo: int, hi: int): (r: set<int>)
    ensures forall k :: k in r <==> lo <= k < hi
    decreases hi - lo
  {
    if hi <= lo then {} else RowSet(lo, hi - 1) + {hi - 1}
  }

  /** `m` after pushing a line's stop to every row of `lo..hi`. */
  function AddRows(m: map<int, seq<real>>, l: Line, lo: int, hi: int): map<int, seq<real>>
    requires l.p0.y != l.p1.y
  {
    map k | k in m.Keys + RowSet(lo, hi) :: Get(m, k) + (if lo <= k < hi then [StopAt(l, k)] else [])
  }

  function AddLine(m: map<int, seq<real>>, l: Line, areaHeight: u16): map<int, seq<real>>
    requires l.p0.y != l.p1.y
  {
    AddRows(m, l, RowLo(l), RowHi(l, areaHeight))
  }

  /** The stops map produced by sampling `lines` in order. */
  function StopsMap(lines: seq<Line>, areaHeight: u16): map<int, seq<real>>
    requires forall l :: l in lines ==> l.p0.y != l.p1.y
  {
    if lines == [] then map[]
    else
      var prefix := lines[..|lines| - 1];
      assert forall l :: l in prefix ==> l in lines;
      AddLine(StopsMap(prefix, areaHeight), lines[|lines| - 1], areaHeight)
  }

  /** The unordered per-row stops of a path (`scanlines_stops_from_path`). */
  function Stops(path: FlatPath, areaHeight: u16): map<int, seq<real>>
  {
    StopsMap(KeptLines(Lines(path), areaHeight), areaHeight)
  }

  lemma AddRowsNone(m: map<int, seq<real>>, l: Line, lo: int, hi: int)
    requires l.p0.y != l.p1.y && hi <= lo
    ensures AddRows(m, l, lo, hi) == m
  {
    forall k | k in m ensures Get(m, k) + [] == m[k] {
    }
  }

  lemma AddRowsStep(m: map<int, seq<real>>, l: Line, lo: int, k: int)
    requires l.p0.y != l.p1.y && lo <= k
    ensures Push(AddRows(m, l, lo, k), k, StopAt(l, k)) == AddRows(m, l, lo, k + 1)
  {
    var a := Push(AddRows(m, l, lo, k), k, StopAt(l, k));
    var b := AddRows(m, l, lo, k + 1);
    assert a.Keys == b.Keys;
    forall j | j in a ensures a[j] == b[j] {
      if j == k {
        assert Get(AddRows(m, l, lo, k), k) == Get(m, k);
      }
    }
  }

  /** The vertical-line loop: the same x at every row centre from `curY` to `lastY`. */
  method SampleVertical(scanlines: map<int, seq<real>>, line: Line, curY0: real, lastY: real,
                        ghost lo: int, ghost hi: int)
    returns (r: map<int, seq<real>>)
    requires line.p0.y != line.p1.y && line.p0.x == line.p1.x
    requires curY0 == lo as real + 0.5 && lastY == hi as real - 0.5
    ensures r == AddRows(scanlines, line, lo, hi)
  {
    r := scanlines;
    var curY := curY0;
    ghost var row := lo;
    AddRowsNone(scanlines, line, lo, lo);
    while curY <= lastY
      invariant curY == row as real + 0.5
      invariant lo <= row && (row <= hi || row == lo)
      invariant r == AddRows(scanlines, line, lo, row)
      decreases hi - row
    {
      assert Floor(curY) == row;
      AddRowsStep(scanlines, line, lo, row);
      r := Push(r, Floor(curY), line.p0.x);
      curY := curY + 1.0;
      row := row + 1;
    }
    if row != hi {
      AddRowsNone(scanlines, line, lo, hi);
    }
  }

  /** The sloped-line loop: x follows the line's slope from row centre to row centre. */
  method SampleSloped(scanlines: map<int, seq<real>>, line: Line, curY0: real, lastY: real,
                      ghost lo: int, ghost hi: int)
    returns (r: map<int, seq<real>>)
    requires line.p0.y != line.p1.y && line.p0.x != line.p1.x
    requires curY0 == lo as real + 0.5 && lastY == hi as real - 0.5
    ensures r == AddRows(scanlines, line, lo, hi)
  {
    r := scanlines;
    var curY := curY0;
    ghost var row := lo;
    var v := Sub(line.p1, line.p0);
    var slopeXByY := v.x / v.y;
    AddRowsNone(scanlines, line, lo, lo);
    while curY <= lastY
      invariant curY == row as real + 0.5
      invariant lo <= row && (row <= hi || row == lo)
      invariant r == AddRows(scanlines, line, lo, row)
      decreases hi - row
    {
      assert Floor(curY) == row;
      assert line.p0.x + (curY - line.p0.y) * slopeXByY == StopAt(line, row);
      AddRowsStep(scanlines, line, lo, row);
      r := Push(r, Floor(curY), line.p0.x + (curY - line.p0.y) * slopeXByY);
      curY := curY + 1.0;
      row := row + 1;
    }
    if row != hi {
      AddRowsNone(scanlines, line, lo, hi);
    }
  }

  /**
   * The body of the `for_each` closure: walks the pixel-centre rows of one kept
   * line, pushing the line's x stop at each.
   */
  method SampleLine(scanlines: map<int, seq<real>>, line: Line, areaHeight: u16)
    returns (r: map<int, seq<real>>)
    requires KeepLine(line, areaHeight)
    ensures r == AddLine(scanlines, line, areaHeight)
  {
    var curY := Max(RoundHalfDown(Min(line.p0.y, line.p1.y)) as real + 0.5, 0.5);
    var lastY := Min(RoundHalfDown(Max(line.p0.y, line.p1.y)) as real - 0.5, areaHeight as real - 0.5);
    if line.p0.x == line.p1.x {
      r := SampleVertical(scanlines, line, curY, lastY, RowLo(line), RowHi(line, areaHeight));
    } else {
      r := SampleSloped(scanlines, line, curY, lastY, RowLo(line), RowHi(line, areaHeight));
    }
  }

  lemma PathStep(path: FlatPath, i: int)
    requires 0 <= i < |path|
    ensures CursorAfter(path[..i + 1]) == StepCursor(CursorAfter(path[..i]), path[i])
    ensures Lines(path[..i + 1]) == Lines(path[..i]) + OptionToSeq(StepLine(CursorAfter(path[..i]), path[i]))
  {
    assert path[..i + 1][..i] == path[..i];
  }

  lemma KeptStep(lines: seq<Line>, o: Option<Line>, areaHeight: u16)
    ensures var before := StopsMap(KeptLines(lines, areaHeight), areaHeight);
      StopsMap(KeptLines(lines + OptionToSeq(o), areaHeight), areaHeight)
        == if o.Some? && KeepLine(o.value, areaHeight) then AddLine(before, o.value, areaHeight) else before
  {
    if o.Some? {
      KeptSnoc(lines, o.value, areaHeight);
      var kept := KeptLines(lines, areaHeight);
      if KeepLine(o.value, areaHeight) {
        StopsMapSnoc(kept, o.value, areaHeight);
      } else {
        assert kept + [] == kept;
      }
    } else {
      assert lines + [] == lines;
    }
  }

  lemma KeptSnoc(lines: seq<Line>, l: Line, areaHeight: u16)
    ensures KeptLines(lines + [l], areaHeight) == KeptLines(lines, areaHeight) + (if KeepLine(l, areaHeight) then [l] else [])
  {
    assert (lines + [l])[..|lines|] == lines;
  }

  lemma StopsMapSnoc(kept: seq<Line>, l: Line, areaHeight: u16)
    requires forall x :: x in kept ==> x.p0.y != x.p1.y
    requires l.p0.y != l.p1.y
    ensures forall x :: x in kept + [l] ==> x.p0.y != x.p1.y
    ensures StopsMap(kept + [l], areaHeight) == AddLine(StopsMap(kept, areaHeight), l, areaHeight)
  {
    assert (kept + [l])[..|kept|] == kept;
  }

  /**
   * `scanlines_stops_from_path`: one pass over the segments that tracks the
   * current and move points, emits lines, discards unwanted ones and samples
   * the rest.
   */
  method StopsFromPath(path: FlatPath, areaHeight: u16) returns (scanlines: map<int, seq<real>>)
    ensures scanlines == Stops(path, areaHeight)
  {
    scanlines := map[];
    var lastPoint, lastMove := ORIGIN_POINT, ORIGIN_POINT;
    for i := 0 to |path|
      invariant Cursor(lastPoint, lastMove) == CursorAfter(path[..i])
      invariant scanlines == StopsMap(KeptLines(Lines(path[..i]), areaHeight), areaHeight)
    {
      PathStep(path, i);
      KeptStep(Lines(path[..i]), StepLine(Cursor(lastPoint, lastMove), path[i]), areaHeight);
      var line: Option<Line>;
      match path[i] {
        case MoveTo(point) =>
          lastMove := point;
          lastPoint := lastMove;
          line := None;
        case Close =>
          line := if lastPoint != lastMove then Some(Line(lastPoint, lastMove)) else None;
          lastMove := ORIGIN_POINT;
          lastPoint := lastMove;
        case LineTo(point) =>
          var oldLastPoint := lastPoint;
          lastPoint := point;
          line := Some(Line(oldLastPoint, point));
      }
      if line.Some? && KeepLine(line.value, areaHeight) {
        scanlines := SampleLine(scanlines, line.value, areaHeight);
      }
    }
    assert path[..|path|] == path;
  }

  // ---------------------------------------------------------------------
  // Pairing and trimming

  /** One `chunks_exact(2)` pair as a range: half-down start, rounded end, both clamped. */
  function PairRange(first: real, second: real, areaWidth: u16): (r: Range)
    ensures 0 <= r.start <= areaWidth && 0 <= r.end <= areaWidth
  {
    Range(Floor(Clamp(RoundHalfDown(first) as real, 0.0, areaWidth as real)),
          Floor(Clamp(Round(second) as real, 0.0, areaWidth as real)))
  }

  predicate ValidRange(r: Range, areaWidth: u16)
  {
    0 <= r.start < r.end <= areaWidth
  }

  /**
   * The non-empty ranges of the consecutive stop pairs; a trailing unpaired
   * stop is ignored.
   */
  function PairRanges(stops: seq<real>, areaWidth: u16): (r: seq<Range>)
    ensures forall i :: 0 <= i < |r| ==> ValidRange(r[i], areaWidth)
    ensures |r| <= |stops| / 2
  {
    if |stops| < 2 then []
    else
      var range := PairRange(stops[0], stops[1], areaWidth);
      (if range.start < range.end then [range] else []) + PairRanges(stops[2..], areaWidth)
  }

  /** One row: sort the stops ascending, then pair and trim them. */
  function RowRanges(stops: seq<real>, areaWidth: u16): (r: seq<Range>)
    ensures forall i :: 0 <= i < |r| ==> ValidRange(r[i], areaWidth)
    ensures |r| <= |stops| / 2
  {
    PairRanges(Sorting.SortSeq(stops, Sorting.RealLe), areaWidth)
  }

  /** `scanlines_ranges_trimmed`: every row's ranges, rows left without ranges dropped. */
  function RangesTrimmed(scanlines: map<int, seq<real>>, areaWidth: u16): (r: map<int, seq<Range>>)
    ensures forall k :: k in r <==> k in scanlines && RowRanges(scanlines[k], areaWidth) != []
    ensures forall k :: k in r ==> r[k] != []
    ensures forall k, i :: k in r && 0 <= i < |r[k]| ==> ValidRange(r[k][i], areaWidth)
  {
    map k | k in scanlines && RowRanges(scanlines[k], areaWidth) != [] :: RowRanges(scanlines[k], areaWidth)
  }

  /** What `scanlines_from_path` returns. */
  function ScanlinesOf(path: FlatPath, areaWidth: u16, areaHeight: u16): map<int, seq<Range>>
  {
    RangesTrimmed(Stops(path, areaHeight), areaWidth)
  }

  /** Every row the sampling touches lies in the viewport. */
  lemma {:induction false} StopsMapRowsInViewport(lines: seq<Line>, areaHeight: u16)
    requires forall l :: l in lines ==> l.p0.y != l.p1.y
    ensures forall k :: k in StopsMap(lines, areaHeight) ==> 0 <= k < areaHeight
  {
    if lines != [] {
      var prefix := lines[..|lines| - 1];
      assert forall l :: l in prefix ==> l in lines;
      StopsMapRowsInViewport(prefix, areaHeight);
    }
  }

  /**
   * `scanlines_from_path`: rows in the viewport, no empty row, every range
   * non-empty and inside `[0, areaWidth]`.
   */
  method ScanlinesFromPath(path: FlatPath, areaWidth: u16, areaHeight: u16)
    returns (r: map<int, seq<Range>>)
    ensures r == ScanlinesOf(path, areaWidth, areaHeight)
    ensures forall k :: k in r ==> 0 <= k < areaHeight && r[k] != []
    ensures forall k, i :: k in r && 0 <= i < |r[k]| ==> 0 <= r[k][i].start < r[k][i].end <= areaWidth
  {
    var stops := StopsFromPath(path, areaHeight);
    StopsMapRowsInViewport(KeptLines(Lines(path), areaHeight), areaHeight);
    r := RangesTrimmed(stops, areaWidth);
  }
}

/**
 * The earlier scanline rasteriser (`g2d::raster::scanline`): each line is
 * turned downwards before it is sampled, and every row's sorted stops are
 * rounded and clamped one by one, odd stops half-down and even stops
 * half-up, into a row-ordered list. Unpaired stops and empty pairs are kept.
 */
module Scanline {
  import opened Wrappers
  import opened Numeric
  import opened Points
  import opened Scanlines
  import Sorting

  /** One output row: its index and its trimmed stops (`(u16, Vec<u16>)`). */
  datatype Row = Row(row: int, stops: seq<int>)

  /** `if line.0.y > line.1.y {(line.1, line.0)} else {line}` */
  function Downwards(l: Line): (r: Line)
    ensures r.p0.y <= r.p1.y
    ensures (r == l) || (r == Line(l.p1, l.p0))
  {
    if l.p0.y > l.p1.y then Line(l.p1, l.p0) else l
  }

  lemma SlopeSymmetric(x0: real, y0: real, x1: real, y1: real, c: real)
    requires y0 != y1
    ensures x1 + (c - y1) * ((x0 - x1) / (y0 - y1)) == x0 + (c - y0) * ((x1 - x0) / (y1 - y0))
  {
    var q := (x1 - x0) / (y1 - y0);
    assert (x0 - x1) / (y0 - y1) == q;
    assert (y1 - y0) * q == x1 - x0;
    calc {
      x1 + (c - y1) * q;
      x1 + (c - y0) * q - (y1 - y0) * q;
      x0 + (c - y0) * q;
    }
  }

  /** Turning a line round changes neither its sampled rows nor its stops. */
  lemma DownwardsSamplesAlike(l: Line, areaHeight: u16, row: int)
    requires l.p0.y != l.p1.y
    ensures RowLo(Downwards(l)) == RowLo(l) && RowHi(Downwards(l), areaHeight) == RowHi(l, areaHeight)
    ensures StopAt(Downwards(l), row) == StopAt(l, row)
  {
    if Downwards(l) != l {
      var r := Line(l.p1, l.p0);
      assert Min(r.p0.y, r.p1.y) == Min(l.p0.y, l.p1.y) && Max(r.p0.y, r.p1.y) == Max(l.p0.y, l.p1.y);
      ReversedStop(l, r, row);
    }
  }

  lemma ReversedStop(l: Line, r: Line, row: int)
    requires l.p0.y != l.p1.y && r == Line(l.p1, l.p0)
    ensures StopAt(r, row) == StopAt(l, row)
  {
    if l.p0.x != l.p1.x {
      SlopeSymmetric(l.p0.x, l.p0.y, l.p1.x, l.p1.y, row as real + 0.5);
    }
  }

  lemma AddRowsDownwards(m: map<int, seq<real>>, l: Line, lo: int, hi: int)
    requires l.p0.y != l.p1.y
    ensures AddRows(m, Downwards(l), lo, hi) == AddRows(m, l, lo, hi)
  {
    forall k | lo <= k < hi ensures StopAt(Downwards(l), k) == StopAt(l, k) {
      DownwardsSamplesAlike(l, 0, k);
    }
  }

  /** The `for_each` body on a line turned downwards. */
  method SampleDownwards(scanlines: map<int, seq<real>>, line: Line, areaHeight: u16)
    returns (r: map<int, seq<real>>)
    requires line.p0.y < line.p1.y
    ensures r == AddRows(scanlines, line, RowLo(line), RowHi(line, areaHeight))
  {
    var curY := Max(RoundHalfDown(line.p0.y) as real + 0.5, 0.5);
    var lastY := Min(RoundHalfDown(line.p1.y) as real - 0.5, areaHeight as real - 0.5);
    if line.p0.x == line.p1.x {
      r := SampleVertical(scanlines, line, curY, lastY, RowLo(line), RowHi(line, areaHeight));
    } else {
      r := SampleSloped(scanlines, line, curY, lastY, RowLo(line), RowHi(line, areaHeight));
    }
  }

  /**
   * `scanlines_from_path_unordered`: the same stops, row by row and in the
   * same order, as the current rasteriser's `scanlines_stops_from_path`.
   */
  method UnorderedStops(path: FlatPath, areaHeight: u16) returns (scanlines: map<int, seq<real>>)
    ensures scanlines == Stops(path, areaHeight)
  {
    scanlines := map[];
    var lastPoint, lastMove := ORIGIN_POINT, ORIGIN_POINT;
    for i := 0 to |path|
      invariant Cursor(lastPoint, lastMove) == CursorAfter(path[..i])
      invariant scanlines == StopsMap(KeptLines(Lines(path[..i]), areaHeight), areaHeight)
    {
      PathStep(path, i);
      KeptStep(Lines(path[..i]), StepLine(Cursor(lastPoint, lastMove), path[i]), areaHeight);
      var line: Option<Line>;
      match path[i] {
        case MoveTo(point) =>
          lastMove := point;
          lastPoint := lastMove;
          line := None;
        case Close =>
          line := if lastPoint != lastMove then Some(Line(lastPoint, lastMove)) else None;
          lastMove := ORIGIN_POINT;
          lastPoint := lastMove;
        case LineTo(point) =>
          var oldLastPoint := lastPoint;
          lastPoint := point;
          line := Some(Line(oldLastPoint, point));
      }
      if line.Some? && KeepLine(line.value, areaHeight) {
        var down := Downwards(line.value);
        DownwardsSamplesAlike(line.value, areaHeight, 0);
        AddRowsDownwards(scanlines, line.value, RowLo(line.value), RowHi(line.value, areaHeight));
        scanlines := SampleDownwards(scanlines, down, areaHeight);
      }
    }
    assert path[..|path|] == path;
  }

  // ---------------------------------------------------------------------
  // Ordering and trimming

  /** One stop: `0` left of the area, `areaWidth` right of it, otherwise rounded by its parity. */
  function TrimStop(stop: real, odd: bool, areaWidth: u16): (r: int)
    ensures 0 <= r <= areaWidth
  {
    if stop < 0.0 then 0
    else if stop > areaWidth as real then areaWidth
    else if odd then RoundHalfDown(stop)
    else Round(stop)
  }

  /** All stops of a row, the first one odd. */
  function TrimStops(stops: seq<real>, areaWidth: u16): (r: seq<int>)
    ensures |r| == |stops|
    ensures forall i :: 0 <= i < |r| ==> 0 <= r[i] <= areaWidth
  {
    seq(|stops|, i requires 0 <= i < |stops| => TrimStop(stops[i], i % 2 == 0, areaWidth))
  }

  /** The `map` over a row with its `odd` toggle. */
  method TrimRow(stops: seq<real>, areaWidth: u16) returns (r: seq<int>)
    ensures r == TrimStops(stops, areaWidth)
  {
    var odd := false;
    r := [];
    for i := 0 to |stops|
      invariant odd == (i % 2 == 1)
      invariant r == TrimStops(stops[..i], areaWidth)
    {
      odd := !odd;
      var stop := stops[i];
      var v;
      if stop < 0.0 {
        v := 0;
      } else if stop > areaWidth as real {
        v := areaWidth;
      } else {
        v := if odd then RoundHalfDown(stop) else Round(stop);
      }
      r := r + [v];
    }
    assert stops[..|stops|] == stops;
  }

  predicate StrictlyIncreasing(s: seq<int>)
  {
    forall i, j :: 0 <= i < j < |s| ==> s[i] < s[j]
  }

  /**
   * What `scanlines_order_and_trim` returns for `scanlines`: one row per key,
   * in ascending row order, each the trimmed sorted stops of that key.
   */
  ghost predicate OrderedTrimOf(rows: seq<Row>, scanlines: map<int, seq<real>>, areaWidth: u16)
  {
    && (forall i, j :: 0 <= i < j < |rows| ==> rows[i].row < rows[j].row)
    && (forall k :: k in scanlines <==> exists i :: 0 <= i < |rows| && rows[i].row == k)
    && (forall i :: 0 <= i < |rows| ==>
          rows[i].row in scanlines
          && rows[i].stops == TrimStops(Sorting.SortSeq(scanlines[rows[i].row], Sorting.RealLe), areaWidth))
  }

  lemma MultisetOfSetAtMostOne(s: set<int>, x: int)
    ensures multiset(s)[x] <= 1
  {
  }

  lemma TwoIndicesTwice(s: seq<int>, i: int, j: int)
    requires 0 <= i < j < |s| && s[i] == s[j]
    ensures multiset(s)[s[i]] >= 2
  {
    assert s == s[..j] + s[j..];
    assert s[i] in s[..j];
    assert s[j] in s[j..];
  }

  /** A member of a non-empty set, as a witness for `:|`. */
  lemma Member<T>(s: set<T>) returns (x: T)
    requires s != {}
    ensures x in s
  {
    x :| x in s;
  }

  /** The keys of `scanlines` in ascending order: collected in any order, then sorted. */
  method SortedKeys(scanlines: map<int, seq<real>>) returns (keys: seq<int>)
    ensures StrictlyIncreasing(keys)
    ensures forall k :: k in scanlines <==> k in keys
  {
    var collected := [];
    var rest := scanlines.Keys;
    while rest != {}
      invariant rest <= scanlines.Keys
      invariant multiset(collected) == multiset(scanlines.Keys - rest)
      decreases |rest|
    {
      ghost var some := Member(rest);
      var k :| k in rest;
      assert scanlines.Keys - (rest - {k}) == (scanlines.Keys - rest) + {k};
      collected := collected + [k];
      rest := rest - {k};
    }
    assert scanlines.Keys - rest == scanlines.Keys;
    keys := Sorting.SortSeq(collected, Sorting.IntLe);
    Sorting.IntLeIsTotalOrder();
    Sorting.SortSeqSorted(collected, Sorting.IntLe);
    SortedSetIncreasing(keys, scanlines.Keys);
  }

  /** An ascending arrangement of a set's members has no repeats and holds exactly the set. */
  lemma SortedSetIncreasing(keys: seq<int>, s: set<int>)
    requires Sorting.SortedBy(keys, Sorting.IntLe) && multiset(keys) == multiset(s)
    ensures StrictlyIncreasing(keys)
    ensures forall k :: k in s <==> k in keys
  {
    forall i, j | 0 <= i < j < |keys| ensures keys[i] < keys[j] {
      assert Sorting.IntLe(keys[i], keys[j]);
      if keys[i] == keys[j] {
        TwoIndicesTwice(keys, i, j);
        MultisetOfSetAtMostOne(s, keys[i]);
        assert false;
      }
    }
    forall k ensures k in s <==> k in keys {
      assert k in keys <==> k in multiset(keys);
    }
  }

  /**
   * `scanlines_order_and_trim`: walks the sorted keys, removing each row from
   * the map, sorting its stops and trimming them.
   */
  method OrderAndTrim(scanlines: map<int, seq<real>>, areaWidth: u16) returns (rows: seq<Row>)
    ensures OrderedTrimOf(rows, scanlines, areaWidth)
  {
    var keys := SortedKeys(scanlines);
    var remaining := scanlines;
    rows := [];
    for n := 0 to |keys|
      invariant |rows| == n
      invariant forall i :: 0 <= i < n ==> rows[i].row == keys[i]
      invariant forall i :: 0 <= i < n ==>
        rows[i].stops == TrimStops(Sorting.SortSeq(scanlines[keys[i]], Sorting.RealLe), areaWidth)
      invariant remaining == map k | k in scanlines && k !in keys[..n] :: scanlines[k]
    {
      var key := keys[n];
      assert key in remaining;
      var scanline := remaining[key];
      remaining := remaining - {key};
      assert keys[..n + 1] == keys[..n] + [key];
      scanline := Sorting.SortSeq(scanline, Sorting.RealLe);
      var trimmed := TrimRow(scanline, areaWidth);
      rows := rows + [Row(key, trimmed)];
    }
    forall k | k in scanlines ensures exists i :: 0 <= i < |rows| && rows[i].row == k {
      var i :| 0 <= i < |keys| && keys[i] == k;
      assert rows[i].row == k;
    }
  }

  /** `scanlines_from_path` of the earlier rasteriser. */
  method ScanlinesFromPath(path: FlatPath, areaWidth: u16, areaHeight: u16) returns (rows: seq<Row>)
    ensures OrderedTrimOf(rows, Stops(path, areaHeight), areaWidth)
    ensures forall i :: 0 <= i < |rows| ==> 0 <= rows[i].row < areaHeight
  {
    var scanlines := UnorderedStops(path, areaHeight);
    rows := OrderAndTrim(scanlines, areaWidth);
    StopsMapRowsInViewport(KeptLines(Lines(path), areaHeight), areaHeight);
  }
}

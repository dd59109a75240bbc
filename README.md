# SSB subtitle renderer and parser core, modelled in Dafny

SSB is a subtitle format. Its Rust implementation has two parts:

- a parser that reads a script into events, macros and resources;
- a renderer that draws the events on video frames.

This project models the logic of both that can be stated exactly:

- **Renderer geometry (`ssb_renderer/src/g2d`).**
  - Point arithmetic.
  - Flattening of arcs and cubic Bezier curves into polylines.
  - The scanline rasteriser, in both its versions:
    - the current one turns a flat path into a map from pixel row to the pixel ranges to fill;
    - the earlier one turns it into an ordered list of rows, each holding clamped and rounded stops.
- **Renderer entry point (`rendering.rs`).** The trigger rule that decides whether an image is painted, and the in-place overwrite of the pixel buffer.
- **Parser decoders.** The string and byte tables that turn script words into enums, the `Default` values, `Ssb::default`, and the `Display` form of a font face.

Coordinates are exact `real`s. Rust's `u8`, `u16` and `u32` are subset types of `int`.

The stateful parts are imperative Dafny, each proved against a specification function:

- `Scanlines.StopsFromPath` and `Scanline.UnorderedStops` walk the path with a cursor and fill a row map in `while` loops.
- `Scanline.OrderAndTrim` sorts the keys and trims each row.
- `Flatten.FlattenArc` runs the rotation loop; `Flatten.FlattenCurve` drains the curve work stack.
- `Points.PointCell.AddAssign` updates a point in place.
- `Rendering.SsbRenderer.Render` overwrites an `array<u32>` pixel buffer.

The arithmetic helpers the rasteriser relies on are modelled in `Numeric`:

- `round_half_down` follows `scanline.rs:115-117`: floor when the fractional part is at most one half, ceiling otherwise. Rust's `fract` is negative for negative inputs, so every negative non-integer is floored.
- `f32::round` rounds halves away from zero.
- `clamp` clamps to a closed interval.
- A range is empty when its start is not below its end.

The standard library's sort is modelled by what it promises. `Sorting.SortSeq` yields a sorted permutation, and `Sorting.SortedUnique` shows that sorted permutation is unique. So any correct sort gives the same result.

Main results:

- **Every row is inside the viewport.** Both rasterisers key rows only in `[0, height)`.
- **Ranges are well formed.** Every range of the current rasteriser satisfies `0 <= start < end <= width`, and no row maps to an empty list.
- **Ranges may overlap.** A row's ranges come out in ascending order (`ScanlinesFacts.RowRangesOrdered`), but two consecutive ones can share a pixel: stops 1, 2.5, 2.5, 4 give 1..3 and 2..4 (`ScanlinesFacts.PairRangesMayOverlap`).
- **Flattening follows the curve.** Every point `flatten_curve` emits is a point of the input curve, at strictly rising parameters from 0, and each emitted segment's piece traces the input curve between those parameters; once the work stack is drained the last parameter is 1.
- **Sampling rule.** A row is sampled for an edge exactly when the row's pixel centre is crossed by the edge's half-open y span. The sampled x lies on the edge.
- **Order does not matter.** The ranges do not depend on the order in which stops arrived.
- **Parity.** A path whose every sub-path is closed before the next move gives each row an even number of stops.
- **The two rasterisers agree.** Pairing the earlier rasteriser's trimmed stops and dropping empty pairs gives the current rasteriser's ranges, row by row.
- **Fixtures.** The unit-test fixtures of both rasterisers and of the decoders are proved as stated in the tests. So are those of the flattener, with two exceptions, both listed under "Left out": the complex-curve fixture is not stated, and the end point of the -270 degree arc is proved only given the sine and cosine of that angle.
- **Arc end point.** See "Findings": `flatten_arc` loses the arc's end point when the number of lines is a whole number.

## Model

| member | source | states |
|---|---|---|
| Numeric.Floor | ssb_renderer/src/g2d/raster/scanline.rs:116 | the result is the greatest integer not above `x` |
| Numeric.Ceil | ssb_renderer/src/g2d/raster/scanline.rs:116 | the result is the least integer not below `x` |
| Numeric.Trunc | ssb_renderer/src/g2d/raster/scanline.rs:116 | rounds toward zero: the result keeps the sign of the input and lies less than 1 from it, on the side of 0 |
| Numeric.Fract | ssb_renderer/src/g2d/raster/scanline.rs:116 | the fractional part lies in (-1, 1) and has the sign of `x` |
| Numeric.RoundHalfDown | ssb_renderer/src/g2d/raster/scanline.rs:115-117 | for x >= 0 the result is the nearest integer with halves rounded down; every negative input is floored |
| Numeric.Round | ssb_renderer/src/g2d/raster/scanlines.rs:98 | the nearest integer, halves rounded away from zero |
| Numeric.Clamp | ssb_renderer/src/g2d/raster/scanlines.rs:96-98 | the result lies in [lo, hi]; it is `x` inside the interval and the nearer bound outside it |
| Numeric.Min | ssb_renderer/src/g2d/raster/scanlines.rs:62 | the result is one of the arguments and below both |
| Numeric.Max | ssb_renderer/src/g2d/raster/scanlines.rs:62-63 | the result is one of the arguments and above both |
| Numeric.RoundHalfDownIsCeilBelowHalf | ssb_renderer/src/g2d/raster/scanline.rs:115-117 | on non-negative inputs round-half-down equals `ceil(x - 1/2)` |
| Numeric.RoundHalfDownMonotonic | ssb_renderer/src/g2d/raster/scanline.rs:115-117 | round-half-down is monotonic |
| Numeric.RoundMonotonic | ssb_renderer/src/g2d/raster/scanlines.rs:98 | `round` is monotonic |
| Numeric.RoundHalfDownBelowRound | ssb_renderer/src/g2d/raster/scanline.rs:103 | round-half-down is at most `round` and at most one below it; on non-negative inputs they differ exactly on halves |
| Numeric.RoundingsFixIntegers | ssb_renderer/src/g2d/raster/scanline.rs:103 | both roundings leave integers unchanged |
| Points.DefaultPoint | ssb_renderer/src/g2d/vector/point.rs:7-11 | the derived default is `ORIGIN_POINT` (0, 0) |
| Points.Abs | ssb_renderer/src/g2d/vector/point.rs:52 | the absolute value is non-negative and is `v` or `-v` |
| Points.GridLen | ssb_renderer/src/g2d/vector/point.rs:51-53 | the Manhattan length is non-negative, zero exactly at the origin, and at least each coordinate's absolute value |
| Points.Add | ssb_renderer/src/g2d/vector/point.rs:14-22 | definition; specified by `SubUndoesAdd`, `AddCommutes` and `AddOriginIdentity` |
| Points.Sub | ssb_renderer/src/g2d/vector/point.rs:29-37 | definition; specified by `SubUndoesAdd` and `AddOriginIdentity` |
| Points.Mul | ssb_renderer/src/g2d/vector/point.rs:38-46 | definition; specified by `MulDistributesOverSub` |
| Points.SubUndoesAdd | ssb_renderer/src/g2d/vector/point.rs:14-37 | subtraction and addition are inverse |
| Points.AddCommutes | ssb_renderer/src/g2d/vector/point.rs:14-22 | addition commutes |
| Points.AddOriginIdentity | ssb_renderer/src/g2d/vector/point.rs:57 | the origin is the identity of addition and subtraction |
| Points.MulDistributesOverSub | ssb_renderer/src/g2d/vector/point.rs:29-46 | scaling distributes over a difference |
| Points.GridLenTriangle | ssb_renderer/src/g2d/vector/point.rs:51-53 | the Manhattan length obeys the triangle inequality |
| Points.PointCell.constructor | ssb_renderer/src/g2d/vector/point.rs:8-11 | a new cell holds the given point |
| Points.PointCell.AddAssign | ssb_renderer/src/g2d/vector/point.rs:23-28 | the cell now holds the old value plus `other`, and nothing else changes |
| Flatten.ToRadians | ssb_renderer/src/g2d/vector/flatten.rs:16 | the conversion keeps zero and the sign |
| Flatten.Rotate | ssb_renderer/src/g2d/vector/flatten.rs:30-33 | rotation by sine 0 and cosine 1 is the identity |
| Flatten.SqLen | ssb_renderer/src/g2d/vector/flatten.rs:18 | the squared length is non-negative |
| Flatten.Intermediates | ssb_renderer/src/g2d/vector/flatten.rs:28-36 | the `i`-th pushed point is the center plus the vector rotated `i + 1` steps |
| Flatten.ArcPoints | ssb_renderer/src/g2d/vector/flatten.rs:10-48 | the output begins with the start point, and is exactly `[start]` when start equals center or the angle is zero |
| Flatten.FlattenArc | ssb_renderer/src/g2d/vector/flatten.rs:10-48 | the method returns `ArcPoints` of its inputs |
| Flatten.RotationSteps | ssb_renderer/src/g2d/vector/flatten.rs:26-36 | the rotation loop returns `Intermediates`: after `i` turns the vector is rotated `i` steps |
| Flatten.LinesNPositive | ssb_renderer/src/g2d/vector/flatten.rs:12-18 | a non-degenerate arc is cut into a positive number of lines |
| Flatten.ArcPointCount | ssb_renderer/src/g2d/vector/flatten.rs:18-45 | the count is `ceil(n) + 1` ending at the arc end when `n` is not whole, `ceil(n)` when it is, and `[start, end]` when `n < 1` |
| Flatten.WholeArcStopsShort | ssb_renderer/src/g2d/vector/flatten.rs:25-45 | when `n` is whole the output is the start plus `ceil(n) - 1` rotations, with no end point |
| Flatten.OneRadianArcDropsEnd | ssb_renderer/src/g2d/vector/flatten.rs:39-45 | radius 0.75 and one radian give `n == 1`; the output is `[start]` though the arc ends elsewhere |
| Flatten.ArcPointsToEnd | ssb_renderer/src/g2d/vector/flatten.rs:10-48 | the corrected arc begins with the start and is `[start]` in the degenerate cases |
| Flatten.ArcToEndReachesEnd | ssb_renderer/src/g2d/vector/flatten.rs:39-45 | the corrected arc always has `ceil(n) + 1` points and always ends at the arc's end point |
| Flatten.ArcToEndAgrees | ssb_renderer/src/g2d/vector/flatten.rs:39-45 | the correction agrees with the source whenever `n` is not whole or the arc is degenerate |
| Flatten.RotateKeepsLength | ssb_renderer/src/g2d/vector/flatten.rs:30-33 | a rotation whose sine and cosine satisfy `s² + c² = 1` keeps the squared length |
| Flatten.RotateTimesKeepsLength | ssb_renderer/src/g2d/vector/flatten.rs:28-36 | repeated rotation keeps the squared length |
| Flatten.ArcStaysOnCircle | ssb_renderer/src/g2d/vector/flatten.rs:23-45 | every output point lies on the circle through the start about the center |
| Flatten.TinyArcIsOneLine | ssb_renderer/src/g2d/vector/flatten.rs:113-116 | radius 5 and 0.00001 degrees give exactly two points |
| Flatten.ThreeQuarterArcEnd | ssb_renderer/src/g2d/vector/flatten.rs:118-119 | the -270 degree arc of radius 2 ends at (2, -2), given the sine and cosine of that angle |
| Flatten.ThreeQuarterEnd | ssb_renderer/src/g2d/vector/flatten.rs:39-45 | the exact end point of that arc is (2, -2) |
| Flatten.SplitCurveMid | ssb_renderer/src/g2d/vector/flatten.rs:59-77 | the left half starts at `p0`, the right half ends at `p3`, and both meet at the curve's point for t = 1/2 |
| Flatten.LeftHalfCoordinate | ssb_renderer/src/g2d/vector/flatten.rs:62-74 | the left half's cubic at `t` is the whole cubic at `t/2`, coordinate by coordinate |
| Flatten.RightHalfCoordinate | ssb_renderer/src/g2d/vector/flatten.rs:62-75 | the right half's cubic at `t` is the whole cubic at `(1+t)/2` |
| Flatten.SplitTracesCurve | ssb_renderer/src/g2d/vector/flatten.rs:59-77 | the two halves trace exactly the two halves of the original curve |
| Flatten.TracesEnds | ssb_renderer/src/g2d/vector/flatten.rs:84-85 | a piece tracing the curve over `[a, b]` starts at the curve's point `a` and ends at its point `b`, so the emitted end point lies on the curve |
| Flatten.SplitTraces | ssb_renderer/src/g2d/vector/flatten.rs:86-90 | splitting a piece that traces `[a, b]` of the curve gives halves that trace `[a, (a+b)/2]` and `[(a+b)/2, b]` |
| Flatten.IsCurveFlat | ssb_renderer/src/g2d/vector/flatten.rs:53-57 | definition; specified by `StraightCurveIsFlat`, and used by `Drain` and `FlattenStep` |
| Flatten.Drain | ssb_renderer/src/g2d/vector/flatten.rs:78-93 | the recursive reading of the stack rule: a flat top is popped and its end point appended to the points emitted so far, any other top is replaced by its right half under its left half; the result keeps the points emitted so far as a prefix and adds at most `fuel` points, and a drained non-empty stack ends at its bottom curve's end point |
| Flatten.DrainPop | ssb_renderer/src/g2d/vector/flatten.rs:81-91 | popping a flat top and emitting its end point, or replacing any other top by its halves, with one unit of fuel less, drains to the same points and flag |
| Flatten.DrainFlat | ssb_renderer/src/g2d/vector/flatten.rs:81-85 | a flat curve drains in one step to its end point |
| Flatten.FlattenStep | ssb_renderer/src/g2d/vector/flatten.rs:81-91 | one turn of the loop keeps the stack chained from the last point to the end point, every segment over a flat piece, and every point and piece on the input curve; a flat top is popped and its end point emitted; otherwise the top is replaced by its right half under its left half, and nothing is emitted; with `DrainPop` this is one turn of `Drain` |
| Flatten.DrainStack | ssb_renderer/src/g2d/vector/flatten.rs:81-92 | the loop keeps the `FlattenStep` invariant and the first point, stops with the stack empty or the fuel spent, and `Drain` of the state it stops in, with the fuel left, is `Drain` of the state it started in |
| Flatten.FlattenExit | ssb_renderer/src/g2d/vector/flatten.rs:81-92 | once the loop stops, the points emitted and whether the stack is empty are exactly `Drain`'s result; at most `fuel + 1` points; a flat input gives `[start, end]` |
| Flatten.FlattenCurve | ssb_renderer/src/g2d/vector/flatten.rs:78-93 | the output starts at the start point; every segment spans a flat piece; the last point is the end point once the stack is drained; a flat input gives `[start, end]`; every output point is the input curve's point at a parameter, the parameters rise strictly from 0 within `[0, 1]` and reach 1 once the stack is drained, and each segment's piece traces the input curve between its two points' parameters; the output is the start followed by `Drain` of the one-curve stack, and `done` is `Drain`'s drained flag |
| Flatten.StraightCurveIsFlat | ssb_renderer/src/g2d/vector/flatten.rs:125-128 | the collinear, evenly spaced curve on y = 7 is flat |
| Scanlines.StepCursor | ssb_renderer/src/g2d/raster/scanlines.rs:28-51 | definition; specified by `OpenPathLines`, `ClosedPathLines` and `PathStep` |
| Scanlines.Lines | ssb_renderer/src/g2d/raster/scanlines.rs:29-51 | definition; specified by `OpenPathLines`, `ClosedPathLines` and `PathStep` |
| Scanlines.KeepLine | ssb_renderer/src/g2d/raster/scanlines.rs:53-57 | definition; specified by `KeptLines`, `KeptStep` and `KeptCrossings` |
| Scanlines.KeptLines | ssb_renderer/src/g2d/raster/scanlines.rs:53-57 | the kept edges are edges of the input that pass the discard rules |
| Scanlines.RowSet | ssb_renderer/src/g2d/raster/scanlines.rs:61-79 | the sampled rows are exactly `lo <= k < hi` |
| Scanlines.SampleVertical | ssb_renderer/src/g2d/raster/scanlines.rs:66-71 | the vertical loop pushes the edge's x to every row from `lo` up to `hi` |
| Scanlines.SampleSloped | ssb_renderer/src/g2d/raster/scanlines.rs:72-79 | the sloped loop pushes the interpolated x at each row's centre to every row from `lo` up to `hi` |
| Scanlines.SampleLine | ssb_renderer/src/g2d/raster/scanlines.rs:59-80 | one kept edge adds its stops to the rows of its scan range, cut to the viewport |
| Scanlines.PathStep | ssb_renderer/src/g2d/raster/scanlines.rs:28-51 | one more segment advances the cursor by one state-machine step and appends at most its one edge |
| Scanlines.KeptStep | ssb_renderer/src/g2d/raster/scanlines.rs:53-80 | one more edge changes the stop map exactly when it is kept |
| Scanlines.StopsFromPath | ssb_renderer/src/g2d/raster/scanlines.rs:24-83 | the method's loop over segments builds `Stops`: edge extraction, discard and sampling |
| Scanlines.PairRange | ssb_renderer/src/g2d/raster/scanlines.rs:95-99 | both ends of a pair's range lie in [0, width] |
| Scanlines.PairRanges | ssb_renderer/src/g2d/raster/scanlines.rs:94-103 | every range is non-empty and inside [0, width]; there are at most half as many ranges as stops |
| Scanlines.RowRanges | ssb_renderer/src/g2d/raster/scanlines.rs:91-104 | after sorting, every range is non-empty and inside [0, width] |
| Scanlines.RangesTrimmed | ssb_renderer/src/g2d/raster/scanlines.rs:85-110 | a row is kept exactly when its ranges are non-empty; no row maps to an empty list; every range is valid |
| Scanlines.StopsMapRowsInViewport | ssb_renderer/src/g2d/raster/scanlines.rs:61-64 | every row key of the stop map lies in [0, height) |
| Scanlines.ScanlinesFromPath | ssb_renderer/src/g2d/raster/scanlines.rs:17-22 | every key is in [0, height) with a non-empty list, and every range satisfies `0 <= start < end <= width` |
| ScanlinesFacts.RowSampledIffCrossed | ssb_renderer/src/g2d/raster/scanlines.rs:61-64 | an edge samples row `k` if and only if `k` is in the viewport and the edge's half-open y span contains `k + 0.5` |
| ScanlinesFacts.StopsMapRow | ssb_renderer/src/g2d/raster/scanlines.rs:59-80 | a row's stops are the crossings of the row's centre by the edges, in edge order; a row is present exactly when one is crossed |
| ScanlinesFacts.StopsRow | ssb_renderer/src/g2d/raster/scanlines.rs:24-83 | the same for a whole path: rows outside the viewport are absent |
| ScanlinesFacts.ScanlinesRow | ssb_renderer/src/g2d/raster/scanlines.rs:17-22 | row `k` of the result is the ranges of its crossings, and is present exactly when those are non-empty |
| ScanlinesFacts.StopOnLine | ssb_renderer/src/g2d/raster/scanlines.rs:74-76 | a sloped stop lies within the edge's x extent and on the edge's line |
| ScanlinesFacts.CrossingStopsCount | ssb_renderer/src/g2d/raster/scanlines.rs:59-80 | a row has as many stops as edges crossing its centre |
| ScanlinesFacts.KeptCrossings | ssb_renderer/src/g2d/raster/scanlines.rs:53-57 | discarding edges changes no crossing count of a row inside the viewport |
| ScanlinesFacts.ParityInvariant | ssb_renderer/src/g2d/raster/scanlines.rs:28-51 | for a path that moves only at rest, crossings plus the pending closing edge's crossing are even |
| ScanlinesFacts.DetourCrossings | ssb_renderer/src/g2d/raster/scanlines.rs:42-50 | a detour through a third point crosses a level as often as the direct edge, or twice more |
| ScanlinesFacts.ParityStep | ssb_renderer/src/g2d/raster/scanlines.rs:28-51 | one state-machine step keeps that parity invariant |
| ScanlinesFacts.EvenCrossings | ssb_renderer/src/g2d/raster/scanlines.rs:24-83 | a well-closed path gives a row an even number of kept crossings |
| ScanlinesFacts.EvenStopsPerRow | ssb_renderer/src/g2d/raster/scanlines.rs:24-83 | a well-closed path gives every row an even number of stops |
| ScanlinesFacts.OpenPathLines | ssb_renderer/src/g2d/raster/scanlines.rs:31-50 | a move then line segments leaves the cursor at the last point and emits the chain of edges |
| ScanlinesFacts.ClosedPathLines | ssb_renderer/src/g2d/raster/scanlines.rs:31-50 | a closed polygon emits its sides, the closing side only when needed, and resets the cursor |
| ScanlinesFacts.OddStopIgnored | ssb_renderer/src/g2d/raster/scanlines.rs:94 | an unpaired trailing stop contributes nothing |
| ScanlinesFacts.RowRangesIgnoreOrder | ssb_renderer/src/g2d/raster/scanlines.rs:92 | the ranges of a row depend only on the multiset of its stops |
| ScanlinesFacts.StopBounds | ssb_renderer/src/g2d/raster/scanlines.rs:96-98 | trimmed starts and ends are monotonic in the stop, and an end trails a later start by at most one |
| ScanlinesFacts.RangesAbove | ssb_renderer/src/g2d/raster/scanlines.rs:94-101 | every range from stops above `v` starts and ends at or after `v`'s trimmed values |
| ScanlinesFacts.RangesOrdered | ssb_renderer/src/g2d/raster/scanlines.rs:94-101 | sorted stops give ranges in ascending order, consecutive ones overlapping by at most one pixel |
| ScanlinesFacts.RowRangesOrdered | ssb_renderer/src/g2d/raster/scanlines.rs:91-104 | every row's ranges are in that order |
| ScanlinesFacts.PairRangesMayOverlap | ssb_renderer/src/g2d/raster/scanlines.rs:95-99 | stops 1, 2.5, 2.5, 4 give the overlapping ranges 1..3 and 2..4 |
| ScanlinesFixtures.QuadTrimmed | ssb_renderer/src/g2d/raster/scanlines.rs:122-140 | the rectangle on a 5 by 5 area fills rows 1 to 3 with `1..5` |
| ScanlinesFixtures.UnclosedIsEmpty | ssb_renderer/src/g2d/raster/scanlines.rs:142-154 | the open L-path gives the empty map |
| ScanlinesFixtures.HoleScanlines | ssb_renderer/src/g2d/raster/scanlines.rs:156-186 | the square with a hole gives rows 2 to 4 two ranges and every other row one |
| ScanlinesFixtures.SubpixelScanlines | ssb_renderer/src/g2d/raster/scanlines.rs:188-212 | the sub-pixel path gives the ranges the source's test asserts |
| Scanline.Downwards | ssb_renderer/src/g2d/raster/scanline.rs:53 | the reoriented edge points down and is the edge or its reverse |
| Scanline.DownwardsSamplesAlike | ssb_renderer/src/g2d/raster/scanline.rs:53-60 | reorienting changes neither the scan range nor any stop |
| Scanline.AddRowsDownwards | ssb_renderer/src/g2d/raster/scanline.rs:53-75 | reorienting an edge leaves its effect on the row map unchanged |
| Scanline.SampleDownwards | ssb_renderer/src/g2d/raster/scanline.rs:57-75 | a downward edge adds its stops to the rows of its scan range |
| Scanline.UnorderedStops | ssb_renderer/src/g2d/raster/scanline.rs:18-79 | the earlier rasteriser's stop map equals the current one's |
| Scanline.TrimStop | ssb_renderer/src/g2d/raster/scanline.rs:96-104 | a trimmed stop lies in [0, width] |
| Scanline.TrimStops | ssb_renderer/src/g2d/raster/scanline.rs:94-106 | one trimmed value per stop, odd counts included, each in [0, width] |
| Scanline.TrimRow | ssb_renderer/src/g2d/raster/scanline.rs:94-106 | the loop with the toggling `odd` flag computes `TrimStops` |
| Scanline.SortedKeys | ssb_renderer/src/g2d/raster/scanline.rs:83-84 | the keys come out strictly ascending, with exactly the map's keys |
| Scanline.SortedSetIncreasing | ssb_renderer/src/g2d/raster/scanline.rs:83-84 | a sorted permutation of a set is strictly increasing and has the same members |
| Scanline.OrderAndTrim | ssb_renderer/src/g2d/raster/scanline.rs:81-111 | one row per key in ascending order, each holding the trimmed sorted stops of its key |
| Scanline.ScanlinesFromPath | ssb_renderer/src/g2d/raster/scanline.rs:11-16 | the result is the ordered trim of the path's stop map, and every row lies in `[0, height)` |
| ScanlineFacts.TrimStopIsClampedRounding | ssb_renderer/src/g2d/raster/scanline.rs:96-104 | an odd stop trims to the current rasteriser's range start, an even one to its range end |
| ScanlineFacts.PairingTrimmedStops | ssb_renderer/src/g2d/raster/scanline.rs:94-106 | pairing the trimmed stops and dropping empty pairs gives the current rasteriser's ranges |
| ScanlineFacts.VariantsAgree | ssb_renderer/src/g2d/raster/scanline.rs:11-16 | every row of the earlier output pairs into the current output's row, and every current row appears in the earlier output |
| ScanlineFacts.RowKeys | ssb_renderer/src/g2d/raster/scanline.rs:86-88 | the rows' keys, in output order |
| ScanlineFacts.StrictlyIncreasingUnique | ssb_renderer/src/g2d/raster/scanline.rs:83-84 | two strictly increasing sequences with the same members are equal |
| ScanlineFacts.OrderedTrimUnique | ssb_renderer/src/g2d/raster/scanline.rs:81-111 | the ordered trim of a map is unique |
| ScanlineFixtures.QuadTrimmedRows | ssb_renderer/src/g2d/raster/scanline.rs:129-147 | the rectangle gives rows 1 to 3 with stops `[1, 5]` |
| ScanlineFixtures.UnclosedKeepsStops | ssb_renderer/src/g2d/raster/scanline.rs:149-165 | the open L-path keeps `[1]` on rows 0 to 2 |
| ScanlineFixtures.HoleTrimmedRows | ssb_renderer/src/g2d/raster/scanline.rs:167-197 | the square with a hole gives the stop lists the source's test asserts |
| ScanlineFixtures.SubpixelTrimmedRows | ssb_renderer/src/g2d/raster/scanline.rs:200-224 | the sub-pixel path gives the stop lists the source's test asserts |
| Sorting.Insert | ssb_renderer/src/g2d/raster/scanlines.rs:92 | insertion adds exactly the element |
| Sorting.InsertSorted | ssb_renderer/src/g2d/raster/scanlines.rs:92 | insertion keeps a sequence sorted |
| Sorting.SortSeq | ssb_renderer/src/g2d/raster/scanlines.rs:92 | the sort is a permutation of its input |
| Sorting.SortSeqSorted | ssb_renderer/src/g2d/raster/scanlines.rs:92 | the sort's result is sorted |
| Sorting.SortedUnique | ssb_renderer/src/g2d/raster/scanlines.rs:92 | two sorted permutations of each other are equal |
| Sorting.SortSeqOfSorted | ssb_renderer/src/g2d/raster/scanline.rs:92 | sorting a sorted sequence changes nothing |
| Sorting.SortSeqPermutationInvariant | ssb_renderer/src/g2d/raster/scanline.rs:92 | permutations of each other sort alike |
| Rendering.AnyMatch | ssb_renderer/src/rendering.rs:30-35 | true exactly when some event's trigger matches |
| Rendering.Matches | ssb_renderer/src/rendering.rs:31-35 | definition; specified by `MatchRules` |
| Rendering.MatchRules | ssb_renderer/src/rendering.rs:31-34 | ids match on equality; a time span matches `t` iff `start <= t < end`, never when empty; the two kinds never match each other |
| Rendering.Rendered | ssb_renderer/src/rendering.rs:30-54 | same length; every word `u32::MAX` when an event matches, the input unchanged otherwise |
| Rendering.RenderedIdempotent | ssb_renderer/src/rendering.rs:40-43 | rendering twice is rendering once |
| Rendering.RenderedDependsOnMatchAlone | ssb_renderer/src/rendering.rs:30-43 | neither event order nor the number of matches changes the result |
| Rendering.SsbRenderer.constructor | ssb_renderer/src/rendering.rs:19-23 | the renderer keeps the given data |
| Rendering.SsbRenderer.Render | ssb_renderer/src/rendering.rs:25-55 | the width and height come back unchanged and the buffer becomes `Rendered` of its old contents |
| Rendering.FillMax | ssb_renderer/src/rendering.rs:40-43 | every pixel word becomes `u32::MAX` |
| EventObjects.NumpadRow | ssb_parser/src/objects/event_objects.rs:94-98 | the keypad row is 0, 1 or 2 |
| EventObjects.NumpadColumn | ssb_parser/src/objects/event_objects.rs:94-98 | the keypad column is 0, 1 or 2 |
| EventObjects.NumpadFromByte | ssb_parser/src/objects/event_objects.rs:99-115 | accepts exactly 1 to 9, laid out as on a keypad: 1 to 3 bottom, 7 to 9 top |
| EventObjects.NumpadByPosition | ssb_parser/src/objects/event_objects.rs:94-98 | row and column determine the alignment |
| EventObjects.NumpadDigit | ssb_parser/src/objects/event_objects.rs:99-115 | every alignment has a digit from 1 to 9 |
| EventObjects.NumpadBijection | ssb_parser/src/types/objects.rs:85-101 | the decoder is a bijection from 1 to 9 onto the nine alignments |
| EventObjects.WrapStyleFromStr | ssb_parser/src/objects/event_objects.rs:132-142 | accepts exactly the wrap style names and inverts the naming |
| EventObjects.DirectionFromStr | ssb_parser/src/objects/event_objects.rs:151-162 | accepts exactly the direction names and inverts the naming |
| EventObjects.JoinFromStr | ssb_parser/src/objects/event_objects.rs:214-224 | accepts exactly the join names and inverts the naming |
| EventObjects.CapFromStr | ssb_parser/src/objects/event_objects.rs:232-242 | accepts exactly the cap names and inverts the naming |
| EventObjects.TextureWrappingFromStr | ssb_parser/src/objects/event_objects.rs:251-262 | accepts exactly the texture wrapping names and inverts the naming |
| EventObjects.BlendFromStr | ssb_parser/src/objects/event_objects.rs:298-311 | accepts exactly the six blend names and inverts the naming |
| EventObjects.TargetFromStr | ssb_parser/src/objects/event_objects.rs:318-327 | accepts exactly "frame" and "mask" |
| EventObjects.MaskModeFromStr | ssb_parser/src/objects/event_objects.rs:334-343 | accepts exactly "normal" and "invert" |
| EventObjects.NamesDecode | ssb_parser/src/types/objects.rs:116-320 | every variant's name decodes back to it |
| EventObjects.AcceptedNames | ssb_parser/src/objects/event_objects.rs:132-343 | the accepted strings of each decoder, listed |
| EventObjects.DecodersInjective | ssb_parser/src/objects/event_objects.rs:318-343 | distinct accepted strings decode to distinct variants |
| EventObjects.ConvertFixtures | ssb_parser/src/objects/event_objects.rs:357-368 | the fixtures decode as the tests assert |
| SsbTypes.ViewFromStr | ssb_parser/src/types/ssb.rs:32-41 | accepts exactly the view names and inverts the naming |
| SsbTypes.FontStyleFromStr | ssb_parser/src/types/ssb.rs:60-71 | accepts exactly the four style names and inverts the naming |
| SsbTypes.FontStyleDebug | ssb_parser/src/types/ssb.rs:50 | a variant name is non-empty and has no parenthesis |
| SsbTypes.FontStyleFromDebug | ssb_parser/src/types/ssb.rs:53-59 | reads exactly the variant names back |
| SsbTypes.FontFaceDisplay | ssb_parser/src/types/ssb.rs:48-52 | the display is three characters longer than the family and the variant name together |
| SsbTypes.ParseFontFace | ssb_parser/src/types/ssb.rs:48-52 | whatever it reads back displays as the input |
| SsbTypes.FontFaceDisplayParses | ssb_parser/src/types/ssb.rs:48-52 | the display parses back to the face, so it is `family (Style)` and loses nothing |
| SsbTypes.FontFaceDisplayInjective | ssb_parser/src/types/ssb.rs:48-52 | distinct faces display differently |
| SsbTypes.ConvertFixtures | ssb_parser/src/types/ssb.rs:81-92 | names decode back, nothing else decodes, "fuzzy" and "ultra-bold" are refused |
| Data.ViewFromName | ssb_parser/src/data.rs:13-19 | accepts exactly "perspective" and "orthogonal" and inverts the naming |
| Data.FontStyleFromName | ssb_parser/src/data.rs:62-70 | accepts exactly the four style names and inverts the naming |
| Data.FromStrAgreesWithTryFrom | ssb_parser/src/data.rs:13-70 | the `from_str` decoders agree with the `TryFrom` ones on every string |
| Data.ConvertFixtures | ssb_parser/src/data.rs:191-195 | "orthogonal" and "bold-italic" decode as the test asserts |
| Data.SsbDefault | ssb_parser/src/data.rs:151-168 | the default has no info, no target size and no macros, events or resources; depth 1000 and a perspective view |
| Data.SsbDefaultUnique | ssb_parser/src/data.rs:151-168 | the default is the only blank script with that depth and view |
| State.SectionFromStr | ssb_parser/src/utils/state.rs:14-26 | accepts exactly the five section headers and inverts the naming |
| State.ModeFromStr | ssb_parser/src/utils/state.rs:38-48 | accepts exactly the three mode names and inverts the naming |
| State.ModeDefault | ssb_parser/src/utils/state.rs:33-37 | the default mode is the one named "text" |
| State.ShapeSegmentTypeDefault | ssb_parser/src/utils/state.rs:57-61 | a shape starts with a move |
| State.StateNamesDecode | ssb_parser/src/utils/state.rs:14-48 | headers and names decode back, and nothing else decodes |
| State.StateFixtures | ssb_parser/src/utils/state.rs:68-74 | "#EVENTS" and "shape" decode; "#EVENT" and "lines" are refused |

## Left out

- Floating point: `f32` and `f64` are exact reals. IEEE rounding, NaN and infinities are not modelled. The `expect` on `partial_cmp` in the stop sorts can therefore never fire.
- Saturating casts: `as u16` is applied only to values already clamped to `[0, width]` or known to lie in `[0, height)`, so the saturating cast is not modelled beyond the clamp.
- Trigonometry: `sin`, `cos` and `hypot` are parameters of the flattening functions. `to_radians` uses a rational stand-in for pi.
- Flatten.ThreeQuarterArcEnd: the end of the -270 degree fixture is proved only given the sine and cosine of that angle, and the intermediate rotated coordinates are not computed.
- Flatten.FlattenCurve: termination depends on float convergence, so the stack loop runs under a `fuel` bound and reports whether it drained the stack. The "more than five points" fixture of the complex curve is not stated, because it depends on `hypot`.
- Flatten.ArcStaysOnCircle: stated for the squared length, assuming `sin² + cos² = 1`, because `hypot` is a parameter.
- rendering.rs:
  - the pixel buffer is an array of `u32` words;
  - the unaligned prefix and suffix bytes of `align_to_mut` are not modelled;
  - the `RgbaImage` packing and its `from_raw` failure are not modelled.
- `EventRender` keeps only its trigger: its event objects feed no logic of the core.
- The large tag and object enums (`EventObject`, `Color`, `Alpha`, …) are plain data with no logic. Only `ShapeSegment`, the decoded enums and `TexFill` are declared.
- serde derives are not modelled. `Debug` formatting is modelled only as the variant name the font face display uses.
- Duplicates across files:
  - `data.rs` repeats `View`, `FontStyle`, `FontFace` and the event records of `types/ssb.rs`; the model reuses the `SsbTypes` datatypes;
  - the `Display` of `FontFace` at `data.rs:49-53` is the same format and is covered by `SsbTypes.FontFaceDisplay`.
- Decoding tables repeated across files: `types/objects.rs` repeats all nine decoding tables of `objects/event_objects.rs`, and `types/tags.rs` repeats six of them (`Numpad`, `WrapStyle`, `Direction`, `Join`, `Cap` and `TextureWrapping`; it has no `Blend`, `Target` or `MaskMode`). One set of decoders in `EventObjects` models these copies. The names `tags.rs` imports from files outside this model are not needed.
- `g2d/vector/path.rs`, `g2d/math.rs` and `types/parameter.rs` are not part of this model:
  - flat paths are a sequence of `MoveTo`, `LineTo` and `Close`;
  - `round_half_down`, `clamp` and `is_empty` of `g2d::math` follow the rules stated above;
  - `RenderTrigger` is an id or a time in milliseconds.
- The parser's grammar driver (`processors.rs`), the C interface (`ssb_filter/src/c.rs`), the build script, the crate roots and the memory-layout test are not part of this model. They hold I/O, FFI and layout facts, not logic.

## Findings

| source | as written | input that shows it | evidently intended | confidence | as-written member | corrected member |
|---|---|---|---|---|---|---|
| ssb_renderer/src/g2d/vector/flatten.rs:39-45 | the end point is appended only when `ceil(n) > n`, while the loop stops one rotation short of the end | start (0, -0.75), center (0, 0), angle 180/pi degrees: `n == 1`, so the output is only `[start]`, and the arc's end point is missing | the polyline always ends at the arc's end point | not executed | Flatten.OneRadianArcDropsEnd | Flatten.ArcToEndReachesEnd |

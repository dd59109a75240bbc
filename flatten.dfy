/**
 * Flattening of arcs and cubic Bezier curves into polylines (`flatten.rs`).
 *
 * The trigonometric functions and `hypot` are not modelled: `sin`, `cos`
 * and the vector length `len` are parameters.
 */
module Flatten {
  import opened Numeric
  import opened Points

  /** Angular step of the arc flattening, in length units along the arc. */
  const ARC_LINE_LENGTH: real := 0.75
  /** How much longer than its chord a flat curve's control polygon may be. */
  const CURVE_DEVIATION_LENGTH: real := 0.25
  /** A rational stand-in for pi, used only to convert degrees to radians. */
  const PI: real := 3.141592653589793

  function ToRadians(degrees: real): (r: real)
    ensures degrees == 0.0 <==> r == 0.0
    ensures degrees > 0.0 <==> r > 0.0
  {
    degrees * PI / 180.0
  }

  /** Rotation of `v` by the angle whose sine and cosine are `s` and `c`. */
  function Rotate(v: Point, s: real, c: real): (r: Point)
    ensures s == 0.0 && c == 1.0 ==> r == v
  {
    Point(v.x * c - v.y * s, v.x * s + v.y * c)
  }

  /** `v` rotated `k` times by the same step. */
  function RotateTimes(v: Point, s: real, c: real, k: nat): Point
  {
    if k == 0 then v else Rotate(RotateTimes(v, s, c, k - 1), s, c)
  }

  /** The squared Euclidean length, a polynomial stand-in for `len`. */
  function SqLen(p: Point): (r: real)
    ensures r >= 0.0
  {
    p.x * p.x + p.y * p.y
  }

  function Last(s: seq<Point>): Point
    requires |s| > 0
  {
    s[|s| - 1]
  }

  /** The points the rotation loop pushes: `center` plus `v` rotated 1, 2, ..., `k` steps. */
  function Intermediates(center: Point, v: Point, s: real, c: real, k: nat): (r: seq<Point>)
    ensures |r| == k
    ensures forall i :: 0 <= i < k ==> r[i] == Add(center, RotateTimes(v, s, c, i + 1))
  {
    if k == 0 then [] else Intermediates(center, v, s, c, k - 1) + [Add(center, RotateTimes(v, s, c, k))]
  }

  /** The number of lines `n` the arc is cut into, before rounding up. */
  function LinesN(start: Point, center: Point, angle: real, len: Point -> real): real
  {
    Abs(ToRadians(angle)) * len(Sub(start, center)) / ARC_LINE_LENGTH
  }

  predicate DegenerateArc(start: Point, center: Point, angle: real)
  {
    start == center || angle == 0.0
  }

  /** The exact end point of the arc: `start` rotated about `center` by the whole angle. */
  function ArcEnd(start: Point, center: Point, angle: real, sin: real -> real, cos: real -> real): Point
  {
    var rad := ToRadians(angle);
    Add(center, Rotate(Sub(start, center), sin(rad), cos(rad)))
  }

  /** The intermediate points of a non-degenerate arc: `Ceil(n) - 1` rotations by `rad / Ceil(n)`, none when `n < 1`. */
  function ArcSteps(start: Point, center: Point, angle: real, len: Point -> real, sin: real -> real, cos: real -> real): seq<Point>
  {
    var n := LinesN(start, center, angle, len);
    if n >= 1.0 then
      var rad, k := ToRadians(angle), Ceil(n);
      Intermediates(center, Sub(start, center), sin(rad / k as real), cos(rad / k as real), k - 1)
    else []
  }

  /** What `flatten_arc` returns. */
  function ArcPoints(start: Point, center: Point, angle: real, len: Point -> real, sin: real -> real, cos: real -> real): (r: seq<Point>)
    ensures |r| >= 1 && r[0] == start
    ensures DegenerateArc(start, center, angle) ==> r == [start]
  {
    if DegenerateArc(start, center, angle) then [start]
    else
      var n := LinesN(start, center, angle, len);
      [start] + ArcSteps(start, center, angle, len, sin, cos)
      + (if Ceil(n) as real > n then [ArcEnd(start, center, angle, sin, cos)] else [])
  }

  /** `flatten_arc`: the start point, the rotation loop, then the end point when `n` is not whole. */
  method FlattenArc(start: Point, center: Point, angle: real, len: Point -> real, sin: real -> real, cos: real -> real)
    returns (points: seq<Point>)
    ensures points == ArcPoints(start, center, angle, len, sin, cos)
  {
    if start == center || angle == 0.0 {
      return [start];
    }
    var vector, angleRad := Sub(start, center), ToRadians(angle);
    var linesN := Abs(angleRad) * len(vector) / ARC_LINE_LENGTH;
    var linesNCeil := Ceil(linesN);
    assert linesN == LinesN(start, center, angle, len);
    points := [start];
    if linesN >= 1.0 {
      var angleRadPart := angleRad / linesNCeil as real;
      var angleSinPart, angleCosPart := sin(angleRadPart), cos(angleRadPart);
      var steps := RotationSteps(center, vector, angleSinPart, angleCosPart, linesNCeil - 1);
      points := points + steps;
    }
    assert points == [start] + ArcSteps(start, center, angle, len, sin, cos);
    if linesNCeil as real > linesN {
      var angleSin, angleCos := sin(angleRad), cos(angleRad);
      points := points + [Add(center, Rotate(vector, angleSin, angleCos))];
    }
  }

  /** The rotation loop of `flatten_arc`, run `k` times. */
  method RotationSteps(center: Point, vector: Point, s: real, c: real, k: nat) returns (points: seq<Point>)
    ensures points == Intermediates(center, vector, s, c, k)
  {
    var vectorPart := vector;
    points := [];
    for i := 0 to k
      invariant vectorPart == RotateTimes(vector, s, c, i)
      invariant points == Intermediates(center, vector, s, c, i)
    {
      vectorPart := Rotate(vectorPart, s, c);
      points := points + [Add(center, vectorPart)];
    }
  }

  /** A non-degenerate arc is cut into a positive number of lines. */
  lemma LinesNPositive(start: Point, center: Point, angle: real, len: Point -> real)
    requires IsNorm(len)
    requires !DegenerateArc(start, center, angle)
    ensures LinesN(start, center, angle, len) > 0.0
  {
    var v := Sub(start, center);
    assert v != ORIGIN_POINT by {
      if v == ORIGIN_POINT {
        SubUndoesAdd(start, center);
        AddOriginIdentity(center);
        AddCommutes(ORIGIN_POINT, center);
      }
    }
    assert len(v) > 0.0;
    assert Abs(ToRadians(angle)) > 0.0;
    MulPositive(Abs(ToRadians(angle)), len(v));
  }

  lemma MulPositive(a: real, b: real)
    requires a > 0.0 && b > 0.0
    ensures a * b > 0.0
  {
  }

  /**
   * The point count of a non-degenerate arc: `Ceil(n) + 1` points when `n`
   * is not whole, and only `Ceil(n)` when it is, in which case the arc
   * stops one step short of its end.
   */
  lemma ArcPointCount(start: Point, center: Point, angle: real, len: Point -> real, sin: real -> real, cos: real -> real)
    requires IsNorm(len)
    requires !DegenerateArc(start, center, angle)
    ensures var n, r := LinesN(start, center, angle, len), ArcPoints(start, center, angle, len, sin, cos);
      && (Ceil(n) as real > n ==> |r| == Ceil(n) + 1 && Last(r) == ArcEnd(start, center, angle, sin, cos))
      && (Ceil(n) as real == n ==> |r| == Ceil(n))
      && (n < 1.0 ==> r == [start, ArcEnd(start, center, angle, sin, cos)])
  {
    LinesNPositive(start, center, angle, len);
  }

  /** A whole-numbered arc's last point is `Ceil(n) - 1` steps of `rad / Ceil(n)` round: its end point is never emitted. */
  lemma WholeArcStopsShort(start: Point, center: Point, angle: real, len: Point -> real, sin: real -> real, cos: real -> real)
    requires IsNorm(len)
    requires !DegenerateArc(start, center, angle)
    requires Ceil(LinesN(start, center, angle, len)) as real == LinesN(start, center, angle, len)
    ensures var k, rad := Ceil(LinesN(start, center, angle, len)), ToRadians(angle);
      ArcPoints(start, center, angle, len, sin, cos)
      == [start] + Intermediates(center, Sub(start, center), sin(rad / k as real), cos(rad / k as real), k - 1)
  {
    LinesNPositive(start, center, angle, len);
  }

  /**
   * The smallest such case: a radius of 0.75 and an angle of one radian
   * give `n == 1`, and the arc flattens to its start point alone, although
   * its end point lies elsewhere whenever `sin(1) != 0`.
   */
  lemma OneRadianArcDropsEnd(len: Point -> real, sin: real -> real, cos: real -> real, start: Point, angle: real)
    requires IsNorm(len)
    requires sin(1.0) != 0.0
    requires start == Point(0.0, -0.75) && angle == 180.0 / PI
    ensures ArcPoints(start, ORIGIN_POINT, angle, len, sin, cos) == [start]
    ensures ArcEnd(start, ORIGIN_POINT, angle, sin, cos) != start
  {
    OneRadian(angle);
    OneRadianLinesN(len, start, angle);
    assert ArcSteps(start, ORIGIN_POINT, angle, len, sin, cos) == [];
    OneRadianEnd(sin, cos, start, angle);
  }

  lemma OneRadian(angle: real)
    requires angle == 180.0 / PI
    ensures ToRadians(angle) == 1.0
  {
    assert angle * PI == 180.0;
  }

  lemma OneRadianLinesN(len: Point -> real, start: Point, angle: real)
    requires IsNorm(len)
    requires start == Point(0.0, -0.75) && ToRadians(angle) == 1.0
    ensures LinesN(start, ORIGIN_POINT, angle, len) == 1.0 && Ceil(1.0) == 1
  {
    AxisRadius(len, start, ORIGIN_POINT, 0.75);
    LinesNOf(start, ORIGIN_POINT, angle, len, 0.75);
  }

  lemma OneRadianEnd(sin: real -> real, cos: real -> real, start: Point, angle: real)
    requires sin(1.0) != 0.0
    requires start == Point(0.0, -0.75) && ToRadians(angle) == 1.0
    ensures ArcEnd(start, ORIGIN_POINT, angle, sin, cos).x == 0.75 * sin(1.0) != start.x
  {
    assert Sub(start, ORIGIN_POINT) == Point(0.0, -0.75);
  }

  /**
   * The evidently intended arc: the rotation loop as written, then the end
   * point in every non-degenerate case, so that `n == Ceil(n)` also closes
   * the arc.
   */
  function ArcPointsToEnd(start: Point, center: Point, angle: real, len: Point -> real, sin: real -> real, cos: real -> real): (r: seq<Point>)
    ensures |r| >= 1 && r[0] == start
    ensures DegenerateArc(start, center, angle) ==> r == [start]
  {
    if DegenerateArc(start, center, angle) then [start]
    else [start] + ArcSteps(start, center, angle, len, sin, cos) + [ArcEnd(start, center, angle, sin, cos)]
  }

  /** The corrected arc always has `Ceil(n)` lines and always ends at the arc's end point. */
  lemma ArcToEndReachesEnd(start: Point, center: Point, angle: real, len: Point -> real, sin: real -> real, cos: real -> real)
    requires IsNorm(len)
    requires !DegenerateArc(start, center, angle)
    ensures var r := ArcPointsToEnd(start, center, angle, len, sin, cos);
      |r| == Ceil(LinesN(start, center, angle, len)) + 1 && Last(r) == ArcEnd(start, center, angle, sin, cos)
  {
    LinesNPositive(start, center, angle, len);
  }

  /** The correction changes nothing unless `n` is whole. */
  lemma ArcToEndAgrees(start: Point, center: Point, angle: real, len: Point -> real, sin: real -> real, cos: real -> real)
    requires DegenerateArc(start, center, angle) || Ceil(LinesN(start, center, angle, len)) as real > LinesN(start, center, angle, len)
    ensures ArcPointsToEnd(start, center, angle, len, sin, cos) == ArcPoints(start, center, angle, len, sin, cos)
  {
  }

  /** `sin` and `cos` satisfy the Pythagorean identity everywhere. */
  ghost predicate IsSinCos(sin: real -> real, cos: real -> real)
  {
    forall x :: sin(x) * sin(x) + cos(x) * cos(x) == 1.0
  }

  /** A rotation keeps a vector's length. */
  lemma RotateKeepsLength(v: Point, s: real, c: real)
    requires s * s + c * c == 1.0
    ensures SqLen(Rotate(v, s, c)) == SqLen(v)
  {
    var r := Rotate(v, s, c);
    calc {
      SqLen(r);
      (v.x * c - v.y * s) * (v.x * c - v.y * s) + (v.x * s + v.y * c) * (v.x * s + v.y * c);
      v.x * v.x * (c * c + s * s) + v.y * v.y * (s * s + c * c);
      { assert c * c + s * s == 1.0; }
      v.x * v.x + v.y * v.y;
    }
  }

  lemma {:induction false} RotateTimesKeepsLength(v: Point, s: real, c: real, k: nat)
    requires s * s + c * c == 1.0
    ensures SqLen(RotateTimes(v, s, c, k)) == SqLen(v)
  {
    if k > 0 {
      RotateTimesKeepsLength(v, s, c, k - 1);
      RotateKeepsLength(RotateTimes(v, s, c, k - 1), s, c);
    }
  }

  lemma OffsetFromCenter(center: Point, w: Point)
    ensures Sub(Add(center, w), center) == w
  {
  }

  /** Every point of a flattened arc lies on the circle through `start` about `center`. */
  lemma ArcStaysOnCircle(start: Point, center: Point, angle: real, len: Point -> real, sin: real -> real, cos: real -> real)
    requires IsSinCos(sin, cos)
    ensures var r := ArcPoints(start, center, angle, len, sin, cos);
      forall i :: 0 <= i < |r| ==> SqLen(Sub(r[i], center)) == SqLen(Sub(start, center))
  {
    var r := ArcPoints(start, center, angle, len, sin, cos);
    forall i | 0 < i < |r|
      ensures SqLen(Sub(r[i], center)) == SqLen(Sub(start, center))
    {
      ArcPointOnCircle(start, center, angle, len, sin, cos, i);
    }
  }

  lemma ArcPointOnCircle(start: Point, center: Point, angle: real, len: Point -> real, sin: real -> real, cos: real -> real, i: int)
    requires IsSinCos(sin, cos)
    requires 0 < i < |ArcPoints(start, center, angle, len, sin, cos)|
    ensures SqLen(Sub(ArcPoints(start, center, angle, len, sin, cos)[i], center)) == SqLen(Sub(start, center))
  {
    var r := ArcPoints(start, center, angle, len, sin, cos);
    var n := LinesN(start, center, angle, len);
    var steps := ArcSteps(start, center, angle, len, sin, cos);
    assert r == [start] + steps + (if Ceil(n) as real > n then [ArcEnd(start, center, angle, sin, cos)] else []);
    if i <= |steps| {
      assert r[i] == steps[i - 1];
      ArcStepOnCircle(start, center, angle, len, sin, cos, i - 1);
    } else {
      assert r[i] == ArcEnd(start, center, angle, sin, cos);
      ArcEndOnCircle(start, center, angle, sin, cos);
    }
  }

  lemma ArcStepOnCircle(start: Point, center: Point, angle: real, len: Point -> real, sin: real -> real, cos: real -> real, j: int)
    requires IsSinCos(sin, cos)
    requires 0 <= j < |ArcSteps(start, center, angle, len, sin, cos)|
    ensures SqLen(Sub(ArcSteps(start, center, angle, len, sin, cos)[j], center)) == SqLen(Sub(start, center))
  {
    var rad, k := ToRadians(angle), Ceil(LinesN(start, center, angle, len));
    var s, c := sin(rad / k as real), cos(rad / k as real);
    assert s * s + c * c == 1.0;
    RotatedOnCircle(center, Sub(start, center), s, c, j + 1, ArcSteps(start, center, angle, len, sin, cos)[j]);
  }

  lemma ArcEndOnCircle(start: Point, center: Point, angle: real, sin: real -> real, cos: real -> real)
    requires IsSinCos(sin, cos)
    ensures SqLen(Sub(ArcEnd(start, center, angle, sin, cos), center)) == SqLen(Sub(start, center))
  {
    var rad := ToRadians(angle);
    var s, c := sin(rad), cos(rad);
    assert s * s + c * c == 1.0;
    assert Rotate(Sub(start, center), s, c) == RotateTimes(Sub(start, center), s, c, 1);
    RotatedOnCircle(center, Sub(start, center), s, c, 1, ArcEnd(start, center, angle, sin, cos));
  }

  lemma RotatedOnCircle(center: Point, v: Point, s: real, c: real, k: nat, p: Point)
    requires s * s + c * c == 1.0 && p == Add(center, RotateTimes(v, s, c, k))
    ensures SqLen(Sub(p, center)) == SqLen(v)
  {
    RotateTimesKeepsLength(v, s, c, k);
    OffsetFromCenter(center, RotateTimes(v, s, c, k));
  }

  /** A start point `r` below the center lies at distance `r`. */
  lemma AxisRadius(len: Point -> real, start: Point, center: Point, r: real)
    requires IsNorm(len)
    requires r >= 0.0 && start.x == center.x && start.y == center.y - r
    ensures len(Sub(start, center)) == r
  {
    OffsetBelow(start, center, r);
    NormOnYAxis(len, -r);
  }

  lemma LinesNOf(start: Point, center: Point, angle: real, len: Point -> real, r: real)
    requires len(Sub(start, center)) == r
    ensures LinesN(start, center, angle, len) == Abs(ToRadians(angle)) * r / ARC_LINE_LENGTH
  {
  }

  lemma OffsetBelow(start: Point, center: Point, r: real)
    requires start.x == center.x && start.y == center.y - r
    ensures Sub(start, center) == Point(0.0, -r)
  {
  }

  lemma NormOnYAxis(len: Point -> real, y: real)
    requires IsNorm(len)
    ensures len(Point(0.0, y)) == Abs(y)
  {
  }

  /** The tiny-angle fixture: a radius of 5 and 0.00001 degrees give one line, so two points. */
  lemma TinyArcIsOneLine(len: Point -> real, sin: real -> real, cos: real -> real, start: Point, angle: real)
    requires IsNorm(len)
    requires start == Point(0.0, -5.0) && angle == 0.00001
    ensures |ArcPoints(start, ORIGIN_POINT, angle, len, sin, cos)| == 2
  {
    TinyLinesN(len, start, angle);
    ArcPointCount(start, ORIGIN_POINT, angle, len, sin, cos);
  }

  lemma TinyLinesN(len: Point -> real, start: Point, angle: real)
    requires IsNorm(len)
    requires start == Point(0.0, -5.0) && angle == 0.00001
    ensures LinesN(start, ORIGIN_POINT, angle, len) < 1.0
  {
    AxisRadius(len, start, ORIGIN_POINT, 5.0);
    TinyLinesNOf(len, start, angle);
  }

  lemma TinyLinesNOf(len: Point -> real, start: Point, angle: real)
    requires len(Sub(start, ORIGIN_POINT)) == 5.0 && angle == 0.00001
    ensures LinesN(start, ORIGIN_POINT, angle, len) < 1.0
  {
    LinesNOf(start, ORIGIN_POINT, angle, len, 5.0);
    TinyRadians(angle);
    ShortArc(ToRadians(angle), 5.0);
  }

  lemma TinyRadians(angle: real)
    requires angle == 0.00001
    ensures 0.0 < ToRadians(angle) < 0.001
  {
  }

  lemma ShortArc(radians: real, r: real)
    requires 0.0 < radians < 0.001 && r == 5.0
    ensures Abs(radians) * r / ARC_LINE_LENGTH < 1.0
  {
  }

  /**
   * The three-quarter-turn fixture: radius 2 about (0, -2), turned by -270
   * degrees, ends at (2, -2) when the sine and cosine of that angle are 1 and 0.
   */
  lemma ThreeQuarterArcEnd(len: Point -> real, sin: real -> real, cos: real -> real, start: Point, center: Point, angle: real)
    requires IsNorm(len)
    requires start == Point(0.0, -4.0) && center == Point(0.0, -2.0) && angle == -270.0
    requires sin(ToRadians(angle)) == 1.0 && cos(ToRadians(angle)) == 0.0
    ensures Last(ArcPoints(start, center, angle, len, sin, cos)) == Point(2.0, -2.0)
  {
    ThreeQuarterShape(len, start, center, angle);
    ThreeQuarterEnd(sin, cos, start, center, angle);
    FractionalArcEndsAt(start, center, angle, len, sin, cos, Point(2.0, -2.0));
  }

  /** The fixture's arc is not degenerate and its number of lines is not whole. */
  lemma ThreeQuarterShape(len: Point -> real, start: Point, center: Point, angle: real)
    requires IsNorm(len)
    requires start == Point(0.0, -4.0) && center == Point(0.0, -2.0) && angle == -270.0
    ensures !DegenerateArc(start, center, angle)
    ensures Ceil(LinesN(start, center, angle, len)) as real > LinesN(start, center, angle, len)
  {
    NormOnYAxis(len, -2.0);
    ThreeQuarterLinesN(len, start, center, angle);
  }

  /** An arc whose number of lines is not whole ends at its end point `e`. */
  lemma FractionalArcEndsAt(start: Point, center: Point, angle: real, len: Point -> real, sin: real -> real, cos: real -> real, e: Point)
    requires IsNorm(len) && !DegenerateArc(start, center, angle)
    requires Ceil(LinesN(start, center, angle, len)) as real > LinesN(start, center, angle, len)
    requires ArcEnd(start, center, angle, sin, cos) == e
    ensures Last(ArcPoints(start, center, angle, len, sin, cos)) == e
  {
    ArcPointCount(start, center, angle, len, sin, cos);
  }

  lemma ThreeQuarterLinesN(len: Point -> real, start: Point, center: Point, angle: real)
    requires len(Point(0.0, -2.0)) == 2.0
    requires start == Point(0.0, -4.0) && center == Point(0.0, -2.0) && angle == -270.0
    ensures !DegenerateArc(start, center, angle)
    ensures Ceil(LinesN(start, center, angle, len)) as real > LinesN(start, center, angle, len)
  {
    ThreeQuarterRadius(len, start, center);
    ThreeQuarterN(len, start, center, angle);
    FourPiNotWhole(LinesN(start, center, angle, len));
  }

  lemma ThreeQuarterRadius(len: Point -> real, start: Point, center: Point)
    requires len(Point(0.0, -2.0)) == 2.0
    requires start == Point(0.0, -4.0) && center == Point(0.0, -2.0)
    ensures len(Sub(start, center)) == 2.0
  {
    assert Sub(start, center) == Point(0.0, -2.0);
  }

  lemma ThreeQuarterN(len: Point -> real, start: Point, center: Point, angle: real)
    requires len(Sub(start, center)) == 2.0 && angle == -270.0
    ensures LinesN(start, center, angle, len) == 4.0 * PI
  {
    LinesNOf(start, center, angle, len, 2.0);
  }

  lemma FourPiNotWhole(n: real)
    requires n == 4.0 * PI
    ensures Ceil(n) == 13 && Ceil(n) as real > n
  {
  }

  lemma ThreeQuarterEnd(sin: real -> real, cos: real -> real, start: Point, center: Point, angle: real)
    requires start == Point(0.0, -4.0) && center == Point(0.0, -2.0)
    requires sin(ToRadians(angle)) == 1.0 && cos(ToRadians(angle)) == 0.0
    ensures ArcEnd(start, center, angle, sin, cos) == Point(2.0, -2.0)
  {
    assert Sub(start, center) == Point(0.0, -2.0);
  }

  // ---------------------------------------------------------------------
  // Cubic Bezier curves

  datatype Curve = Curve(p0: Point, p1: Point, p2: Point, p3: Point)

  /** `is_curve_flat`: the control polygon is less than 0.25 longer than the chord. */
  predicate IsCurveFlat(c: Curve, len: Point -> real)
  {
    len(Sub(c.p1, c.p0)) + len(Sub(c.p2, c.p1)) + len(Sub(c.p3, c.p2)) < len(Sub(c.p3, c.p0)) + CURVE_DEVIATION_LENGTH
  }

  /** `a + (b - a) * t`, the step `split_curve_mid` repeats. */
  function Lerp(a: Point, b: Point, t: real): Point
  {
    Add(a, Mul(Sub(b, a), t))
  }

  /** A cubic Bezier curve's point at parameter `t`, in Bernstein form. */
  function Bernstein(a: real, b: real, c: real, d: real, t: real): real
  {
    var u := 1.0 - t;
    u * u * u * a + 3.0 * u * u * t * b + 3.0 * u * t * t * c + t * t * t * d
  }

  function BezierAt(c: Curve, t: real): Point
  {
    Point(Bernstein(c.p0.x, c.p1.x, c.p2.x, c.p3.x, t), Bernstein(c.p0.y, c.p1.y, c.p2.y, c.p3.y, t))
  }

  /**
   * `split_curve_mid`, the de Casteljau construction at `t = 0.5`: the
   * halves meet at the curve's midpoint and keep its end points.
   */
  function SplitCurveMid(c: Curve): (r: (Curve, Curve))
    ensures r.0.p0 == c.p0 && r.1.p3 == c.p3
    ensures r.0.p3 == r.1.p0 == BezierAt(c, 0.5)
  {
    var t := 0.5;
    var p01, p12, p23 := Lerp(c.p0, c.p1, t), Lerp(c.p1, c.p2, t), Lerp(c.p2, c.p3, t);
    var p012, p123 := Lerp(p01, p12, t), Lerp(p12, p23, t);
    var p1234 := Lerp(p012, p123, t);
    (Curve(c.p0, p01, p012, p1234), Curve(p1234, p123, p23, c.p3))
  }

  /** The left half traced at `t` is the whole curve at `t / 2`; one coordinate. */
  lemma LeftHalfCoordinate(a: real, b: real, c: real, d: real, t: real)
    ensures Bernstein(a, (a + b) / 2.0, (a + 2.0 * b + c) / 4.0, (a + 3.0 * b + 3.0 * c + d) / 8.0, t)
         == Bernstein(a, b, c, d, t / 2.0)
  {
  }

  /** A curve traced backwards is the curve with its control points reversed. */
  lemma BernsteinReversed(a: real, b: real, c: real, d: real, t: real)
    ensures Bernstein(a, b, c, d, t) == Bernstein(d, c, b, a, 1.0 - t)
  {
  }

  /** The right half traced at `t` is the whole curve at `(1 + t) / 2`; one coordinate. */
  lemma RightHalfCoordinate(a: real, b: real, c: real, d: real, t: real)
    ensures Bernstein((a + 3.0 * b + 3.0 * c + d) / 8.0, (b + 2.0 * c + d) / 4.0, (c + d) / 2.0, d, t)
         == Bernstein(a, b, c, d, (1.0 + t) / 2.0)
  {
    var p0, p1, p2, p3 := (a + 3.0 * b + 3.0 * c + d) / 8.0, (b + 2.0 * c + d) / 4.0, (c + d) / 2.0, d;
    BernsteinReversed(p0, p1, p2, p3, t);
    assert p3 == d && p2 == (d + c) / 2.0 && p1 == (d + 2.0 * c + b) / 4.0 && p0 == (d + 3.0 * c + 3.0 * b + a) / 8.0;
    LeftHalfCoordinate(d, c, b, a, 1.0 - t);
    BernsteinReversed(a, b, c, d, (1.0 + t) / 2.0);
    assert 1.0 - (1.0 + t) / 2.0 == (1.0 - t) / 2.0;
  }

  /** The two halves trace exactly the curve's first and second half. */
  lemma SplitTracesCurve(c: Curve, t: real)
    ensures BezierAt(SplitCurveMid(c).0, t) == BezierAt(c, t / 2.0)
    ensures BezierAt(SplitCurveMid(c).1, t) == BezierAt(c, (1.0 + t) / 2.0)
  {
    var (l, r) := SplitCurveMid(c);
    assert l == Curve(c.p0, Point((c.p0.x + c.p1.x) / 2.0, (c.p0.y + c.p1.y) / 2.0),
      Point((c.p0.x + 2.0 * c.p1.x + c.p2.x) / 4.0, (c.p0.y + 2.0 * c.p1.y + c.p2.y) / 4.0),
      Point((c.p0.x + 3.0 * c.p1.x + 3.0 * c.p2.x + c.p3.x) / 8.0, (c.p0.y + 3.0 * c.p1.y + 3.0 * c.p2.y + c.p3.y) / 8.0));
    assert r == Curve(l.p3, Point((c.p1.x + 2.0 * c.p2.x + c.p3.x) / 4.0, (c.p1.y + 2.0 * c.p2.y + c.p3.y) / 4.0),
      Point((c.p2.x + c.p3.x) / 2.0, (c.p2.y + c.p3.y) / 2.0), c.p3);
    LeftHalfCoordinate(c.p0.x, c.p1.x, c.p2.x, c.p3.x, t);
    LeftHalfCoordinate(c.p0.y, c.p1.y, c.p2.y, c.p3.y, t);
    RightHalfCoordinate(c.p0.x, c.p1.x, c.p2.x, c.p3.x, t);
    RightHalfCoordinate(c.p0.y, c.p1.y, c.p2.y, c.p3.y, t);
  }

  /** The parameter `t` of `[0, 1]` carried onto `[a, b]`. */
  function Along(a: real, b: real, t: real): real
  {
    a + (b - a) * t
  }

  /** `piece` traced over `[0, 1]` is `c` traced over `[a, b]`. */
  ghost predicate Traces(piece: Curve, c: Curve, a: real, b: real)
  {
    forall t :: 0.0 <= t <= 1.0 ==> BezierAt(piece, t) == BezierAt(c, Along(a, b, t))
  }

  /** A curve's point at parameter 0 is its start, at 1 its end. */
  lemma BezierEnds(c: Curve)
    ensures BezierAt(c, 0.0) == c.p0 && BezierAt(c, 1.0) == c.p3
  {
  }

  /** A piece tracing `[a, b]` of `c` starts at `c`'s point `a` and ends at its point `b`. */
  lemma TracesEnds(piece: Curve, c: Curve, a: real, b: real)
    requires Traces(piece, c, a, b)
    ensures piece.p0 == BezierAt(c, a) && piece.p3 == BezierAt(c, b)
  {
    BezierEnds(piece);
    assert BezierAt(piece, 0.0) == BezierAt(c, Along(a, b, 0.0));
    assert BezierAt(piece, 1.0) == BezierAt(c, Along(a, b, 1.0));
  }

  /** The parameter arithmetic behind splitting `[a, b]` at its midpoint `m`. */
  lemma HalfParameters(a: real, b: real, m: real, t: real)
    requires m == (a + b) / 2.0
    ensures Along(a, b, t / 2.0) == Along(a, m, t)
    ensures Along(a, b, (1.0 + t) / 2.0) == Along(m, b, t)
  {
  }

  /** The left half of a piece tracing `[a, b]`, at one parameter `t`. */
  lemma SplitTracesLeftAt(piece: Curve, c: Curve, a: real, b: real, m: real, t: real)
    requires Traces(piece, c, a, b) && m == (a + b) / 2.0 && 0.0 <= t <= 1.0
    ensures BezierAt(SplitCurveMid(piece).0, t) == BezierAt(c, Along(a, m, t))
  {
    SplitTracesCurve(piece, t);
    HalfParameters(a, b, m, t);
    var s := t / 2.0;
    assert 0.0 <= s <= 1.0;
    assert BezierAt(piece, s) == BezierAt(c, Along(a, b, s));
  }

  /** The right half of a piece tracing `[a, b]`, at one parameter `t`. */
  lemma SplitTracesRightAt(piece: Curve, c: Curve, a: real, b: real, m: real, t: real)
    requires Traces(piece, c, a, b) && m == (a + b) / 2.0 && 0.0 <= t <= 1.0
    ensures BezierAt(SplitCurveMid(piece).1, t) == BezierAt(c, Along(m, b, t))
  {
    SplitTracesCurve(piece, t);
    HalfParameters(a, b, m, t);
    var s := (1.0 + t) / 2.0;
    assert 0.0 <= s <= 1.0;
    assert BezierAt(piece, s) == BezierAt(c, Along(a, b, s));
  }

  /** Splitting a piece that traces `[a, b]` gives halves tracing `[a, m]` and `[m, b]`. */
  lemma SplitTraces(piece: Curve, c: Curve, a: real, b: real)
    requires Traces(piece, c, a, b)
    ensures Traces(SplitCurveMid(piece).0, c, a, (a + b) / 2.0)
    ensures Traces(SplitCurveMid(piece).1, c, (a + b) / 2.0, b)
  {
    forall t | 0.0 <= t <= 1.0
      ensures BezierAt(SplitCurveMid(piece).0, t) == BezierAt(c, Along(a, (a + b) / 2.0, t))
    {
      SplitTracesLeftAt(piece, c, a, b, (a + b) / 2.0, t);
    }
    forall t | 0.0 <= t <= 1.0
      ensures BezierAt(SplitCurveMid(piece).1, t) == BezierAt(c, Along((a + b) / 2.0, b, t))
    {
      SplitTracesRightAt(piece, c, a, b, (a + b) / 2.0, t);
    }
  }

  /**
   * The work stack of `flatten_curve`, top last: read from the top down it
   * is a chain of curves that starts at `from` and ends at `to`.
   */
  predicate Chain(stack: seq<Curve>, from: Point, to: Point)
  {
    if |stack| == 0 then from == to
    else
      && stack[|stack| - 1].p0 == from
      && stack[0].p3 == to
      && forall i :: 0 < i < |stack| ==> stack[i].p3 == stack[i - 1].p0
  }

  /**
   * The parameter spans of the stacked curves, top last: read from the top
   * down they tile `[from, 1]`.
   */
  predicate SpanChain(spans: seq<(real, real)>, from: real)
  {
    if |spans| == 0 then from == 1.0
    else
      && spans[|spans| - 1].0 == from
      && spans[0].1 == 1.0
      && forall i :: 0 < i < |spans| ==> spans[i].1 == spans[i - 1].0
  }

  /** Each stacked curve traces its span of `c`, a non-empty part of `[0, 1]`. */
  ghost predicate StackTraces(stack: seq<Curve>, spans: seq<(real, real)>, c: Curve)
  {
    && |spans| == |stack|
    && forall j :: 0 <= j < |stack| ==>
         0.0 <= spans[j].0 < spans[j].1 <= 1.0 && Traces(stack[j], c, spans[j].0, spans[j].1)
  }

  /** The parameters of the emitted points: from 0, strictly increasing, within `[0, 1]`. */
  predicate Parameters(ts: seq<real>)
  {
    && |ts| >= 1 && ts[0] == 0.0
    && (forall i :: 0 < i < |ts| ==> ts[i - 1] < ts[i])
    && (forall i :: 0 <= i < |ts| ==> 0.0 <= ts[i] <= 1.0)
  }

  /**
   * What `flatten_curve`'s state says about the input curve `c`: the
   * emitted points lie on `c` at the parameters `ts`, each emitted piece
   * traces `c` between its points' parameters, and the stacked curves
   * trace the rest of `c`, from the last parameter up to 1.
   */
  ghost predicate TraceState(c: Curve, stack: seq<Curve>, spans: seq<(real, real)>,
                             points: seq<Point>, pieces: seq<Curve>, ts: seq<real>)
  {
    && |ts| == |points| && Parameters(ts) && |pieces| == |points| - 1
    && StackTraces(stack, spans, c) && SpanChain(spans, ts[|ts| - 1])
    && (forall i :: 0 <= i < |points| ==> points[i] == BezierAt(c, ts[i]))
    && (forall i :: 0 <= i < |pieces| ==> Traces(pieces[i], c, ts[i], ts[i + 1]))
  }

  /** Before the loop: the whole input on the stack, its start emitted at parameter 0. */
  lemma TraceStateStart(c: Curve)
    ensures TraceState(c, [c], [(0.0, 1.0)], [c.p0], [], [0.0])
  {
    BezierEnds(c);
    forall t | 0.0 <= t <= 1.0
      ensures BezierAt(c, t) == BezierAt(c, Along(0.0, 1.0, t))
    {
      assert Along(0.0, 1.0, t) == t;
    }
  }

  /** Dropping the top of the stack keeps the rest tracing their spans. */
  lemma StackTracesPop(stack: seq<Curve>, spans: seq<(real, real)>, c: Curve)
    requires StackTraces(stack, spans, c) && |stack| > 0
    ensures StackTraces(stack[..|stack| - 1], spans[..|spans| - 1], c)
  {
  }

  /** Pushing a curve that traces a non-empty span of `[0, 1]` keeps the stack tracing. */
  lemma StackTracesPush(stack: seq<Curve>, spans: seq<(real, real)>, c: Curve, piece: Curve, span: (real, real))
    requires StackTraces(stack, spans, c)
    requires 0.0 <= span.0 < span.1 <= 1.0 && Traces(piece, c, span.0, span.1)
    ensures StackTraces(stack + [piece], spans + [span], c)
  {
    var stack', spans' := stack + [piece], spans + [span];
    forall j | 0 <= j < |stack'|
      ensures 0.0 <= spans'[j].0 < spans'[j].1 <= 1.0 && Traces(stack'[j], c, spans'[j].0, spans'[j].1)
    {
      if j < |stack| {
        assert stack'[j] == stack[j] && spans'[j] == spans[j];
      }
    }
  }

  /** Once the top span is emitted, the rest tile from its end up to 1. */
  lemma SpanChainPop(spans: seq<(real, real)>, from: real)
    requires SpanChain(spans, from) && |spans| > 0
    ensures SpanChain(spans[..|spans| - 1], spans[|spans| - 1].1)
  {
  }

  /** Replacing the top span by its two halves, the left one on top, keeps the tiling. */
  lemma SpanChainSplit(spans: seq<(real, real)>, from: real, spans': seq<(real, real)>)
    requires SpanChain(spans, from) && |spans| > 0
    requires
      var span := spans[|spans| - 1];
      var mid := (span.0 + span.1) / 2.0;
      spans' == spans[..|spans| - 1] + [(mid, span.1), (span.0, mid)]
    ensures SpanChain(spans', from)
  {
    var n := |spans| - 1;
    assert spans'[n + 1].0 == spans[n].0;
    assert spans'[n].1 == spans[n].1;
    forall i | 0 < i < |spans'|
      ensures spans'[i].1 == spans'[i - 1].0
    {
      if i < n {
        assert spans'[i] == spans[i] && spans'[i - 1] == spans[i - 1];
      } else if i == n && n > 0 {
        assert spans'[n - 1] == spans[n - 1];
      }
    }
  }

  /** A parameter above the last one, within `[0, 1]`, extends the parameters. */
  lemma ParametersPush(ts: seq<real>, t: real)
    requires Parameters(ts) && ts[|ts| - 1] < t <= 1.0
    ensures Parameters(ts + [t])
  {
    var ts' := ts + [t];
    forall i | 0 < i < |ts'|
      ensures ts'[i - 1] < ts'[i]
    {
      if i < |ts| {
        assert ts'[i - 1] == ts[i - 1] && ts'[i] == ts[i];
      }
    }
  }

  /** Popping a curve and emitting its end point keeps the trace state. */
  lemma TraceStatePopFlat(c: Curve, stack: seq<Curve>, spans: seq<(real, real)>,
                          points: seq<Point>, pieces: seq<Curve>, ts: seq<real>)
    requires TraceState(c, stack, spans, points, pieces, ts) && |stack| > 0
    ensures
      var n := |stack| - 1;
      TraceState(c, stack[..n], spans[..n], points + [stack[n].p3], pieces + [stack[n]], ts + [spans[n].1])
  {
    var n := |stack| - 1;
    var curve, span := stack[n], spans[n];
    assert Traces(curve, c, span.0, span.1);
    TracesEnds(curve, c, span.0, span.1);
    StackTracesPop(stack, spans, c);
    SpanChainPop(spans, ts[|ts| - 1]);
    ParametersPush(ts, span.1);
    var points', pieces', ts' := points + [curve.p3], pieces + [curve], ts + [span.1];
    assert ts'[|ts'| - 1] == span.1;
    assert forall i :: 0 <= i < |points'| ==> points'[i] == BezierAt(c, ts'[i]) by {
      forall i | 0 <= i < |points'|
        ensures points'[i] == BezierAt(c, ts'[i])
      {
        if i < |points| {
          assert points'[i] == points[i] && ts'[i] == ts[i];
        }
      }
    }
    assert forall i :: 0 <= i < |pieces'| ==> Traces(pieces'[i], c, ts'[i], ts'[i + 1]) by {
      forall i | 0 <= i < |pieces'|
        ensures Traces(pieces'[i], c, ts'[i], ts'[i + 1])
      {
        if i < |pieces| {
          assert pieces'[i] == pieces[i] && ts'[i] == ts[i] && ts'[i + 1] == ts[i + 1];
        }
      }
    }
  }

  /** Popping a curve and pushing its halves keeps the trace state. */
  lemma TraceStatePopSplit(c: Curve, stack: seq<Curve>, spans: seq<(real, real)>,
                           points: seq<Point>, pieces: seq<Curve>, ts: seq<real>,
                           stack': seq<Curve>, spans': seq<(real, real)>)
    requires TraceState(c, stack, spans, points, pieces, ts) && |stack| > 0
    requires
      var n := |stack| - 1;
      var mid := (spans[n].0 + spans[n].1) / 2.0;
      && stack' == stack[..n] + [SplitCurveMid(stack[n]).1, SplitCurveMid(stack[n]).0]
      && spans' == spans[..n] + [(mid, spans[n].1), (spans[n].0, mid)]
    ensures TraceState(c, stack', spans', points, pieces, ts)
  {
    var n := |stack| - 1;
    var curve, span := stack[n], spans[n];
    var mid := (span.0 + span.1) / 2.0;
    assert Traces(curve, c, span.0, span.1);
    SplitTraces(curve, c, span.0, span.1);
    StackTracesPop(stack, spans, c);
    StackTracesPush(stack[..n], spans[..n], c, SplitCurveMid(curve).1, (mid, span.1));
    StackTracesPush(stack[..n] + [SplitCurveMid(curve).1], spans[..n] + [(mid, span.1)], c,
                    SplitCurveMid(curve).0, (span.0, mid));
    assert stack[..n] + [SplitCurveMid(curve).1] + [SplitCurveMid(curve).0] == stack';
    assert spans[..n] + [(mid, span.1)] + [(span.0, mid)] == spans';
    SpanChainSplit(spans, ts[|ts| - 1], spans');
  }

  /**
   * The invariant of `flatten_curve`'s loop, over the input curve `input`
   * that ends at `end`: the stack chains from the last emitted point to
   * `end`, every emitted segment spans a flat piece, and the trace state
   * holds.
   */
  ghost predicate FlattenState(input: Curve, len: Point -> real, curves: seq<Curve>, points: seq<Point>,
                               spans: seq<(real, real)>, pieces: seq<Curve>, ts: seq<real>)
  {
    && |points| >= 1 && Chain(curves, Last(points), input.p3)
    && |pieces| == |points| - 1
    && (forall i :: 0 <= i < |pieces| ==>
          IsCurveFlat(pieces[i], len) && pieces[i].p0 == points[i] && pieces[i].p3 == points[i + 1])
    && TraceState(input, curves, spans, points, pieces, ts)
  }

  /** Popping a flat curve and emitting its end point keeps the loop invariant. */
  lemma FlattenStatePopFlat(input: Curve, len: Point -> real, curves: seq<Curve>, points: seq<Point>,
                            spans: seq<(real, real)>, pieces: seq<Curve>, ts: seq<real>)
    requires |curves| > 0 && FlattenState(input, len, curves, points, spans, pieces, ts)
    requires IsCurveFlat(curves[|curves| - 1], len)
    ensures
      var n := |curves| - 1;
      FlattenState(input, len, curves[..n], points + [curves[n].p3], spans[..n], pieces + [curves[n]], ts + [spans[n].1])
  {
    var n := |curves| - 1;
    TraceStatePopFlat(input, curves, spans, points, pieces, ts);
    var points' := points + [curves[n].p3];
    assert Last(points') == curves[n].p3;
    assert Chain(curves[..n], Last(points'), input.p3);
  }

  /** Popping a curve and pushing its halves keeps the loop invariant. */
  lemma FlattenStatePopSplit(input: Curve, len: Point -> real, curves: seq<Curve>, points: seq<Point>,
                             spans: seq<(real, real)>, pieces: seq<Curve>, ts: seq<real>,
                             curves': seq<Curve>, spans': seq<(real, real)>)
    requires |curves| > 0 && FlattenState(input, len, curves, points, spans, pieces, ts)
    requires
      var n := |curves| - 1;
      var mid := (spans[n].0 + spans[n].1) / 2.0;
      && curves' == curves[..n] + [SplitCurveMid(curves[n]).1, SplitCurveMid(curves[n]).0]
      && spans' == spans[..n] + [(mid, spans[n].1), (spans[n].0, mid)]
    ensures FlattenState(input, len, curves', points, spans', pieces, ts)
  {
    TraceStatePopSplit(input, curves, spans, points, pieces, ts, curves', spans');
  }

  /**
   * `flatten_curve`'s stack rule as a recursive function: from the work
   * stack `stack` (top last), with the points `emitted` so far, pop at
   * most `fuel` curves; emit the end point of a flat top, push the halves
   * of any other top (right half first). The result is all points emitted
   * and whether the stack ran empty. A drained non-empty stack ends at its
   * bottom curve's end point.
   */
  function Drain(len: Point -> real, stack: seq<Curve>, fuel: nat, emitted: seq<Point>): (r: (seq<Point>, bool))
    ensures |emitted| <= |r.0| <= |emitted| + fuel && r.0[..|emitted|] == emitted
    ensures r.1 && |stack| > 0 ==> |r.0| > |emitted| && Last(r.0) == stack[0].p3
    decreases fuel
  {
    if |stack| == 0 then (emitted, true)
    else if fuel == 0 then (emitted, false)
    else
      var n := |stack| - 1;
      var top := stack[n];
      if IsCurveFlat(top, len) then
        var r := Drain(len, stack[..n], fuel - 1, emitted + [top.p3]);
        assert r.0[..|emitted|] == r.0[..|emitted| + 1][..|emitted|];
        r
      else
        var halves := SplitCurveMid(top);
        Drain(len, stack[..n] + [halves.1, halves.0], fuel - 1, emitted)
  }

  /** One pop or split of the stack is one turn of `Drain`. */
  lemma DrainPop(len: Point -> real, stack: seq<Curve>, fuel: nat, points: seq<Point>,
                 stack': seq<Curve>, points': seq<Point>)
    requires |stack| > 0
    requires
      var n := |stack| - 1;
      && (IsCurveFlat(stack[n], len) ==> stack' == stack[..n] && points' == points + [stack[n].p3])
      && (!IsCurveFlat(stack[n], len) ==>
            stack' == stack[..n] + [SplitCurveMid(stack[n]).1, SplitCurveMid(stack[n]).0] && points' == points)
    ensures Drain(len, stack, fuel + 1, points) == Drain(len, stack', fuel, points')
  {
  }

  /** A flat curve alone on the stack drains in one pop, emitting its end point. */
  lemma DrainFlat(len: Point -> real, c: Curve, fuel: nat, p: Point)
    requires IsCurveFlat(c, len) && fuel >= 1
    ensures Drain(len, [c], fuel, [p]) == ([p, c.p3], true)
  {
    assert [c][..0] == [];
    assert [p] + [c.p3] == [p, c.p3];
  }

  /**
   * `Drain` from this state gives `target`. The length function is bound
   * by the quantifier so that proofs about the loop, which only chain
   * these facts, do not unfold `Drain`.
   */
  ghost predicate DrainsTo(len: Point -> real, stack: seq<Curve>, fuel: nat, emitted: seq<Point>, target: (seq<Point>, bool))
  {
    forall f: Point -> real {:trigger Drain(f, stack, fuel, emitted)} :: f == len ==> Drain(f, stack, fuel, emitted) == target
  }

  /** `DrainPop` stated with `DrainsTo`: one turn keeps what the stack drains to. */
  lemma DrainsToTurn(len: Point -> real, stack: seq<Curve>, fuel: nat, points: seq<Point>,
                     stack': seq<Curve>, fuel': nat, points': seq<Point>, target: (seq<Point>, bool))
    requires |stack| > 0 && fuel == fuel' + 1
    requires
      var n := |stack| - 1;
      && (IsCurveFlat(stack[n], len) ==> stack' == stack[..n] && points' == points + [stack[n].p3])
      && (!IsCurveFlat(stack[n], len) ==>
            stack' == stack[..n] + [SplitCurveMid(stack[n]).1, SplitCurveMid(stack[n]).0] && points' == points)
    requires DrainsTo(len, stack, fuel, points, target)
    ensures DrainsTo(len, stack', fuel', points', target)
  {
    DrainPop(len, stack, fuel', points, stack', points');
    assert Drain(len, stack, fuel, points) == target;
  }

  /** What the loop invariant says about the emitted points, pieces and parameters. */
  lemma FlattenStateFacts(input: Curve, len: Point -> real, curves: seq<Curve>, points: seq<Point>,
                          spans: seq<(real, real)>, pieces: seq<Curve>, ts: seq<real>)
    requires FlattenState(input, len, curves, points, spans, pieces, ts)
    ensures |points| >= 1 && |pieces| == |points| - 1
    ensures forall i :: 0 <= i < |pieces| ==>
      IsCurveFlat(pieces[i], len) && pieces[i].p0 == points[i] && pieces[i].p3 == points[i + 1]
    ensures |ts| == |points| && Parameters(ts)
    ensures forall i :: 0 <= i < |points| ==> points[i] == BezierAt(input, ts[i])
    ensures forall i :: 0 <= i < |pieces| ==> Traces(pieces[i], input, ts[i], ts[i + 1])
    ensures curves == [] ==> Last(points) == input.p3 && ts[|ts| - 1] == 1.0
  {
  }

  /**
   * When `flatten_curve`'s loop stops, either on an empty stack or out of
   * fuel, the points emitted so far are all that `Drain` emits.
   */
  lemma FlattenExit(input: Curve, len: Point -> real, fuel: nat, curves: seq<Curve>, points: seq<Point>, left: nat)
    requires |points| >= 1 && points[0] == input.p0 && left <= fuel
    requires |curves| == 0 || left == 0
    requires Drain(len, [input], fuel, [input.p0]) == Drain(len, curves, left, points)
    ensures (points, |curves| == 0) == Drain(len, [input], fuel, [input.p0])
    ensures |points| <= fuel + 1
    ensures IsCurveFlat(input, len) && fuel >= 1 ==> points == [input.p0, input.p3] && |curves| == 0
  {
    if IsCurveFlat(input, len) && fuel >= 1 {
      DrainFlat(len, input, fuel, input.p0);
    }
  }

  /**
   * One turn of `flatten_curve`'s loop: pop the top curve; emit its end
   * point when it is flat, push its halves (right half first) when not.
   * By `DrainPop` this is one turn of `Drain`.
   */
  method FlattenStep(input: Curve, len: Point -> real, curves: seq<Curve>, points: seq<Point>,
                     ghost spans: seq<(real, real)>, ghost pieces: seq<Curve>, ghost ts: seq<real>)
    returns (curves': seq<Curve>, points': seq<Point>,
             ghost spans': seq<(real, real)>, ghost pieces': seq<Curve>, ghost ts': seq<real>)
    requires |curves| > 0 && FlattenState(input, len, curves, points, spans, pieces, ts)
    ensures FlattenState(input, len, curves', points', spans', pieces', ts')
    ensures |points| <= |points'| && points'[..|points|] == points && points'[0] == points[0]
    ensures IsCurveFlat(curves[|curves| - 1], len) ==>
      curves' == curves[..|curves| - 1] && points' == points + [curves[|curves| - 1].p3]
    ensures !IsCurveFlat(curves[|curves| - 1], len) ==>
      && curves' == curves[..|curves| - 1] + [SplitCurveMid(curves[|curves| - 1]).1, SplitCurveMid(curves[|curves| - 1]).0]
      && points' == points
  {
    var n := |curves| - 1;
    var curve := curves[n];
    ghost var span := spans[n];
    curves' := curves[..n];
    if IsCurveFlat(curve, len) {
      FlattenStatePopFlat(input, len, curves, points, spans, pieces, ts);
      spans' := spans[..n];
      pieces' := pieces + [curve];
      points' := points + [curve.p3];
      ts' := ts + [span.1];
    } else {
      var halves := SplitCurveMid(curve);
      ghost var mid := (span.0 + span.1) / 2.0;
      curves' := curves' + [halves.1, halves.0];
      spans' := spans[..n] + [(mid, span.1), (span.0, mid)];
      pieces', points', ts' := pieces, points, ts;
      FlattenStatePopSplit(input, len, curves, points, spans, pieces, ts, curves', spans');
    }
  }

  /**
   * The loop of `flatten_curve`: runs `FlattenStep` until the stack is empty
   * or `fuel` turns are spent. `left` is the fuel not spent; `Drain` of
   * the state reached, with `left` turns, is `Drain` of the state given.
   */
  method DrainStack(input: Curve, len: Point -> real, fuel: nat, curves: seq<Curve>, points: seq<Point>,
                    ghost spans: seq<(real, real)>, ghost pieces: seq<Curve>, ghost ts: seq<real>)
    returns (curves': seq<Curve>, points': seq<Point>,
             ghost spans': seq<(real, real)>, ghost pieces': seq<Curve>, ghost ts': seq<real>, left: nat)
    requires FlattenState(input, len, curves, points, spans, pieces, ts)
    ensures FlattenState(input, len, curves', points', spans', pieces', ts')
    ensures points'[0] == points[0] && left <= fuel && (|curves'| == 0 || left == 0)
    ensures Drain(len, curves, fuel, points) == Drain(len, curves', left, points')
  {
    curves', points', spans', pieces', ts', left := curves, points, spans, pieces, ts, fuel;
    ghost var target := Drain(len, curves, fuel, points);
    while |curves'| > 0 && left > 0
      invariant FlattenState(input, len, curves', points', spans', pieces', ts')
      invariant left <= fuel && points'[0] == points[0]
      invariant DrainsTo(len, curves', left, points', target)
      decreases left
    {
      ghost var (curves0, points0, left0) := (curves', points', left);
      curves', points', spans', pieces', ts' := FlattenStep(input, len, curves', points', spans', pieces', ts');
      left := left - 1;
      DrainsToTurn(len, curves0, left0, points0, curves', left, points', target);
    }
    assert Drain(len, curves', left, points') == target;
  }

  /**
   * `flatten_curve`: pops curves off the work stack, emits the end point of
   * each flat one and pushes the halves of the others. At most `fuel`
   * curves are popped; `done` says the stack was drained. The ghost
   * `pieces` are the flat curves the output's segments span, and the ghost
   * `ts` the input curve's parameters at the output's points: every output
   * point lies on the input curve, and every piece traces the input curve
   * between its two points' parameters.
   */
  method FlattenCurve(start: Point, control1: Point, control2: Point, end: Point, len: Point -> real, fuel: nat)
    returns (points: seq<Point>, done: bool, ghost pieces: seq<Curve>, ghost ts: seq<real>)
    ensures |points| >= 1 && points[0] == start
    ensures done ==> Last(points) == end
    ensures |points| <= fuel + 1
    ensures IsCurveFlat(Curve(start, control1, control2, end), len) && fuel >= 1 ==> points == [start, end] && done
    ensures |pieces| == |points| - 1
    ensures forall i :: 0 <= i < |pieces| ==>
      IsCurveFlat(pieces[i], len) && pieces[i].p0 == points[i] && pieces[i].p3 == points[i + 1]
    ensures |ts| == |points| && Parameters(ts)
    ensures forall i :: 0 <= i < |points| ==> points[i] == BezierAt(Curve(start, control1, control2, end), ts[i])
    ensures forall i :: 0 <= i < |pieces| ==> Traces(pieces[i], Curve(start, control1, control2, end), ts[i], ts[i + 1])
    ensures done ==> ts[|ts| - 1] == 1.0
    ensures (points, done) == Drain(len, [Curve(start, control1, control2, end)], fuel, [start])
  {
    var input := Curve(start, control1, control2, end);
    var curves: seq<Curve>;
    ghost var spans: seq<(real, real)>;
    var left: nat;
    TraceStateStart(input);
    curves, points, spans, pieces, ts, left := DrainStack(input, len, fuel, [input], [start], [(0.0, 1.0)], [], [0.0]);
    FlattenStateFacts(input, len, curves, points, spans, pieces, ts);
    FlattenExit(input, len, fuel, curves, points, left);
    done := |curves| == 0;
  }

  /** The straight fixture: control points evenly spaced on y = 7 make a flat curve. */
  lemma StraightCurveIsFlat(len: Point -> real, c: Curve)
    requires IsNorm(len)
    requires c == Curve(Point(-2.0, 7.0), Point(-1.0, 7.0), Point(0.0, 7.0), Point(1.0, 7.0))
    ensures IsCurveFlat(c, len)
  {
    assert Sub(c.p1, c.p0) == Sub(c.p2, c.p1) == Sub(c.p3, c.p2) == Point(1.0, 0.0);
    assert Sub(c.p3, c.p0) == Point(3.0, 0.0);
    assert len(Point(1.0, 0.0)) == 1.0;
    assert len(Point(3.0, 0.0)) == 3.0;
  }
}

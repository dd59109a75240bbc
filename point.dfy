/**
 * Points of path segments and their arithmetic (`g2d::vector::point`).
 * Coordinates are exact reals.
 */
module Points {

  /** `Point { x, y }`, a plain value. */
  datatype Point = Point(x: real, y: real)

  /** `ORIGIN_POINT`, the referenceable default point. */
  const ORIGIN_POINT: Point := Point(0.0, 0.0)

  /** `Point::default()`, derived: both coordinates zero. */
  function DefaultPoint(): (p: Point)
    ensures p == ORIGIN_POINT
  {
    Point(0.0, 0.0)
  }

  /** `a + b`. */
  function Add(a: Point, b: Point): Point
  {
    Point(a.x + b.x, a.y + b.y)
  }

  /** `a - b`. */
  function Sub(a: Point, b: Point): Point
  {
    Point(a.x - b.x, a.y - b.y)
  }

  /** `p * factor`. */
  function Mul(p: Point, factor: real): Point
  {
    Point(p.x * factor, p.y * factor)
  }

  function Abs(v: real): (r: real)
    ensures r >= 0.0 && (r == v || r == -v)
  {
    if v < 0.0 then -v else v
  }

  /** `grid_len`: the Manhattan length `|x| + |y|`. */
  function GridLen(p: Point): (r: real)
    ensures r >= 0.0
    ensures r == 0.0 <==> p == ORIGIN_POINT
    ensures Abs(p.x) <= r && Abs(p.y) <= r
  {
    Abs(p.x) + Abs(p.y)
  }

  /**
   * What the model assumes of `len` (`hypot`), which is taken as a parameter:
   * non-negative, zero only at the origin, and the absolute value on the axes.
   */
  ghost predicate IsNorm(len: Point -> real)
  {
    && (forall p :: len(p) >= 0.0)
    && (forall p :: p != ORIGIN_POINT ==> len(p) > 0.0)
    && (forall x :: len(Point(x, 0.0)) == Abs(x))
    && (forall y :: len(Point(0.0, y)) == Abs(y))
  }

  /** Subtraction undoes addition, so `a - b` is the vector from `b` to `a`. */
  lemma SubUndoesAdd(a: Point, b: Point)
    ensures Add(Sub(a, b), b) == a && Sub(Add(a, b), b) == a
  {
  }

  lemma AddCommutes(a: Point, b: Point)
    ensures Add(a, b) == Add(b, a)
  {
  }

  lemma AddOriginIdentity(a: Point)
    ensures Add(a, ORIGIN_POINT) == a && Sub(a, ORIGIN_POINT) == a
  {
  }

  /** Scaling distributes over the difference of two points. */
  lemma MulDistributesOverSub(a: Point, b: Point, f: real)
    ensures Mul(Sub(a, b), f) == Sub(Mul(a, f), Mul(b, f))
  {
  }

  /** The Manhattan length obeys the triangle inequality. */
  lemma GridLenTriangle(a: Point, b: Point)
    ensures GridLen(Add(a, b)) <= GridLen(a) + GridLen(b)
  {
  }

  /**
   * A point whose coordinates are updated in place: the receiver of
   * `AddAssign`.
   */
  class PointCell {
    var x: real
    var y: real

    function Value(): Point
      reads this
    {
      Point(x, y)
    }

    constructor (p: Point)
      ensures Value() == p
    {
      x, y := p.x, p.y;
    }

    /** `self += other`: the cell now holds the old value plus `other`. */
    method AddAssign(other: Point)
      modifies this
      ensures Value() == Add(old(Value()), other)
    {
      x := x + other.x;
      y := y + other.y;
    }
  }
}

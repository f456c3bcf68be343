/** Plane geometry used by the windmill engine: points and displacements,
    Python's reduction of an angle modulo pi, and the quarter-turn rotation. */
module Geometry {

  /** A point or a displacement of the plane. The scenes store points as
      three-component arrays whose third component is always zero; the model
      keeps the first two. */
  datatype Vec2 = Vec2(x: real, y: real)

  function Sub(p: Vec2, q: Vec2): Vec2 { Vec2(p.x - q.x, p.y - q.y) }

  function Add(p: Vec2, q: Vec2): Vec2 { Vec2(p.x + q.x, p.y + q.y) }

  function Neg(v: Vec2): Vec2 { Vec2(-v.x, -v.y) }

  function Scale(k: real, v: Vec2): Vec2 { Vec2(k * v.x, k * v.y) }

  function Dot(u: Vec2, v: Vec2): real { u.x * v.x + u.y * v.y }

  /** The double that numpy and manim call PI. */
  const PI: real := 3.141592653589793

  const TAU: real := 2.0 * PI

  /** The threshold (1e-6) under which a sweep angle or a distance counts as zero. */
  const TINY: real := 0.000001

  /** Python's `x % PI`: the remainder takes the sign of the divisor, so it
      lies in the half-open range [0, PI). */
  function ModPi(x: real): (r: real)
    ensures 0.0 <= r < PI
  {
    x - PI * ((x / PI).Floor as real)
  }

  /** ModPi(x) is the one value of [0, PI) that differs from x by a whole
      number of half turns. */
  lemma ModPiUnique(x: real, k: int, y: real)
    requires 0.0 <= y < PI
    requires x == y + (k as real) * PI
    ensures ModPi(x) == y
  {
    assert x / PI == y / PI + k as real;
    assert 0.0 <= y / PI < 1.0;
    assert (x / PI).Floor == k;
  }

  /** Adding whole half turns does not change the remainder. */
  lemma ModPiPeriodic(x: real, k: int)
    ensures ModPi(x + (k as real) * PI) == ModPi(x)
  {
    var f := (x / PI).Floor;
    assert x == ModPi(x) + (f as real) * PI;
    ModPiUnique(x + (k as real) * PI, f + k, ModPi(x));
  }

  /** `rotate_vector(v, TAU / 4)`: the counter-clockwise quarter turn. */
  function Perp(v: Vec2): (r: Vec2)
    ensures Dot(r, v) == 0.0
    ensures Dot(r, r) == Dot(v, v)
  {
    Vec2(-v.y, v.x)
  }

  /** The orientation test: positive exactly when `v` points to the left of
      `u` (counter-clockwise from it), zero when they are parallel. */
  function Cross(u: Vec2, v: Vec2): real { u.x * v.y - u.y * v.x }

  /** Projecting on the quarter turn of `u` is the orientation test. */
  lemma PerpDotIsCross(u: Vec2, v: Vec2)
    ensures Dot(Perp(u), v) == Cross(u, v)
  {
    var r := Perp(u);
    assert r.x == -u.y && r.y == u.x;
    assert Dot(r, v) == r.x * v.x + r.y * v.y;
  }

  /** Reversing `u` flips the orientation test. */
  lemma CrossNeg(u: Vec2, v: Vec2)
    ensures Cross(Neg(u), v) == -Cross(u, v)
  {
    assert (-u.x) * v.y == -(u.x * v.y);
    assert (-u.y) * v.x == -(u.y * v.x);
  }

  /** Scaling `u` scales the orientation test. */
  lemma CrossScale(k: real, u: Vec2, v: Vec2)
    ensures Cross(Scale(k, u), v) == k * Cross(u, v)
  {
    assert (k * u.x) * v.y == k * (u.x * v.y);
    assert (k * u.y) * v.x == k * (u.y * v.x);
  }

  /** A real whose square is below t * t lies strictly between -t and t. */
  lemma SquareBelow(a: real, t: real)
    requires t > 0.0 && a * a < t * t
    ensures -t < a < t
  {
  }

  /** `get_norm(p - q) < 1e-6`, squared on both sides so that no square root
      is needed (both sides are non-negative, so the two tests agree). A
      point is near itself, and near points differ by less than the
      threshold in each coordinate. */
  function Near(p: Vec2, q: Vec2): (b: bool)
    ensures p == q ==> b
    ensures b ==> -TINY < p.x - q.x < TINY && -TINY < p.y - q.y < TINY
  {
    var d := Sub(p, q);
    if Dot(d, d) < TINY * TINY then
      assert d.x * d.x <= Dot(d, d) && d.y * d.y <= Dot(d, d);
      SquareBelow(d.x, TINY);
      SquareBelow(d.y, TINY);
      true
    else false
  }
}

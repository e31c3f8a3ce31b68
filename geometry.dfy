/** The bearing helper `angle_between_2d` of src/main.rs. `atan2` and
    `normalize_or_zero` are not modelled: the helper receives the two headings
    they would produce (each in (-PI, PI], and 0 for a zero vector), and the
    model proves what the modular fold does with their difference. */
module Geometry {

  /** `avian2d::math::PI` (f32 π, 3.1415927410125732421875) as an 18-digit decimal. */
  const PI: real := 3.14159274101257324
  const TAU: real := 2.0 * PI

  /** Heading of the local y axis of an unrotated transform: atan2(1, 0). */
  const Upright: real := PI / 2.0

  /** `k` whole turns. */
  function Turns(k: int): real { (k as real) * TAU }

  /** Rounding toward zero, as a float-to-int cast does. */
  function Trunc(x: real): (r: int)
    ensures x >= 0.0 ==> 0.0 <= r as real <= x < r as real + 1.0
    ensures x < 0.0 ==> r as real - 1.0 < x <= r as real <= 0.0
  {
    if x >= 0.0 then x.Floor else -((-x).Floor)
  }

  /** The float remainder `x % TAU`: it truncates toward zero, so the result has
      the sign of `x`, unlike Dafny's Euclidean `%`. */
  function TruncRem(x: real): (r: real)
    ensures x >= 0.0 ==> 0.0 <= r < TAU
    ensures x < 0.0 ==> -TAU < r <= 0.0
    ensures exists k: int :: r == x + Turns(k)
  {
    var q := Trunc(x / TAU);
    var r := x - (q as real) * TAU;
    assert r == x + Turns(-q);
    r
  }

  /** The fold at the end of `angle_between_2d`: remainder, then one correction. */
  function Fold(diff: real): (r: real)
    ensures -PI <= r < PI
    ensures exists k: int :: r == diff + Turns(k)
  {
    var a := TruncRem(diff);
    var k :| a == diff + Turns(k);
    if a >= PI then
      assert a - TAU == diff + Turns(k - 1);
      a - TAU
    else if a < -PI then
      assert a + TAU == diff + Turns(k + 1);
      a + TAU
    else
      a
  }

  /** `angle_between_2d`, given the heading of the observer's forward axis and the
      heading of the vector from observer to target: the signed angle from the
      one to the other, in [-PI, PI); a target straight along the axis reads 0. */
  function AngleBetween(forward: real, direction: real): (r: real)
    ensures -PI <= r < PI
    ensures exists k: int :: r == direction - forward + Turns(k)
    ensures direction == forward ==> r == 0.0
  {
    FoldPeriodic(0.0, 0);
    Fold(direction - forward)
  }

  lemma TurnsBound(m: int)
    ensures m >= 1 ==> Turns(m) >= TAU
    ensures m <= -1 ==> Turns(m) <= -TAU
  {
    if m >= 1 { assert (m as real) >= 1.0; }
    if m <= -1 { assert (m as real) <= -1.0; }
  }

  /** The fold is the canonical representative: any angle in [-PI, PI) that
      differs from `x` by whole turns is the value of the fold. */
  lemma FoldUnique(x: real, y: real, k: int)
    requires -PI <= y < PI
    requires y == x + Turns(k)
    ensures Fold(x) == y
  {
    var f := Fold(x);
    var j :| f == x + Turns(j);
    assert f - y == Turns(j - k);
    TurnsBound(j - k);
  }

  /** Folding is insensitive to whole turns and leaves [-PI, PI) as it is. */
  lemma FoldPeriodic(x: real, k: int)
    ensures Fold(x + Turns(k)) == Fold(x)
    ensures -PI <= x < PI ==> Fold(x) == x
  {
    var f := Fold(x);
    var j :| f == x + Turns(j);
    assert f == (x + Turns(k)) + Turns(j - k);
    FoldUnique(x + Turns(k), f, j - k);
    if -PI <= x < PI {
      assert x == x + Turns(0);
      FoldUnique(x, x, 0);
    }
  }

  /** The bearing does not depend on which branch of `atan2` the two headings
      came from: headings that differ by whole turns give the same bearing. */
  lemma HeadingTurns(forward: real, direction: real, k: int, j: int)
    ensures AngleBetween(forward + Turns(k), direction + Turns(j)) == AngleBetween(forward, direction)
  {
    assert (direction + Turns(j)) - (forward + Turns(k)) == (direction - forward) + Turns(j - k);
    FoldPeriodic(direction - forward, j - k);
  }

  /** Bearings seen by an unrotated observer at the origin: ahead is 0, to the
      right (+x) is -PI/2, to the left is PI/2, straight behind folds to -PI (the
      interval is closed at -PI), and a target at the observer's own position,
      whose direction heading is 0, reads -PI/2. */
  lemma UprightBearings()
    ensures AngleBetween(Upright, PI / 2.0) == 0.0
    ensures AngleBetween(Upright, 0.0) == -PI / 2.0
    ensures AngleBetween(Upright, PI) == PI / 2.0
    ensures AngleBetween(Upright, -PI / 2.0) == -PI
  {
    FoldUnique(PI / 2.0 - Upright, 0.0, 0);
    FoldUnique(0.0 - Upright, -PI / 2.0, 0);
    FoldUnique(PI - Upright, PI / 2.0, 0);
    FoldUnique(-PI / 2.0 - Upright, -PI, 0);
  }
}

/**
 * Corrected definitions for the two places where the linearizer's walk departs from what
 * its comments and its contract with callers describe (see README, Findings):
 *
 *  - the angle step: an even subdivision of the span, |theta1 - theta| / steps, so that the
 *    walk ends on theta1 when the auxiliary coordinates reach those of the end position;
 *  - the angles: each next angle is taken one turn or less ahead of the previous one in the
 *    winding direction, instead of normalising every angle on its own.
 *
 * The linearizer in ArcLinearization keeps the behaviour of the code as written.
 */
module Corrections {
  import opened Wrappers
  import opened MathFunctions
  import opened Geometry
  import opened ArcLinearization

  // ---------------------------------------------------------------------------------
  // Angles that follow the winding
  // ---------------------------------------------------------------------------------

  /** The number of whole turns to add to theta to land just ahead of from. */
  function Turns(from: real, theta: real, ccw: bool): int {
    if ccw then ((from - theta) / TWO_PI).Floor + 1
    else -(((theta - from) / TWO_PI).Floor + 1)
  }

  /**
   * The angle of direction theta that is reached first when turning from `from` in the
   * winding direction: within (from, from + 2PI] counter-clockwise, [from - 2PI, from)
   * clockwise, and a whole number of turns away from theta.
   */
  function AngleAhead(from: real, theta: real, ccw: bool): (r: real)
    ensures ccw ==> from < r <= from + TWO_PI
    ensures !ccw ==> from - TWO_PI <= r < from
    ensures r == theta + (Turns(from, theta, ccw) as real) * TWO_PI
  {
    AngleAheadBounds(from, theta, ccw);
    theta + (Turns(from, theta, ccw) as real) * TWO_PI
  }

  /** The bounds of AngleAhead, one winding at a time. */
  lemma AngleAheadBounds(from: real, theta: real, ccw: bool)
    ensures var r := theta + (Turns(from, theta, ccw) as real) * TWO_PI;
      (ccw ==> from < r <= from + TWO_PI) && (!ccw ==> from - TWO_PI <= r < from)
  {
    if ccw {
      TurnsBound(from - theta, ((from - theta) / TWO_PI).Floor);
    } else {
      var f := ((theta - from) / TWO_PI).Floor;
      TurnsBound(theta - from, f);
      assert (-(f + 1) as real) * TWO_PI == -(((f + 1) as real) * TWO_PI);
    }
  }

  /** f + 1 whole turns exceed d, and f turns do not, for f the floor of d / 2PI. */
  lemma TurnsBound(d: real, f: int)
    requires f == (d / TWO_PI).Floor
    ensures (f as real) * TWO_PI <= d < ((f + 1) as real) * TWO_PI
    ensures ((f + 1) as real) * TWO_PI == (f as real) * TWO_PI + TWO_PI
  {
    var q := d / TWO_PI;
    assert q * TWO_PI == d;
    MulStrictMono(q, (f + 1) as real, TWO_PI);
    MulStrictMono(q, f as real, TWO_PI);
  }

  /** A whole number of turns strictly shorter than one turn is no turn at all. */
  lemma WholeTurnsBelowOne(z: int, d: real)
    requires d == (z as real) * TWO_PI && -TWO_PI < d < TWO_PI
    ensures z == 0
  {
    if z >= 1 {
      MulStrictMono(z as real, 1.0, TWO_PI);
    } else if z <= -1 {
      MulStrictMono(-1.0, z as real, TWO_PI);
    }
  }

  // ---------------------------------------------------------------------------------
  // A constructor that refuses a zero tolerance
  // ---------------------------------------------------------------------------------

  /**
   * The constructor with the missing check: besides a missing position it also refuses a
   * tolerance of zero, with which the walk cannot advance. Otherwise it builds what New builds.
   */
  function NewChecked(
    p0: Option<Position>, p1: Option<Position>, p2: Option<Position>, threshold: real,
    fitCircle: (Position, Position, Position) -> Circle,
    isCounterClockwise: (Position, Position, Position) -> bool)
    : (r: Result<CircularArcLinearizer, Error>)
    ensures r.Ok? <==> p0.Some? && p1.Some? && p2.Some? && threshold != 0.0
    ensures r.Ok? ==> r.value.threshold > 0.0
    ensures r.Ok? ==> r == New(p0, p1, p2, threshold, fitCircle, isCounterClockwise)
  {
    if threshold == 0.0 then Err(IllegalArgument)
    else New(p0, p1, p2, threshold, fitCircle, isCounterClockwise)
  }

  /**
   * A linearizer that NewChecked accepts, on a proper circle with a tolerance of at most
   * twice the radius and positions of one dimension, walks with a positive angle step.
   */
  lemma CheckedToleranceAdvances(
    p0: Position, p1: Position, p2: Position, threshold: real,
    fitCircle: (Position, Position, Position) -> Circle,
    isCounterClockwise: (Position, Position, Position) -> bool, m: MathFns)
    requires m.Valid() && |p1| == |p0| && |p2| == |p0|
    requires NewChecked(Some(p0), Some(p1), Some(p2), threshold, fitCircle, isCounterClockwise).Ok?
    requires var c := fitCircle(p0, p1, p2); c.radius > 0.0 && Abs(threshold) <= 2.0 * c.radius
    ensures var lin := NewChecked(Some(p0), Some(p1), Some(p2), threshold, fitCircle, isCounterClockwise).value;
      lin.Valid() && MaxAngleIncrement(lin, m) > 0.0
  {
  }

  // ---------------------------------------------------------------------------------
  // An even subdivision of a span
  // ---------------------------------------------------------------------------------

  /** The angle of the k-th point of an even subdivision of the span into steps parts. */
  function EvenAngleAt(theta: real, theta1: real, maxAngleIncr: real, k: nat): real
    requires maxAngleIncr > 0.0 && theta != theta1
  {
    theta + (k as real) * ((theta1 - theta) / (Steps(theta, theta1, maxAngleIncr) as real))
  }

  /** The k-th point of the even subdivision: on the circle, auxiliaries k increments on. */
  function EvenPointAt(
    c: Circle, m: MathFns, theta: real, theta1: real, p: Position, p1: Position,
    maxAngleIncr: real, k: nat): Position
    requires maxAngleIncr > 0.0 && theta != theta1 && |p1| >= |p|
  {
    var a := EvenAngleAt(theta, theta1, maxAngleIncr, k);
    [c.x + c.radius * m.cos(a), c.y + c.radius * m.sin(a)] +
    AuxValues(p, AuxIncrements(theta, theta1, p, p1, maxAngleIncr), k)
  }

  /** The interior points of the even subdivision: steps - 1 of them, none for an empty span. */
  function EvenSpan(
    c: Circle, m: MathFns, theta: real, theta1: real, p: Position, p1: Position,
    maxAngleIncr: real): (s: seq<Position>)
    requires maxAngleIncr > 0.0 && |p1| >= |p|
    ensures theta == theta1 ==> s == []
    ensures theta != theta1 ==> |s| == Steps(theta, theta1, maxAngleIncr) - 1
    ensures forall q :: q in s ==> |q| == |p|
  {
    if theta == theta1 then []
    else
      seq(Steps(theta, theta1, maxAngleIncr) - 1, j requires 0 <= j =>
        EvenPointAt(c, m, theta, theta1, p, p1, maxAngleIncr, j + 1))
  }

  /**
   * After steps steps the even walk is exactly at theta1 and its auxiliary coordinates are
   * exactly those of p1: the span closes on the end position.
   */
  lemma EvenSpanEndsAtTarget(
    theta: real, theta1: real, p: Position, p1: Position, maxAngleIncr: real)
    requires maxAngleIncr > 0.0 && theta != theta1 && |p1| >= |p|
    ensures var steps := Steps(theta, theta1, maxAngleIncr);
      EvenAngleAt(theta, theta1, maxAngleIncr, steps) == theta1 &&
      forall i :: 0 <= i < |p| - 2 ==>
        AuxValues(p, AuxIncrements(theta, theta1, p, p1, maxAngleIncr), steps)[i] == p1[2 + i]
  {
    var steps := Steps(theta, theta1, maxAngleIncr);
    var n := steps as real;
    assert n * ((theta1 - theta) / n) == theta1 - theta;
    var aux := AuxValues(p, AuxIncrements(theta, theta1, p, p1, maxAngleIncr), steps);
    forall i | 0 <= i < |p| - 2
      ensures aux[i] == p1[2 + i]
    {
      assert n * ((p1[2 + i] - p[2 + i]) / n) == p1[2 + i] - p[2 + i];
    }
  }

  /** The even walk advances by (theta1 - theta) / steps, whose size is at most maxAngleIncr. */
  lemma EvenSpanSpacing(theta: real, theta1: real, maxAngleIncr: real, k: nat)
    requires maxAngleIncr > 0.0 && theta != theta1
    ensures var d := (theta1 - theta) / (Steps(theta, theta1, maxAngleIncr) as real);
      EvenAngleAt(theta, theta1, maxAngleIncr, k + 1) - EvenAngleAt(theta, theta1, maxAngleIncr, k) == d &&
      Abs(d) == Abs(theta1 - theta) / (Steps(theta, theta1, maxAngleIncr) as real) <= maxAngleIncr
  {
    var n := Steps(theta, theta1, maxAngleIncr) as real;
    var d := (theta1 - theta) / n;
    var x := k as real;
    assert (x + 1.0) * d == x * d + d;
    assert n * d == theta1 - theta;
    QuotientSize(theta1 - theta, n, maxAngleIncr);
  }

  /** For 0 < n, |v / n| is |v| / n, and it is at most m when |v| <= n * m and 0 < m. */
  lemma QuotientSize(v: real, n: real, m: real)
    requires n >= 1.0 && m > 0.0 && Abs(v) <= n * m
    ensures Abs(v / n) == Abs(v) / n <= m
  {
    var d := v / n;
    assert n * d == v;
    if v >= 0.0 { MulStrictMono(d, 0.0, n); } else { MulStrictMono(0.0, d, n); }
    assert Abs(d) * n == Abs(v);
    if Abs(d) > m {
      MulStrictMono(m, Abs(d), n);
    }
  }

  /** Every interior angle of the even walk lies strictly between theta and theta1. */
  lemma EvenSpanAnglesStrictlyBetween(theta: real, theta1: real, maxAngleIncr: real, k: nat)
    requires maxAngleIncr > 0.0 && theta != theta1
    requires 1 <= k < Steps(theta, theta1, maxAngleIncr)
    ensures var a := EvenAngleAt(theta, theta1, maxAngleIncr, k);
      (theta < a < theta1) || (theta1 < a < theta)
  {
    var n := Steps(theta, theta1, maxAngleIncr) as real;
    FractionStrictlyInside(theta1 - theta, k as real, n);
  }

  /** For 0 < x < n, x * (v / n) lies strictly between 0 and v. */
  lemma FractionStrictlyInside(v: real, x: real, n: real)
    requires v != 0.0 && 0.0 < x < n
    ensures var y := x * (v / n); (0.0 < y < v) || (v < y < 0.0)
  {
    var d := v / n;
    assert n * d == v;
    if v > 0.0 {
      MulStrictMono(0.0, d, n);
      MulStrictMono(0.0, x, d);
      MulStrictMono(x, n, d);
    } else {
      MulStrictMono(d, 0.0, n);
      MulStrictMono(0.0, x, -d);
      MulStrictMono(x, n, -d);
    }
  }

  /**
   * Every auxiliary coordinate of the even walk, up to and including steps increments,
   * lies between its values at the two ends of the span.
   */
  lemma EvenSpanAuxBetween(
    theta: real, theta1: real, p: Position, p1: Position, maxAngleIncr: real, k: nat, i: nat)
    requires maxAngleIncr > 0.0 && theta != theta1 && |p1| >= |p|
    requires k <= Steps(theta, theta1, maxAngleIncr) && i < |p| - 2
    ensures var v := AuxValues(p, AuxIncrements(theta, theta1, p, p1, maxAngleIncr), k)[i];
      (p[2 + i] <= v <= p1[2 + i]) || (p1[2 + i] <= v <= p[2 + i])
  {
    var n := Steps(theta, theta1, maxAngleIncr) as real;
    var e := (p1[2 + i] - p[2 + i]) / n;
    var x := k as real;
    assert n * e == p1[2 + i] - p[2 + i];
    if e >= 0.0 {
      assert x * e <= n * e by {
        if e > 0.0 { MulStrictMono(n, x, e); }
      }
      assert 0.0 <= x * e;
    } else {
      MulStrictMono(n, x, -e);
      assert x * (-e) <= n * (-e);
      assert 0.0 <= x * (-e);
    }
  }

  /** The even subdivision keeps the tolerance: its angle step is at most maxAngleIncr. */
  lemma EvenStepErrorWithinThreshold(lin: CircularArcLinearizer, m: MathFns, theta: real, theta1: real)
    requires m.Valid() && lin.Valid() && theta != theta1
    ensures var step := Abs(theta1 - theta) / (Steps(theta, theta1, MaxAngleIncrement(lin, m)) as real);
      lin.c.radius - lin.c.radius * m.cos(step) <= lin.threshold
  {
    var r, t := lin.c.radius, lin.threshold;
    var v := (r - t) / r;
    assert v * r == r - t;
    MulStrictMono(v, 1.0, r);
    MulStrictMono(v, -1.0, r);
    var incr := MaxAngleIncrement(lin, m);
    assert incr == m.acos(v);
    var n := Steps(theta, theta1, incr) as real;
    var step := Abs(theta1 - theta) / n;
    assert step * n == Abs(theta1 - theta);
    MulStrictMono(0.0, step, n);
    if step > incr {
      MulStrictMono(incr, step, n);
    }
    assert m.cos(incr) <= m.cos(step);
    MulStrictMono(m.cos(step), v, r);
  }

  // ---------------------------------------------------------------------------------
  // The corrected linearizations
  // ---------------------------------------------------------------------------------

  /** The direction of the winding as a walking sign. */
  function WindingSign(lin: CircularArcLinearizer): real {
    if lin.isCounterClockwise then 1.0 else -1.0
  }

  /** The angles of p0, p1 and p2 along the winding: each one ahead of the previous one. */
  function ArcAngles(lin: CircularArcLinearizer, m: MathFns): (angles: (real, real, real))
    requires m.Valid()
    ensures var (theta0, theta1, theta2) := angles;
      Direction(theta0, theta1) == WindingSign(lin) && Direction(theta1, theta2) == WindingSign(lin) &&
      theta0 != theta1 && theta1 != theta2 &&
      Abs(theta1 - theta0) <= TWO_PI && Abs(theta2 - theta1) <= TWO_PI
  {
    var ccw := lin.isCounterClockwise;
    var theta0 := AngleInDirection(lin, m, lin.p0);
    var theta1 := AngleAhead(theta0, RawAngle(lin, m, lin.p1), ccw);
    var theta2 := AngleAhead(theta1, RawAngle(lin, m, lin.p2), ccw);
    (theta0, theta1, theta2)
  }

  /** linearize with both corrections: the walk follows the winding and each span divides evenly. */
  function CorrectedArc(lin: CircularArcLinearizer, m: MathFns): (r: seq<Position>)
    requires m.Valid() && lin.Valid()
    ensures var (theta0, theta1, theta2) := ArcAngles(lin, m);
      var n1 := Steps(theta0, theta1, MaxAngleIncrement(lin, m)) - 1;
      var n2 := Steps(theta1, theta2, MaxAngleIncrement(lin, m)) - 1;
      |r| == n1 + n2 + 3 && r[0] == lin.p0 && r[n1 + 1] == lin.p1 && r[|r| - 1] == lin.p2
    ensures forall q :: q in r ==> |q| == |lin.p0|
  {
    var (theta0, theta1, theta2) := ArcAngles(lin, m);
    var angleIncr := MaxAngleIncrement(lin, m);
    var s1 := EvenSpan(lin.c, m, theta0, theta1, lin.p0, lin.p1, angleIncr);
    var s2 := EvenSpan(lin.c, m, theta1, theta2, lin.p1, lin.p2, angleIncr);
    Joined(lin.p0, s1, lin.p1, s2, lin.p2);
    [lin.p0] + s1 + [lin.p1] + s2 + [lin.p2]
  }

  /** The angles of the corrected full circle: p0's, p1's one turn or less ahead, and p0's one turn on. */
  function CircleAngles(lin: CircularArcLinearizer, m: MathFns): (angles: (real, real, real))
    requires m.Valid()
    ensures var (theta0, theta1, thetaEnd) := angles;
      Direction(theta0, theta1) == WindingSign(lin) && thetaEnd == theta0 + WindingSign(lin) * TWO_PI &&
      theta0 != theta1
  {
    var theta0 := AngleInDirection(lin, m, lin.p0);
    var theta1 := AngleAhead(theta0, RawAngle(lin, m, lin.p1), lin.isCounterClockwise);
    (theta0, theta1, theta0 + WindingSign(lin) * TWO_PI)
  }

  /** linearizeCircle with both corrections. */
  function CorrectedCircle(lin: CircularArcLinearizer, m: MathFns): (r: seq<Position>)
    requires m.Valid() && lin.Valid()
    ensures var (theta0, theta1, thetaEnd) := CircleAngles(lin, m);
      var n1 := Steps(theta0, theta1, MaxAngleIncrement(lin, m)) - 1;
      var n2 := if theta1 == thetaEnd then 0 else Steps(theta1, thetaEnd, MaxAngleIncrement(lin, m)) - 1;
      |r| == n1 + n2 + 3 && r[0] == lin.p0 && r[n1 + 1] == lin.p1 && r[|r| - 1] == lin.p0
    ensures forall q :: q in r ==> |q| == |lin.p0|
  {
    var (theta0, theta1, thetaEnd) := CircleAngles(lin, m);
    var angleIncr := MaxAngleIncrement(lin, m);
    var s1 := EvenSpan(lin.c, m, theta0, theta1, lin.p0, lin.p1, angleIncr);
    var s2 := EvenSpan(lin.c, m, theta1, thetaEnd, lin.p1, lin.p0, angleIncr);
    Joined(lin.p0, s1, lin.p1, s2, lin.p0);
    [lin.p0] + s1 + [lin.p1] + s2 + [lin.p0]
  }

  /**
   * When p1 is not in the direction of p0, the corrected circle walks both spans in the
   * winding direction and sweeps exactly one turn.
   */
  lemma CorrectedCircleSweepsOneTurn(lin: CircularArcLinearizer, m: MathFns)
    requires m.Valid() && RawAngle(lin, m, lin.p1) != RawAngle(lin, m, lin.p0)
    ensures var (theta0, theta1, thetaEnd) := CircleAngles(lin, m);
      Direction(theta0, theta1) == WindingSign(lin) && Direction(theta1, thetaEnd) == WindingSign(lin) &&
      Abs(theta1 - theta0) + Abs(thetaEnd - theta1) == TWO_PI
  {
    var ccw := lin.isCounterClockwise;
    var raw0, raw1 := RawAngle(lin, m, lin.p0), RawAngle(lin, m, lin.p1);
    var (theta0, theta1, thetaEnd) := CircleAngles(lin, m);
    var z := Turns(theta0, raw1, ccw);
    assert theta1 == raw1 + (z as real) * TWO_PI;
    if theta1 == thetaEnd {
      var j: int := if theta0 == raw0 then 0 else if theta0 == raw0 + TWO_PI then 1 else -1;
      assert theta0 == raw0 + (j as real) * TWO_PI;
      var w := j - z + (if ccw then 1 else -1);
      assert raw1 - raw0 == (w as real) * TWO_PI;
      WholeTurnsBelowOne(w, raw1 - raw0);
      assert false;
    }
  }
}

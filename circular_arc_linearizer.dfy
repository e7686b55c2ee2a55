/**
 * Linearization of a circular arc given by three positions into a polyline
 * (org.geolatte.geom.cga.CircularArcLinearizer).
 *
 * An instance holds the three positions, the tolerance, the fitted circle and the winding.
 * `Linearize` and `LinearizeCircle` build their output in two spans: each span's interior
 * points come from the stepping loop `AddPointsBetweenPolarCoordinates`, and the caller's
 * positions are appended verbatim at the span boundaries.
 */
module ArcLinearization {
  import opened Wrappers
  import opened MathFunctions
  import opened Geometry

  datatype Error = IllegalArgument

  /** The state of one linearizer; every field is final in the Java class. */
  datatype CircularArcLinearizer = CircularArcLinearizer(
    threshold: real,
    p0: Position,
    p1: Position,
    p2: Position,
    c: Circle,
    isCounterClockwise: bool)
  {
    /**
     * What the linearize operations need: a proper circle, a positive tolerance small enough
     * for acos to be defined, and three positions of one coordinate dimension (they share
     * the position type P).
     */
    predicate Valid() {
      c.radius > 0.0 && 0.0 < threshold <= 2.0 * c.radius &&
      |p1| == |p0| && |p2| == |p0|
    }
  }

  /**
   * The constructor. A missing position is refused; the tolerance is stored as an absolute
   * value; the circle fit and the winding test are the external collaborators, applied to
   * the three positions.
   */
  function New(
    p0: Option<Position>, p1: Option<Position>, p2: Option<Position>, threshold: real,
    fitCircle: (Position, Position, Position) -> Circle,
    isCounterClockwise: (Position, Position, Position) -> bool)
    : (r: Result<CircularArcLinearizer, Error>)
    ensures r.Ok? <==> p0.Some? && p1.Some? && p2.Some?
    ensures r.Ok? ==> r.value.threshold >= 0.0
    ensures r.Ok? ==> r.value.threshold == threshold || r.value.threshold == -threshold
    ensures r.Ok? ==> r.value.p0 == p0.value && r.value.p1 == p1.value && r.value.p2 == p2.value
    ensures r.Ok? ==> r.value.c == fitCircle(p0.value, p1.value, p2.value)
    ensures r.Ok? ==> r.value.isCounterClockwise == isCounterClockwise(p0.value, p1.value, p2.value)
  {
    if p0.None? || p1.None? || p2.None? then
      Err(IllegalArgument)
    else
      Ok(CircularArcLinearizer(
        Abs(threshold), p0.value, p1.value, p2.value,
        fitCircle(p0.value, p1.value, p2.value),
        isCounterClockwise(p0.value, p1.value, p2.value)))
  }

  /** The raw polar angle of p about the circle's center, as atan2 gives it. */
  function RawAngle(lin: CircularArcLinearizer, m: MathFns, p: Position): real {
    m.atan2(p[1] - lin.c.y, p[0] - lin.c.x)
  }

  /**
   * The polar angle of p, moved into the half-range of the winding: [0, 2PI) when
   * counter-clockwise, (-2PI, 0] when clockwise. It names the same direction as the raw
   * angle, and a raw angle that already has the right sign is kept.
   */
  function AngleInDirection(lin: CircularArcLinearizer, m: MathFns, p: Position): (theta: real)
    requires m.Valid()
    ensures lin.isCounterClockwise ==> 0.0 <= theta < TWO_PI
    ensures !lin.isCounterClockwise ==> -TWO_PI < theta <= 0.0
    ensures var raw := RawAngle(lin, m, p);
      if (if lin.isCounterClockwise then raw >= 0.0 else raw <= 0.0) then theta == raw
      else theta == raw + TWO_PI || theta == raw - TWO_PI
  {
    var theta := m.atan2(p[1] - lin.c.y, p[0] - lin.c.x);
    if lin.isCounterClockwise then
      (if theta >= 0.0 then theta else TWO_PI + theta)
    else
      (if theta <= 0.0 then theta else theta - TWO_PI)
  }

  /**
   * The angle increment derived from the tolerance, acos((r - t) / r): positive, so the
   * stepping loop makes progress, and at most PI.
   */
  function MaxAngleIncrement(lin: CircularArcLinearizer, m: MathFns): (incr: real)
    requires m.Valid() && lin.Valid()
    ensures 0.0 < incr <= PI
  {
    var r, t := lin.c.radius, lin.threshold;
    var v := (r - t) / r;
    assert v * r == r - t;
    MulStrictMono(v, 1.0, r);
    MulStrictMono(v, -1.0, r);
    m.acos(v)
  }

  // ---------------------------------------------------------------------------------
  // The stepping rule of one span, in closed form
  // ---------------------------------------------------------------------------------

  /**
   * The number of steps, ceil(|theta1 - theta| / maxAngleIncr): the least count of
   * maxAngleIncr-sized steps that covers the span; zero only for an empty span.
   */
  function Steps(theta: real, theta1: real, maxAngleIncr: real): (n: nat)
    requires maxAngleIncr > 0.0
    ensures n == 0 <==> theta == theta1
    ensures Abs(theta1 - theta) <= (n as real) * maxAngleIncr
    ensures (n as real) * maxAngleIncr < Abs(theta1 - theta) + maxAngleIncr
  {
    var n := Ceil(Abs(theta1 - theta) / maxAngleIncr);
    CeilOfQuotient(Abs(theta1 - theta), maxAngleIncr);
    MulStrictMono(n as real, 0.0, maxAngleIncr);
    MulStrictMono(0.0, n as real, maxAngleIncr);
    n
  }

  /** The walking direction `sign`: it points from theta towards theta1. */
  function Direction(theta: real, theta1: real): (sign: real)
    ensures sign == 1.0 || sign == -1.0
    ensures sign * (theta1 - theta) == Abs(theta1 - theta)
  {
    if theta < theta1 then 1.0 else -1.0
  }

  /** The per-step angle, maxAngleIncr / steps: positive and never above maxAngleIncr. */
  function AngleStep(theta: real, theta1: real, maxAngleIncr: real): (step: real)
    requires maxAngleIncr > 0.0 && theta != theta1
    ensures 0.0 < step <= maxAngleIncr
    ensures step * (Steps(theta, theta1, maxAngleIncr) as real) == maxAngleIncr
  {
    var n := Steps(theta, theta1, maxAngleIncr) as real;
    assert n >= 1.0;
    var step := maxAngleIncr / n;
    assert step * n == maxAngleIncr;
    MulStrictMono(0.0, step, n);
    assert step > 0.0;
    MulStrictMono(n, 1.0, step);
    assert n * step == step * n;
    assert step <= step * n;
    step
  }

  /**
   * How many points the loop emits: the largest n with n steps of AngleStep strictly inside
   * the span (zero for an empty span).
   */
  function EmittedCount(theta: real, theta1: real, maxAngleIncr: real): (n: nat)
    requires maxAngleIncr > 0.0
    ensures theta == theta1 ==> n == 0
    ensures theta != theta1 ==>
      (n as real) * AngleStep(theta, theta1, maxAngleIncr) < Abs(theta1 - theta) <=
      ((n + 1) as real) * AngleStep(theta, theta1, maxAngleIncr)
  {
    if theta == theta1 then 0
    else
      var step := AngleStep(theta, theta1, maxAngleIncr);
      var k := Ceil(Abs(theta1 - theta) / step);
      CeilOfQuotient(Abs(theta1 - theta), step);
      MulStrictMono(k as real, 1.0, step);
      assert ((k - 1) as real) * step == (k as real) * step - step;
      k - 1
  }

  /** The angle of the k-th point of the walk (k = 0 is theta itself). */
  function AngleAt(theta: real, theta1: real, maxAngleIncr: real, k: nat): real
    requires maxAngleIncr > 0.0 && theta != theta1
  {
    theta + Direction(theta, theta1) * ((k as real) * AngleStep(theta, theta1, maxAngleIncr))
  }

  /**
   * The per-step increments of the auxiliary coordinates, the `incr` array: the change of
   * coordinate 2 + i over the span, divided by steps.
   */
  function AuxIncrements(theta: real, theta1: real, p: Position, p1: Position, maxAngleIncr: real)
    : (incr: seq<real>)
    requires maxAngleIncr > 0.0 && theta != theta1 && |p1| >= |p|
    ensures |incr| == |p| - 2
  {
    seq(|p| - 2, i requires 0 <= i < |p| - 2 =>
      (p1[2 + i] - p[2 + i]) / (Steps(theta, theta1, maxAngleIncr) as real))
  }

  /** The auxiliary coordinates after k increments, starting from those of p. */
  function AuxValues(p: Position, incr: seq<real>, k: nat): (aux: seq<real>)
    requires |incr| == |p| - 2
    ensures |aux| == |p| - 2
  {
    seq(|p| - 2, i requires 0 <= i < |p| - 2 => p[2 + i] + (k as real) * incr[i])
  }

  /** The k-th emitted point: on the circle at AngleAt(k), auxiliaries k increments on from p. */
  function PointAt(
    c: Circle, m: MathFns, theta: real, theta1: real, p: Position, p1: Position,
    maxAngleIncr: real, k: nat): Position
    requires maxAngleIncr > 0.0 && theta != theta1 && |p1| >= |p|
  {
    var a := AngleAt(theta, theta1, maxAngleIncr, k);
    [c.x + c.radius * m.cos(a), c.y + c.radius * m.sin(a)] +
    AuxValues(p, AuxIncrements(theta, theta1, p, p1, maxAngleIncr), k)
  }

  /** All points the stepping loop emits for one span, in order. */
  function Span(
    c: Circle, m: MathFns, theta: real, theta1: real, p: Position, p1: Position,
    maxAngleIncr: real): seq<Position>
    requires maxAngleIncr > 0.0 && |p1| >= |p|
  {
    if theta == theta1 then []
    else
      seq(EmittedCount(theta, theta1, maxAngleIncr), j requires 0 <= j =>
        PointAt(c, m, theta, theta1, p, p1, maxAngleIncr, j + 1))
  }

  // ---------------------------------------------------------------------------------
  // Properties of the stepping rule
  // ---------------------------------------------------------------------------------

  /** k whole steps of AngleStep stay strictly inside the span exactly when k <= EmittedCount. */
  lemma StepsInsideSpan(theta: real, theta1: real, maxAngleIncr: real, k: nat)
    requires maxAngleIncr > 0.0 && theta != theta1
    ensures (k as real) * AngleStep(theta, theta1, maxAngleIncr) < Abs(theta1 - theta) <==>
      k <= EmittedCount(theta, theta1, maxAngleIncr)
  {
    var step := AngleStep(theta, theta1, maxAngleIncr);
    var n := EmittedCount(theta, theta1, maxAngleIncr);
    MultiplesBelow(k, n, step, Abs(theta1 - theta));
  }

  /** Seen along the walking direction, the k-th angle is k steps past theta. */
  lemma AngleAtAlongDirection(theta: real, theta1: real, maxAngleIncr: real, k: nat)
    requires maxAngleIncr > 0.0 && theta != theta1
    ensures var sign := Direction(theta, theta1);
      sign * AngleAt(theta, theta1, maxAngleIncr, k) ==
      sign * theta + (k as real) * AngleStep(theta, theta1, maxAngleIncr)
  {
    var x := (k as real) * AngleStep(theta, theta1, maxAngleIncr);
    if theta < theta1 {
      assert AngleAt(theta, theta1, maxAngleIncr, k) == theta + x;
    } else {
      assert AngleAt(theta, theta1, maxAngleIncr, k) == theta - x;
    }
  }

  /**
   * The loop guard `sign * a < sign * theta1` holds at the k-th angle of the walk exactly
   * for the first EmittedCount angles.
   */
  lemma GuardHoldsExactly(theta: real, theta1: real, maxAngleIncr: real, k: nat)
    requires maxAngleIncr > 0.0 && theta != theta1
    ensures var sign := Direction(theta, theta1);
      sign * AngleAt(theta, theta1, maxAngleIncr, k) < sign * theta1 <==>
      k <= EmittedCount(theta, theta1, maxAngleIncr)
  {
    AngleAtAlongDirection(theta, theta1, maxAngleIncr, k);
    StepsInsideSpan(theta, theta1, maxAngleIncr, k);
  }

  /** Every emitted angle lies strictly between the two span angles. */
  lemma SpanAnglesStrictlyBetween(theta: real, theta1: real, maxAngleIncr: real, k: nat)
    requires maxAngleIncr > 0.0 && theta != theta1
    requires 1 <= k <= EmittedCount(theta, theta1, maxAngleIncr)
    ensures var a := AngleAt(theta, theta1, maxAngleIncr, k);
      (theta < a < theta1) || (theta1 < a < theta)
  {
    AngleAtAlongDirection(theta, theta1, maxAngleIncr, k);
    StepsInsideSpan(theta, theta1, maxAngleIncr, k);
    MulStrictMono(0.0, k as real, AngleStep(theta, theta1, maxAngleIncr));
  }

  /**
   * The walk moves strictly in the direction `sign`, by the same angle AngleStep at every
   * step, and AngleStep is maxAngleIncr / steps, never above maxAngleIncr.
   */
  lemma SpanAnglesUniform(theta: real, theta1: real, maxAngleIncr: real, k: nat)
    requires maxAngleIncr > 0.0 && theta != theta1
    ensures var sign, step := Direction(theta, theta1), AngleStep(theta, theta1, maxAngleIncr);
      AngleAt(theta, theta1, maxAngleIncr, k + 1) - AngleAt(theta, theta1, maxAngleIncr, k) == sign * step &&
      sign * AngleAt(theta, theta1, maxAngleIncr, k) < sign * AngleAt(theta, theta1, maxAngleIncr, k + 1) &&
      step * (Steps(theta, theta1, maxAngleIncr) as real) == maxAngleIncr &&
      step <= maxAngleIncr
  {
    var step := AngleStep(theta, theta1, maxAngleIncr);
    assert ((k + 1) as real) * step == (k as real) * step + step;
    AngleAtAlongDirection(theta, theta1, maxAngleIncr, k);
    AngleAtAlongDirection(theta, theta1, maxAngleIncr, k + 1);
  }

  /**
   * The k-th emitted point lies on the circle at AngleAt(k), has the dimension of the span's
   * start position, and auxiliary coordinate j equals p's plus k times (p1's - p's) / steps.
   */
  lemma SpanPointCoordinates(
    c: Circle, m: MathFns, theta: real, theta1: real, p: Position, p1: Position,
    maxAngleIncr: real, k: nat)
    requires maxAngleIncr > 0.0 && |p1| >= |p| && theta != theta1
    requires 1 <= k <= EmittedCount(theta, theta1, maxAngleIncr)
    ensures var s, a := Span(c, m, theta, theta1, p, p1, maxAngleIncr), AngleAt(theta, theta1, maxAngleIncr, k);
      |s| == EmittedCount(theta, theta1, maxAngleIncr) &&
      |s[k - 1]| == |p| &&
      s[k - 1][0] == c.x + c.radius * m.cos(a) &&
      s[k - 1][1] == c.y + c.radius * m.sin(a) &&
      forall j :: 2 <= j < |p| ==>
        s[k - 1][j] == p[j] + (k as real) * ((p1[j] - p[j]) / (Steps(theta, theta1, maxAngleIncr) as real))
  {
    var s := Span(c, m, theta, theta1, p, p1, maxAngleIncr);
    var q := PointAt(c, m, theta, theta1, p, p1, maxAngleIncr, k);
    assert s[k - 1] == q;
    forall j | 2 <= j < |p|
      ensures q[j] == p[j] + (k as real) * ((p1[j] - p[j]) / (Steps(theta, theta1, maxAngleIncr) as real))
    {
      assert q[j] == AuxValues(p, AuxIncrements(theta, theta1, p, p1, maxAngleIncr), k)[j - 2];
    }
  }

  /** Every point of a span has the coordinate dimension of the span's start position. */
  lemma SpanDimension(
    c: Circle, m: MathFns, theta: real, theta1: real, p: Position, p1: Position, maxAngleIncr: real)
    requires maxAngleIncr > 0.0 && |p1| >= |p|
    ensures forall q :: q in Span(c, m, theta, theta1, p, p1, maxAngleIncr) ==> |q| == |p|
  {
  }

  /** The number of emitted points stays below |theta1 - theta| / AngleStep. */
  lemma EmittedCountBelowQuotient(theta: real, theta1: real, maxAngleIncr: real)
    requires maxAngleIncr > 0.0 && theta != theta1
    ensures (EmittedCount(theta, theta1, maxAngleIncr) as real) <
      Abs(theta1 - theta) / AngleStep(theta, theta1, maxAngleIncr)
  {
    var step := AngleStep(theta, theta1, maxAngleIncr);
    var d := Abs(theta1 - theta);
    assert (d / step) * step == d;
    MulStrictMono(EmittedCount(theta, theta1, maxAngleIncr) as real, d / step, step);
  }

  /**
   * The loop emits at least steps - 1 points, and when the span is wider than maxAngleIncr
   * at least steps: it does not stop after the steps - 1 points of an even subdivision.
   */
  lemma EmittedCountAtLeastSteps(theta: real, theta1: real, maxAngleIncr: real)
    requires maxAngleIncr > 0.0 && theta != theta1
    ensures var n, steps := EmittedCount(theta, theta1, maxAngleIncr), Steps(theta, theta1, maxAngleIncr);
      steps - 1 <= n && (Abs(theta1 - theta) > maxAngleIncr ==> steps <= n)
  {
    var steps := Steps(theta, theta1, maxAngleIncr);
    var step := AngleStep(theta, theta1, maxAngleIncr);
    FewerStepsInside(steps, maxAngleIncr, step, Abs(theta1 - theta));
    StepsInsideSpan(theta, theta1, maxAngleIncr, steps - 1);
    StepsInsideSpan(theta, theta1, maxAngleIncr, steps);
  }

  /**
   * With steps the least number of steps of size maxAngleIncr that covers d, steps - 1
   * steps of a size at most maxAngleIncr stay below d.
   */
  lemma FewerStepsInside(steps: nat, maxAngleIncr: real, step: real, d: real)
    requires steps >= 1 && 0.0 < step <= maxAngleIncr
    requires (steps as real) * maxAngleIncr < d + maxAngleIncr
    ensures ((steps - 1) as real) * step < d
  {
    var fewer := (steps - 1) as real;
    assert fewer * maxAngleIncr == (steps as real) * maxAngleIncr - maxAngleIncr;
    if fewer > 0.0 {
      MulStrictMono(maxAngleIncr, step, fewer);
    }
  }

  /** One more increment moves the auxiliary coordinates from AuxValues(k) to AuxValues(k + 1). */
  lemma AuxValuesNext(p: Position, incr: seq<real>, k: nat)
    requires |incr| == |p| - 2
    ensures forall i :: 0 <= i < |p| - 2 ==>
      AuxValues(p, incr, k + 1)[i] == AuxValues(p, incr, k)[i] + incr[i]
  {
    forall i | 0 <= i < |p| - 2
      ensures AuxValues(p, incr, k + 1)[i] == AuxValues(p, incr, k)[i] + incr[i]
    {
      assert ((k + 1) as real) * incr[i] == (k as real) * incr[i] + incr[i];
    }
  }

  // ---------------------------------------------------------------------------------
  // The stepping loop
  // ---------------------------------------------------------------------------------

  /** The `incr` array of the auxiliary increments, filled by the first loop of the Java method. */
  method NewIncrements(p: Position, p1: Position, steps: nat) returns (incr: array<real>)
    requires |p1| >= |p| && steps > 0
    ensures fresh(incr)
    ensures incr[..] == seq(|p| - 2, i requires 0 <= i < |p| - 2 => (p1[2 + i] - p[2 + i]) / (steps as real))
  {
    incr := new real[|p| - 2];
    for i := 0 to incr.Length
      invariant forall j :: 0 <= j < i ==> incr[j] == (p1[2 + j] - p[2 + j]) / (steps as real)
    {
      incr[i] := (p1[2 + i] - p[2 + i]) / (steps as real);
    }
  }

  /** The coordinate buffer `buf`, its auxiliary coordinates initialised from p. */
  method NewBuffer(p: Position) returns (buf: array<real>)
    ensures fresh(buf)
    ensures buf.Length == |p| && buf[2..] == p[2..]
  {
    buf := new real[|p|];
    for i := 0 to |p| - 2
      invariant forall j :: 0 <= j < i ==> buf[2..][j] == p[2..][j]
    {
      buf[2 + i] := p[2 + i];
    }
  }

  /** Adds the increments to the auxiliary coordinates of the buffer, in place. */
  method Interpolate(buf: array<real>, incr: array<real>)
    requires buf.Length == incr.Length + 2 && buf != incr
    modifies buf
    ensures buf[..2] == old(buf[..2])
    ensures forall i :: 0 <= i < incr.Length ==> buf[2..][i] == old(buf[2..][i]) + incr[i]
  {
    for i := 0 to incr.Length
      invariant buf[..2] == old(buf[..2])
      invariant forall j :: 0 <= j < i ==> buf[2..][j] == old(buf[2..][j]) + incr[j]
      invariant forall j :: i <= j < incr.Length ==> buf[2..][j] == old(buf[2..][j])
    {
      buf[2 + i] := buf[2 + i] + incr[i];
    }
  }

  /** A sequence of the first EmittedCount points, in order, is the span. */
  lemma SpanOfPoints(
    c: Circle, m: MathFns, theta: real, theta1: real, p: Position, p1: Position,
    maxAngleIncr: real, pts: seq<Position>)
    requires maxAngleIncr > 0.0 && theta != theta1 && |p1| >= |p|
    requires |pts| == EmittedCount(theta, theta1, maxAngleIncr)
    requires forall j :: 0 <= j < |pts| ==> pts[j] == PointAt(c, m, theta, theta1, p, p1, maxAngleIncr, j + 1)
    ensures pts == Span(c, m, theta, theta1, p, p1, maxAngleIncr)
  {
  }

  /** A coordinate sequence whose planar part lies at AngleAt(k) and whose auxiliary part is AuxValues(k) is PointAt(k). */
  lemma PointAtFromParts(
    c: Circle, m: MathFns, theta: real, theta1: real, p: Position, p1: Position,
    maxAngleIncr: real, k: nat, q: seq<real>)
    requires maxAngleIncr > 0.0 && theta != theta1 && |p1| >= |p| && |q| == |p|
    requires q[0] == c.x + c.radius * m.cos(AngleAt(theta, theta1, maxAngleIncr, k))
    requires q[1] == c.y + c.radius * m.sin(AngleAt(theta, theta1, maxAngleIncr, k))
    requires q[2..] == AuxValues(p, AuxIncrements(theta, theta1, p, p1, maxAngleIncr), k)
    ensures q == PointAt(c, m, theta, theta1, p, p1, maxAngleIncr, k)
  {
    var a := AngleAt(theta, theta1, maxAngleIncr, k);
    var r := PointAt(c, m, theta, theta1, p, p1, maxAngleIncr, k);
    var aux := AuxValues(p, AuxIncrements(theta, theta1, p, p1, maxAngleIncr), k);
    assert r == [c.x + c.radius * m.cos(a), c.y + c.radius * m.sin(a)] + aux by {
      assert r[0] == c.x + c.radius * m.cos(a) && r[1] == c.y + c.radius * m.sin(a);
      assert forall i :: 2 <= i < |r| ==> r[i] == aux[i - 2];
    }
    assert |r| == |q|;
    forall i | 0 <= i < |q|
      ensures q[i] == r[i]
    {
      if i >= 2 {
        assert q[i] == q[2..][i - 2] == aux[i - 2];
      }
    }
  }

  /**
   * One iteration's update of the buffer: the planar coordinates on the circle at angle a,
   * then one more increment of every auxiliary coordinate.
   */
  method StorePoint(
    buf: array<real>, incr: array<real>, c: Circle, m: MathFns, theta: real, theta1: real,
    p: Position, p1: Position, maxAngleIncr: real, ghost k: nat, a: real)
    requires maxAngleIncr > 0.0 && theta != theta1 && |p1| >= |p| && k > 0
    requires a == AngleAt(theta, theta1, maxAngleIncr, k)
    requires buf.Length == |p| && buf != incr
    requires incr[..] == AuxIncrements(theta, theta1, p, p1, maxAngleIncr)
    requires buf[2..] == AuxValues(p, incr[..], k - 1)
    modifies buf
    ensures buf[..] == PointAt(c, m, theta, theta1, p, p1, maxAngleIncr, k)
  {
    buf[0] := c.x + c.radius * m.cos(a);
    buf[1] := c.y + c.radius * m.sin(a);
    ghost var before := buf[2..];
    Interpolate(buf, incr);
    AuxValuesNext(p, incr[..], k - 1);
    assert buf[2..] == AuxValues(p, incr[..], k) by {
      forall i | 0 <= i < |p| - 2
        ensures buf[2..][i] == AuxValues(p, incr[..], k)[i]
      {
        assert buf[2..][i] == before[i] + incr[i];
      }
    }
    PointAtFromParts(c, m, theta, theta1, p, p1, maxAngleIncr, k, buf[..]);
  }

  /**
   * The points strictly between theta and theta1 that the Java method adds to the builder, in
   * the order it adds them: the walk starts one AngleStep past theta and goes on while the
   * angle has not reached theta1; the auxiliary coordinates are accumulated in `buf`.
   */
  method AddPointsBetweenPolarCoordinates(
    c: Circle, m: MathFns, theta: real, theta1: real, p: Position, p1: Position,
    maxAngleIncr: real)
    returns (pts: seq<Position>)
    requires maxAngleIncr > 0.0 && |p1| >= |p|
    ensures pts == Span(c, m, theta, theta1, p, p1, maxAngleIncr)
  {
    var dim := |p|;
    var steps := Ceil(Abs(theta1 - theta) / maxAngleIncr);
    assert steps == Steps(theta, theta1, maxAngleIncr);
    if steps == 0 {
      // an empty span: in Java the increment is infinite and its loop guard fails at once
      return [];
    }
    var angleIncr := maxAngleIncr / (steps as real);
    var incr := NewIncrements(p, p1, steps);
    ghost var incrs := AuxIncrements(theta, theta1, p, p1, maxAngleIncr);
    assert incr[..] == incrs;

    var sign := if theta < theta1 then 1.0 else -1.0;
    assert sign == Direction(theta, theta1) && angleIncr == AngleStep(theta, theta1, maxAngleIncr);

    var a := theta + sign * angleIncr;
    var buf := NewBuffer(p);
    assert buf[2..] == AuxValues(p, incrs, 0);

    pts := [];
    GuardHoldsExactly(theta, theta1, maxAngleIncr, 1);
    while sign * a < sign * theta1
      invariant |pts| <= EmittedCount(theta, theta1, maxAngleIncr)
      invariant a == AngleAt(theta, theta1, maxAngleIncr, |pts| + 1)
      invariant sign * a < sign * theta1 <==> |pts| + 1 <= EmittedCount(theta, theta1, maxAngleIncr)
      invariant forall j :: 0 <= j < |pts| ==> pts[j] == PointAt(c, m, theta, theta1, p, p1, maxAngleIncr, j + 1)
      invariant buf.Length == dim && buf[2..] == AuxValues(p, incrs, |pts|)
      invariant incr[..] == incrs
      modifies buf
      decreases EmittedCount(theta, theta1, maxAngleIncr) - |pts|
    {
      ghost var k := |pts| + 1;
      StorePoint(buf, incr, c, m, theta, theta1, p, p1, maxAngleIncr, k, a);
      a := a + sign * angleIncr;
      pts := pts + [buf[..]];
      assert a == AngleAt(theta, theta1, maxAngleIncr, k + 1) by {
        SpanAnglesUniform(theta, theta1, maxAngleIncr, k);
      }
      GuardHoldsExactly(theta, theta1, maxAngleIncr, k + 1);
    }
    SpanOfPoints(c, m, theta, theta1, p, p1, maxAngleIncr, pts);
  }

  // ---------------------------------------------------------------------------------
  // linearize and linearizeCircle
  // ---------------------------------------------------------------------------------

  /**
   * The polyline of the arc p0, p1, p2: p0, the interior points of the walk from p0's angle
   * to p1's, p1, those of the walk from p1's angle to p2's, and p2.
   */
  function LinearizedArc(lin: CircularArcLinearizer, m: MathFns): seq<Position>
    requires m.Valid() && lin.Valid()
  {
    var theta0 := AngleInDirection(lin, m, lin.p0);
    var theta1 := AngleInDirection(lin, m, lin.p1);
    var theta2 := AngleInDirection(lin, m, lin.p2);
    var angleIncr := MaxAngleIncrement(lin, m);
    [lin.p0] + Span(lin.c, m, theta0, theta1, lin.p0, lin.p1, angleIncr) +
    [lin.p1] + Span(lin.c, m, theta1, theta2, lin.p1, lin.p2, angleIncr) + [lin.p2]
  }

  /**
   * The polyline of the full circle through p0 and p1: p0, the walk from p0's angle to p1's,
   * p1, the walk from p1's angle to p0's angle plus a full turn, and p0 again.
   */
  function LinearizedCircle(lin: CircularArcLinearizer, m: MathFns): seq<Position>
    requires m.Valid() && lin.Valid()
  {
    var theta0 := AngleInDirection(lin, m, lin.p0);
    var theta1 := AngleInDirection(lin, m, lin.p1);
    var angleIncr := MaxAngleIncrement(lin, m);
    [lin.p0] + Span(lin.c, m, theta0, theta1, lin.p0, lin.p1, angleIncr) +
    [lin.p1] + Span(lin.c, m, theta1, theta0 + TWO_PI, lin.p1, lin.p0, angleIncr) + [lin.p0]
  }

  /** linearize: the positions are added to a builder in the order of LinearizedArc. */
  method Linearize(lin: CircularArcLinearizer, m: MathFns) returns (r: seq<Position>)
    requires m.Valid() && lin.Valid()
    ensures r == LinearizedArc(lin, m)
    ensures r[0] == lin.p0 && r[|r| - 1] == lin.p2 && lin.p1 in r
    ensures forall q :: q in r ==> |q| == |lin.p0|
  {
    var theta0 := AngleInDirection(lin, m, lin.p0);
    var theta1 := AngleInDirection(lin, m, lin.p1);
    var theta2 := AngleInDirection(lin, m, lin.p2);
    var angleIncr := MaxAngleIncrement(lin, m);
    var builder: seq<Position> := [];
    builder := builder + [lin.p0];
    assert builder == [lin.p0];
    var pts := AddPointsBetweenPolarCoordinates(lin.c, m, theta0, theta1, lin.p0, lin.p1, angleIncr);
    builder := builder + pts;
    builder := builder + [lin.p1];
    pts := AddPointsBetweenPolarCoordinates(lin.c, m, theta1, theta2, lin.p1, lin.p2, angleIncr);
    builder := builder + pts;
    builder := builder + [lin.p2];
    r := builder;
    ArcKeepsPositions(lin, m);
    ArcDimension(lin, m);
  }

  /** linearizeCircle: the positions are added to a builder in the order of LinearizedCircle. */
  method LinearizeCircle(lin: CircularArcLinearizer, m: MathFns) returns (r: seq<Position>)
    requires m.Valid() && lin.Valid()
    ensures r == LinearizedCircle(lin, m)
    ensures r[0] == lin.p0 && r[|r| - 1] == lin.p0 && lin.p1 in r
    ensures forall q :: q in r ==> |q| == |lin.p0|
  {
    var angleIncr := MaxAngleIncrement(lin, m);
    var builder: seq<Position> := [];
    var theta0 := AngleInDirection(lin, m, lin.p0);
    var theta1 := AngleInDirection(lin, m, lin.p1);
    builder := builder + [lin.p0];
    assert builder == [lin.p0];
    var pts := AddPointsBetweenPolarCoordinates(lin.c, m, theta0, theta1, lin.p0, lin.p1, angleIncr);
    builder := builder + pts;
    builder := builder + [lin.p1];
    pts := AddPointsBetweenPolarCoordinates(lin.c, m, theta1, theta0 + TWO_PI, lin.p1, lin.p0, angleIncr);
    builder := builder + pts;
    builder := builder + [lin.p0];
    r := builder;
    assert r == LinearizedCircle(lin, m);
    CircleKeepsPositions(lin, m);
    CircleDimension(lin, m);
  }

  /** Where the parts of a polyline joined from two spans and three positions end up. */
  lemma Joined(a: Position, s1: seq<Position>, b: Position, s2: seq<Position>, e: Position)
    ensures var r := [a] + s1 + [b] + s2 + [e];
      |r| == |s1| + |s2| + 3 && r[0] == a && r[|s1| + 1] == b && r[|r| - 1] == e &&
      forall q :: q in r ==> q == a || q in s1 || q == b || q in s2 || q == e
  {
    var r := [a] + s1 + [b] + s2 + [e];
    assert r == ([a] + s1 + [b]) + (s2 + [e]);
    assert r[|s1| + 1] == ([a] + s1 + [b])[|s1| + 1];
  }

  /**
   * The three given positions are among the output, unchanged: p0 first, p2 last, and p1
   * right after the interior points of the first span.
   */
  lemma ArcKeepsPositions(lin: CircularArcLinearizer, m: MathFns)
    requires m.Valid() && lin.Valid()
    ensures var r, theta0, theta1, theta2 := LinearizedArc(lin, m),
      AngleInDirection(lin, m, lin.p0), AngleInDirection(lin, m, lin.p1), AngleInDirection(lin, m, lin.p2);
      var n1, n2 := EmittedCount(theta0, theta1, MaxAngleIncrement(lin, m)), EmittedCount(theta1, theta2, MaxAngleIncrement(lin, m));
      |r| == n1 + n2 + 3 && r[0] == lin.p0 && r[n1 + 1] == lin.p1 && r[|r| - 1] == lin.p2
  {
    var theta0 := AngleInDirection(lin, m, lin.p0);
    var theta1 := AngleInDirection(lin, m, lin.p1);
    var theta2 := AngleInDirection(lin, m, lin.p2);
    var angleIncr := MaxAngleIncrement(lin, m);
    var s1 := Span(lin.c, m, theta0, theta1, lin.p0, lin.p1, angleIncr);
    var s2 := Span(lin.c, m, theta1, theta2, lin.p1, lin.p2, angleIncr);
    Joined(lin.p0, s1, lin.p1, s2, lin.p2);
  }

  /** The full circle starts and ends at p0 and passes p1 right after the first span. */
  lemma CircleKeepsPositions(lin: CircularArcLinearizer, m: MathFns)
    requires m.Valid() && lin.Valid()
    ensures var r, theta0, theta1 := LinearizedCircle(lin, m),
      AngleInDirection(lin, m, lin.p0), AngleInDirection(lin, m, lin.p1);
      var n1, n2 := EmittedCount(theta0, theta1, MaxAngleIncrement(lin, m)),
        EmittedCount(theta1, theta0 + TWO_PI, MaxAngleIncrement(lin, m));
      |r| == n1 + n2 + 3 && r[0] == lin.p0 && r[n1 + 1] == lin.p1 && r[|r| - 1] == lin.p0
  {
    var theta0 := AngleInDirection(lin, m, lin.p0);
    var theta1 := AngleInDirection(lin, m, lin.p1);
    var angleIncr := MaxAngleIncrement(lin, m);
    var s1 := Span(lin.c, m, theta0, theta1, lin.p0, lin.p1, angleIncr);
    var s2 := Span(lin.c, m, theta1, theta0 + TWO_PI, lin.p1, lin.p0, angleIncr);
    Joined(lin.p0, s1, lin.p1, s2, lin.p0);
  }

  /** Every output position of linearize has the coordinate dimension of the input positions. */
  lemma ArcDimension(lin: CircularArcLinearizer, m: MathFns)
    requires m.Valid() && lin.Valid()
    ensures forall q :: q in LinearizedArc(lin, m) ==> |q| == |lin.p0|
  {
    var theta0 := AngleInDirection(lin, m, lin.p0);
    var theta1 := AngleInDirection(lin, m, lin.p1);
    var theta2 := AngleInDirection(lin, m, lin.p2);
    var angleIncr := MaxAngleIncrement(lin, m);
    SpanDimension(lin.c, m, theta0, theta1, lin.p0, lin.p1, angleIncr);
    SpanDimension(lin.c, m, theta1, theta2, lin.p1, lin.p2, angleIncr);
  }

  /** Every output position of linearizeCircle has the coordinate dimension of the input positions. */
  lemma CircleDimension(lin: CircularArcLinearizer, m: MathFns)
    requires m.Valid() && lin.Valid()
    ensures forall q :: q in LinearizedCircle(lin, m) ==> |q| == |lin.p0|
  {
    var theta0 := AngleInDirection(lin, m, lin.p0);
    var theta1 := AngleInDirection(lin, m, lin.p1);
    var angleIncr := MaxAngleIncrement(lin, m);
    SpanDimension(lin.c, m, theta0, theta1, lin.p0, lin.p1, angleIncr);
    SpanDimension(lin.c, m, theta1, theta0 + TWO_PI, lin.p1, lin.p0, angleIncr);
  }

  /**
   * The tolerance is met: the angle between consecutive points of any span is at most
   * acos((r - t) / r), so the error r - r * cos(step) that the Java comment accounts for stays
   * within the threshold t.
   */
  lemma StepErrorWithinThreshold(lin: CircularArcLinearizer, m: MathFns, theta: real, theta1: real)
    requires m.Valid() && lin.Valid() && theta != theta1
    ensures var step := AngleStep(theta, theta1, MaxAngleIncrement(lin, m));
      lin.c.radius - lin.c.radius * m.cos(step) <= lin.threshold
  {
    var r, t := lin.c.radius, lin.threshold;
    var v := (r - t) / r;
    assert v * r == r - t;
    MulStrictMono(v, 1.0, r);
    MulStrictMono(v, -1.0, r);
    var incr := MaxAngleIncrement(lin, m);
    assert incr == m.acos(v);
    var step := AngleStep(theta, theta1, incr);
    assert m.cos(incr) <= m.cos(step);
    MulStrictMono(m.cos(step), v, r);
  }

  // ---------------------------------------------------------------------------------
  // Where the code as written departs from its intent
  // ---------------------------------------------------------------------------------

  /**
   * On a span wider than maxAngleIncr the walk has at least steps points, and point number
   * steps already carries the auxiliary coordinates of the end position p1 although its
   * angle is still strictly inside the span.
   */
  lemma AuxReachesEndBeforeSpanEnds(
    c: Circle, m: MathFns, theta: real, theta1: real, p: Position, p1: Position, maxAngleIncr: real)
    requires maxAngleIncr > 0.0 && |p1| >= |p| && Abs(theta1 - theta) > maxAngleIncr
    ensures var s, steps := Span(c, m, theta, theta1, p, p1, maxAngleIncr), Steps(theta, theta1, maxAngleIncr);
      var a := AngleAt(theta, theta1, maxAngleIncr, steps);
      1 <= steps <= |s| &&
      (forall j :: 2 <= j < |p| ==> s[steps - 1][j] == p1[j]) &&
      ((theta < a < theta1) || (theta1 < a < theta))
  {
    var steps := Steps(theta, theta1, maxAngleIncr);
    var n := steps as real;
    EmittedCountAtLeastSteps(theta, theta1, maxAngleIncr);
    SpanPointCoordinates(c, m, theta, theta1, p, p1, maxAngleIncr, steps);
    SpanAnglesStrictlyBetween(theta, theta1, maxAngleIncr, steps);
    forall j | 2 <= j < |p|
      ensures n * ((p1[j] - p[j]) / n) == p1[j] - p[j]
    {
    }
  }

  /**
   * A concrete span: from angle 0 to angle 3 with maxAngleIncr 1 the loop takes steps = 3,
   * an angle step of 1/3 and emits 8 points; interpolating the third coordinate from 0 to 3,
   * the last point carries 8, beyond the end value 3.
   */
  lemma AuxOvershootExample(c: Circle, m: MathFns)
    ensures var s := Span(c, m, 0.0, 3.0, [0.0, 0.0, 0.0], [0.0, 0.0, 3.0], 1.0);
      Steps(0.0, 3.0, 1.0) == 3 && AngleStep(0.0, 3.0, 1.0) == 1.0 / 3.0 &&
      |s| == 8 && s[7][2] == 8.0
  {
    var p: Position, p1: Position := [0.0, 0.0, 0.0], [0.0, 0.0, 3.0];
    assert Steps(0.0, 3.0, 1.0) == 3;
    var step := AngleStep(0.0, 3.0, 1.0);
    assert step == 1.0 / 3.0;
    var n := EmittedCount(0.0, 3.0, 1.0);
    assert (n as real) / 3.0 < 3.0 <= ((n + 1) as real) / 3.0;
    assert n == 8;
    SpanPointCoordinates(c, m, 0.0, 3.0, p, p1, 1.0, 8);
  }

  /**
   * A counter-clockwise arc whose start p0 lies below the x-axis of the center and whose
   * middle p1 lies on or above it is walked clockwise in its first span: p0's angle is
   * moved above PI while p1's stays in [0, PI].
   */
  lemma CounterClockwiseArcAcrossZeroWalksClockwise(lin: CircularArcLinearizer, m: MathFns)
    requires m.Valid() && lin.isCounterClockwise
    requires RawAngle(lin, m, lin.p0) < 0.0 <= RawAngle(lin, m, lin.p1)
    ensures Direction(AngleInDirection(lin, m, lin.p0), AngleInDirection(lin, m, lin.p1)) == -1.0
  {
  }

  /**
   * On a clockwise circle the closing span, from p1's angle to p0's angle plus 2PI, always
   * walks counter-clockwise: p1's angle is at most 0 and p0's plus 2PI is above 0.
   */
  lemma ClockwiseCircleClosesCounterClockwise(lin: CircularArcLinearizer, m: MathFns)
    requires m.Valid() && !lin.isCounterClockwise
    ensures Direction(AngleInDirection(lin, m, lin.p1), AngleInDirection(lin, m, lin.p0) + TWO_PI) == 1.0
  {
  }

  /** Integer.MAX_VALUE: what Java's `(int)` cast makes of +Infinity. */
  const INT_MAX: int := 0x7fff_ffff

  /**
   * With tolerance 0 the walk never moves. acos((r - 0) / r) is acos(1) = 0; the step count
   * ceil(|theta1 - theta| / 0) is +Infinity, which the `(int)` cast saturates to INT_MAX; so
   * the angle step is 0 / INT_MAX = 0. After any number k of iterations the angle is still
   * theta + sign * 0, and the loop guard still holds on a non-empty span.
   */
  lemma ZeroToleranceLoopNeverEnds(
    lin: CircularArcLinearizer, m: MathFns, theta: real, theta1: real, k: nat)
    requires m.Valid() && lin.c.radius > 0.0 && lin.threshold == 0.0 && theta != theta1
    ensures var angleIncr := m.acos((lin.c.radius - lin.threshold) / lin.c.radius) / (INT_MAX as real);
      var sign := Direction(theta, theta1);
      var a := theta + sign * angleIncr + (k as real) * (sign * angleIncr);
      angleIncr == 0.0 && a == theta && sign * a < sign * theta1
  {
    assert (lin.c.radius - lin.threshold) / lin.c.radius == 1.0;
  }
}

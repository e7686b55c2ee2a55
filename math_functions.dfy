/**
 * The parts of java.lang.Math the linearizer relies on, over unbounded reals.
 *
 * The transcendental functions are not defined here: they are carried as a record of
 * arbitrary total functions, and `Valid` states the only facts the model uses about them,
 * namely the ranges that java.lang.Math documents for atan2 and acos, that acos inverts
 * cos, and that cos decreases on [0, PI].
 */
module MathFunctions {

  /** The value of Math.PI, read as an exact decimal. */
  const PI: real := 3.141592653589793

  /** A full turn, written `2 * Math.PI` in CircularArcLinearizer.java. */
  const TWO_PI: real := 2.0 * PI

  datatype MathFns = MathFns(
    acos: real -> real,
    atan2: (real, real) -> real,
    cos: real -> real,
    sin: real -> real)
  {
    /**
     * atan2 yields an angle in (-PI, PI]; acos of a value in [-1, 1) is an angle in (0, PI]
     * whose cosine is that value; acos(1) is 0; cos does not increase on [0, PI].
     */
    ghost predicate Valid() {
      (forall y: real, x: real :: -PI < atan2(y, x) <= PI) &&
      (forall v: real :: -1.0 <= v < 1.0 ==> 0.0 < acos(v) <= PI && cos(acos(v)) == v) &&
      acos(1.0) == 0.0 &&
      (forall x: real, y: real :: 0.0 <= x <= y <= PI ==> cos(y) <= cos(x))
    }
  }

  /** Math.abs on doubles. */
  function Abs(x: real): (r: real)
    ensures r >= 0.0
    ensures r == x || r == -x
  {
    if x < 0.0 then -x else x
  }

  /** Math.ceil: the least integer not below x. */
  function Ceil(x: real): (r: int)
    ensures x <= r as real < x + 1.0
  {
    -((-x).Floor)
  }

  /** An integer lies strictly below x exactly when it lies strictly below the ceiling of x. */
  /** ceil(d / m) steps of size m cover d, and one step fewer would not. */
  lemma CeilOfQuotient(d: real, m: real)
    requires m > 0.0
    ensures d <= (Ceil(d / m) as real) * m < d + m
  {
    var q := d / m;
    var n := Ceil(q) as real;
    assert Ceil(d / m) as real == n;
    assert q <= n < q + 1.0;
    MulStrictMono(n, q, m);
    MulStrictMono(n, q + 1.0, m);
    calc {
      n * m;
    <  (q + 1.0) * m;
    == q * m + m;
    == d + m;
    }
    calc {
      d;
    == q * m;
    <= n * m;
    }
  }

  /** Multiplying by a positive factor keeps a strict order between reals. */
  lemma MulStrictMono(a: real, b: real, f: real)
    requires f > 0.0
    ensures a < b <==> a * f < b * f
  {
    if a < b {
      assert (b - a) * f > 0.0;
    } else {
      assert (a - b) * f >= 0.0;
    }
  }

  /** When d lies in (n * step, (n + 1) * step], the multiples of step below d are those up to n. */
  lemma MultiplesBelow(k: nat, n: nat, step: real, d: real)
    requires step > 0.0 && (n as real) * step < d <= ((n + 1) as real) * step
    ensures (k as real) * step < d <==> k <= n
  {
    if k <= n {
      MulStrictMono(n as real, k as real, step);
    } else {
      MulStrictMono(k as real, (n + 1) as real, step);
    }
  }
}

# Circular arc linearization (geolatte-geom `CircularArcLinearizer`)

A model of the class `org.geolatte.geom.cga.CircularArcLinearizer`. The class approximates
a circular arc by a polyline. The arc is given by three positions p0, p1 and p2. `linearize`
walks from p0 through p1 to p2. `linearizeCircle` walks the full circle from p0 through p1
and back to p0.

- **Angles.** Each position's polar angle about the fitted circle's center comes from atan2.
  It is moved into [0, 2π) for a counter-clockwise winding and into (−2π, 0] for a
  clockwise one.
- **Step bound.** The tolerance t fixes the largest angle step, acos((r − t)/r).
- **Spans.** Each of the two spans is walked by `AddPointsBetweenPolarCoordinates`:
  - it takes steps = ⌈|θ1 − θ| / maxAngleIncr⌉ and an angle step of maxAngleIncr / steps;
  - it emits points on the circle while the angle is strictly before θ1;
  - it interpolates the auxiliary coordinates (z, m) by (end − start) / steps per point.
- **Endpoints.** The given positions are appended verbatim between and around the spans.

Modules:

- `Wrappers`: Option and Result (`wrappers.dfy`).
- `MathFunctions`: Math.PI, abs and ceil, and the trigonometric functions as parameters
  (`math_functions.dfy`).
- `Geometry`: positions and circles (`geometry.dfy`).
- `ArcLinearization`: the class as written (`circular_arc_linearizer.dfy`). It has:
  - the constructor and the angle mapping;
  - the stepping rule in closed form (`Span`) with its properties;
  - the stepping loop itself as a method over `incr` and `buf` arrays, proved to emit `Span`;
  - the two linearize operations as methods that append to a local builder sequence.
- `Corrections`: corrected definitions for the findings below (`corrections.dfy`).

The trigonometric functions are fields of a `MathFns` value. The facts the model uses about
them are stated in `MathFns.Valid`:

- the ranges of atan2 and acos;
- acos inverts cos, and acos(1) is 0;
- cos decreases on [0, π].

Where the descriptive documentation and the code disagree, the model follows the code.

- The angle step is maxAngleIncr / steps, not an even subdivision of the span.
- So a span emits ⌈|θ1 − θ| · steps / maxAngleIncr⌉ − 1 points (`EmittedCount`), not steps − 1.

## Model

All source cells refer to `src/main/java/org/geolatte/geom/cga/CircularArcLinearizer.java`.

| member | source | states |
|---|---|---|
| ArcLinearization.New | src/main/java/org/geolatte/geom/cga/CircularArcLinearizer.java:31-42 | fails with IllegalArgument exactly when a position is missing; otherwise stores the absolute tolerance (non-negative, ± the argument), the three positions, and the circle fit and winding applied to them |
| ArcLinearization.AngleInDirection | src/main/java/org/geolatte/geom/cga/CircularArcLinearizer.java:142-151 | counter-clockwise angles lie in [0, 2π), clockwise ones in (−2π, 0]; an atan2 angle of the right sign is kept, any other is moved by one full turn |
| ArcLinearization.MaxAngleIncrement | src/main/java/org/geolatte/geom/cga/CircularArcLinearizer.java:74-80 | acos((r − t)/r) is positive and at most π for a tolerance 0 < t ≤ 2r |
| ArcLinearization.StepErrorWithinThreshold | src/main/java/org/geolatte/geom/cga/CircularArcLinearizer.java:74-80 | for every span, r − r·cos(angle step) is at most the tolerance |
| ArcLinearization.Steps | src/main/java/org/geolatte/geom/cga/CircularArcLinearizer.java:102-103 | steps is the least count of maxAngleIncr-sized steps covering the span; it is zero exactly for an empty span |
| ArcLinearization.AngleStep | src/main/java/org/geolatte/geom/cga/CircularArcLinearizer.java:104 | the angle step is positive, at most maxAngleIncr, and steps of it add up to maxAngleIncr |
| ArcLinearization.Direction | src/main/java/org/geolatte/geom/cga/CircularArcLinearizer.java:112-113 | sign is ±1 and points from θ towards θ1 |
| ArcLinearization.EmittedCount | src/main/java/org/geolatte/geom/cga/CircularArcLinearizer.java:115-136 | the loop emits the n with n steps strictly inside the span and n + 1 steps reaching or passing θ1; none for an empty span |
| ArcLinearization.StepsInsideSpan | src/main/java/org/geolatte/geom/cga/CircularArcLinearizer.java:123 | k steps stay strictly inside the span exactly when k ≤ EmittedCount |
| ArcLinearization.GuardHoldsExactly | src/main/java/org/geolatte/geom/cga/CircularArcLinearizer.java:115-127 | the loop guard holds at the k-th angle of the walk exactly when k ≤ EmittedCount |
| ArcLinearization.SpanAnglesStrictlyBetween | src/main/java/org/geolatte/geom/cga/CircularArcLinearizer.java:96-97 | every emitted angle lies strictly between the span's two angles |
| ArcLinearization.SpanAnglesUniform | src/main/java/org/geolatte/geom/cga/CircularArcLinearizer.java:102-104 | consecutive angles differ by sign times the same step; the walk moves strictly in direction sign; the step is at most maxAngleIncr |
| ArcLinearization.SpanPointCoordinates | src/main/java/org/geolatte/geom/cga/CircularArcLinearizer.java:106-133 | the k-th emitted point lies on the circle at the k-th angle, has the start position's dimension, and has auxiliary coordinate j equal to p[j] + k·(p1[j] − p[j])/steps |
| ArcLinearization.EmittedCountBelowQuotient | src/main/java/org/geolatte/geom/cga/CircularArcLinearizer.java:103-104 | the number of emitted points is below \|θ1 − θ\| / step |
| ArcLinearization.EmittedCountAtLeastSteps | src/main/java/org/geolatte/geom/cga/CircularArcLinearizer.java:102-104 | the loop emits at least steps − 1 points, and at least steps when the span is wider than maxAngleIncr |
| ArcLinearization.NewIncrements | src/main/java/org/geolatte/geom/cga/CircularArcLinearizer.java:107-110 | the fresh `incr` array holds, at i, (p1[2 + i] − p[2 + i]) / steps |
| ArcLinearization.NewBuffer | src/main/java/org/geolatte/geom/cga/CircularArcLinearizer.java:116-121 | the fresh `buf` array has the dimension of p and holds p's auxiliary coordinates from index 2 on |
| ArcLinearization.Interpolate | src/main/java/org/geolatte/geom/cga/CircularArcLinearizer.java:130-132 | `buf[0..2]` is unchanged and every auxiliary coordinate `buf[2 + i]` grows by `incr[i]` |
| ArcLinearization.StorePoint | src/main/java/org/geolatte/geom/cga/CircularArcLinearizer.java:125-133 | after one iteration's writes, `buf` holds exactly the k-th point of the walk |
| ArcLinearization.AddPointsBetweenPolarCoordinates | src/main/java/org/geolatte/geom/cga/CircularArcLinearizer.java:98-137 | the stepping loop over the `incr` and `buf` arrays emits exactly the points of `Span`, in order; an empty span emits none |
| ArcLinearization.Linearize | src/main/java/org/geolatte/geom/cga/CircularArcLinearizer.java:69-94 | the output is p0, the first span, p1, the second span and p2; it starts with p0, ends with p2, contains p1, and every point has the input dimension |
| ArcLinearization.LinearizeCircle | src/main/java/org/geolatte/geom/cga/CircularArcLinearizer.java:52-63 | the output is p0, the span to p1, p1, the span to θ0 + 2π and p0; it starts and ends with p0, contains p1, and every point has the input dimension |
| ArcLinearization.ArcKeepsPositions | src/main/java/org/geolatte/geom/cga/CircularArcLinearizer.java:15 | linearize's output has n1 + n2 + 3 points, with p0 first, p1 at index n1 + 1 and p2 last |
| ArcLinearization.CircleKeepsPositions | src/main/java/org/geolatte/geom/cga/CircularArcLinearizer.java:57-61 | linearizeCircle's output has n1 + n2 + 3 points, with p0 first and last and p1 at index n1 + 1 |
| ArcLinearization.ArcDimension | src/main/java/org/geolatte/geom/cga/CircularArcLinearizer.java:86-91 | every position linearize returns has the coordinate dimension of p0 |
| ArcLinearization.CircleDimension | src/main/java/org/geolatte/geom/cga/CircularArcLinearizer.java:54-61 | every position linearizeCircle returns has the coordinate dimension of p0 |
| ArcLinearization.AuxReachesEndBeforeSpanEnds | src/main/java/org/geolatte/geom/cga/CircularArcLinearizer.java:102-109 | on a span wider than maxAngleIncr, point number steps already has p1's auxiliary coordinates while its angle is still strictly inside the span |
| ArcLinearization.AuxOvershootExample | src/main/java/org/geolatte/geom/cga/CircularArcLinearizer.java:103-133 | span 0 → 3 with maxAngleIncr 1 has steps 3, step 1/3 and 8 points; interpolating z from 0 to 3, the last point has z = 8 |
| ArcLinearization.CounterClockwiseArcAcrossZeroWalksClockwise | src/main/java/org/geolatte/geom/cga/CircularArcLinearizer.java:146-147 | a counter-clockwise arc whose p0 has a negative atan2 angle and whose p1 has a non-negative one gets sign −1 in its first span |
| ArcLinearization.ClockwiseCircleClosesCounterClockwise | src/main/java/org/geolatte/geom/cga/CircularArcLinearizer.java:60 | on a clockwise circle, the closing span from θ1 to θ0 + 2π always gets sign +1 |
| ArcLinearization.ZeroToleranceLoopNeverEnds | src/main/java/org/geolatte/geom/cga/CircularArcLinearizer.java:35 | with tolerance 0, the angle step is acos(1) / INT_MAX = 0; after any number of iterations the angle is still θ, and the loop guard still holds on a non-empty span |
| Corrections.NewChecked | src/main/java/org/geolatte/geom/cga/CircularArcLinearizer.java:31-42 | refuses a missing position or a zero tolerance, so an accepted tolerance is positive; otherwise it builds exactly what `New` builds |
| Corrections.CheckedToleranceAdvances | src/main/java/org/geolatte/geom/cga/CircularArcLinearizer.java:31-42 | a linearizer NewChecked accepts, on a proper circle with tolerance at most 2r, satisfies `Valid` and walks with a positive angle step |
| Corrections.AngleAhead | src/main/java/org/geolatte/geom/cga/CircularArcLinearizer.java:139-151 | the corrected angle is a whole number of turns from the given one, and lies within one turn ahead of the previous angle in the winding direction |
| Corrections.EvenSpan | src/main/java/org/geolatte/geom/cga/CircularArcLinearizer.java:102-104 | the even subdivision has steps − 1 interior points, none for an empty span, all of the start position's dimension |
| Corrections.EvenSpanEndsAtTarget | src/main/java/org/geolatte/geom/cga/CircularArcLinearizer.java:102-109 | after steps even steps the walk is exactly at θ1 with exactly p1's auxiliary coordinates |
| Corrections.EvenSpanSpacing | src/main/java/org/geolatte/geom/cga/CircularArcLinearizer.java:102-104 | the even walk advances by (θ1 − θ)/steps, whose size is at most maxAngleIncr |
| Corrections.EvenSpanAnglesStrictlyBetween | src/main/java/org/geolatte/geom/cga/CircularArcLinearizer.java:96-97 | every interior angle of the even walk lies strictly between θ and θ1 |
| Corrections.EvenSpanAuxBetween | src/main/java/org/geolatte/geom/cga/CircularArcLinearizer.java:106-110 | every interpolated auxiliary value, up to steps increments, lies between its values at the two ends |
| Corrections.EvenStepErrorWithinThreshold | src/main/java/org/geolatte/geom/cga/CircularArcLinearizer.java:74-80 | the even step keeps r − r·cos(step) within the tolerance |
| Corrections.ArcAngles | src/main/java/org/geolatte/geom/cga/CircularArcLinearizer.java:70-72 | both corrected spans walk in the winding direction, are non-empty, and are at most one turn wide |
| Corrections.CorrectedArc | src/main/java/org/geolatte/geom/cga/CircularArcLinearizer.java:69-94 | the corrected arc has p0 first, p1 right after the first span's steps − 1 points, p2 last, and every point of the input dimension |
| Corrections.CircleAngles | src/main/java/org/geolatte/geom/cga/CircularArcLinearizer.java:55-60 | the corrected circle's first span follows the winding and is non-empty; it closes one full turn in the winding direction from θ0 |
| Corrections.CorrectedCircle | src/main/java/org/geolatte/geom/cga/CircularArcLinearizer.java:52-63 | the corrected circle has n1 + n2 + 3 points (n2 = 0 when the closing span is empty), starts and ends with p0, has p1 right after the first span, and every point has the input dimension |
| Corrections.CorrectedCircleSweepsOneTurn | src/main/java/org/geolatte/geom/cga/CircularArcLinearizer.java:52-63 | when p1's direction differs from p0's, both corrected spans follow the winding and together sweep exactly 2π |

## Left out

- Floating point is not modelled. Angles and coordinates are exact reals, so rounding, NaN and Infinity are not captured.
- The empty span (θ == θ1) is modelled by its outcome. The Java code divides by zero steps, gets an infinite step, and its loop guard fails at once; the model returns no points directly.
- `CircularArcLinearizer.Valid` asks for a tolerance above zero. With tolerance 0 the Java loop never ends (see Findings); the model's linearize operations do not cover that case.
- `CircularArcLinearizer.Valid` asks for a tolerance of at most twice the radius. Above that, acos's argument is below −1 and acos returns NaN. Then `(int)Math.ceil(NaN)` is 0 steps, the angle step and the first angle are NaN, and the loop guard fails at once, so no exception is thrown: `linearize` returns exactly p0, p1, p2 and `linearizeCircle` exactly p0, p1, p0. The model does not cover this case.
- `CircularArcLinearizer.Valid` asks for a positive radius. The fit of collinear positions is not part of this model.
- Steps: the `(int)` cast of line 103 saturates at 2^31 − 1 in Java. The model's count is unbounded.
- Circle fitting (`Circle`) and the winding test (`NumericalMethods.isCounterClockwise`) are parameters of `New`. They are not part of this model.
- atan2, acos, cos and sin are parameters. Only the facts in `MathFns.Valid` are assumed of them.
- The builder is modelled as a sequence that each operation appends to and returns. `PositionSequenceBuilders` and the reflective creation from `p0.getClass()` are not part of this model. The model assumes `builder.add(buf)` copies the buffer.
- The `builder` field created by the constructor is never used by the Java class, so it is left out.
- The getters `getCircle` and `getRadius` just return stored fields, so they are left out.
- The model does not require p1 and p2 to have the dimension of p0 at construction. It asks for it in `Valid`, as the shared position type P does in Java.

## Findings

| source | as written | input that shows it | evidently intended | confidence | as-written member | corrected member |
|---|---|---|---|---|---|---|
| src/main/java/org/geolatte/geom/cga/CircularArcLinearizer.java:104 | the angle step is maxAngleIncr / steps, while the auxiliary increments divide the span's change by steps (line 109) | θ = 0, θ1 = 3, maxAngleIncr = 1, z going from 0 to 3: steps = 3, step = 1/3, 8 points; the last has z = 8 | step \|θ1 − θ\| / steps: steps − 1 evenly spaced points whose z stays between 0 and 3 and would reach 3 exactly at θ1 | high, not executed | ArcLinearization.AuxOvershootExample | Corrections.EvenSpan |
| src/main/java/org/geolatte/geom/cga/CircularArcLinearizer.java:146-147 | each angle is moved into [0, 2π) on its own, and the walking direction comes from comparing them (line 113) | unit circle at the origin, counter-clockwise arc p0 = (0, −1), p1 = (1, 0), p2 = (0, 1): θ0 = 3π/2, θ1 = 0, so the first span walks clockwise through π | every angle taken within one turn ahead of the previous one in the winding direction | high, not executed | ArcLinearization.CounterClockwiseArcAcrossZeroWalksClockwise | Corrections.ArcAngles |
| src/main/java/org/geolatte/geom/cga/CircularArcLinearizer.java:60 | the closing span of the full circle always targets θ0 + 2π, whatever the winding | clockwise circle at the origin, p0 = (0, −1), p1 = (−1, 0): θ0 = −π/2, θ1 = −π; the closing span walks counter-clockwise from −π to 3π/2, i.e. 5π/2 | close one turn in the winding direction: θ0 − 2π when clockwise | high, not executed | ArcLinearization.ClockwiseCircleClosesCounterClockwise | Corrections.CircleAngles |
| src/main/java/org/geolatte/geom/cga/CircularArcLinearizer.java:35 | the tolerance is stored as abs(threshold) with no check for zero | tolerance 0 on any circle with a non-empty span: acos(1) = 0, `(int)Math.ceil(+Infinity)` is Integer.MAX_VALUE, the angle step is 0, and the loop at line 123 never ends | refuse a zero tolerance, as the missing positions are refused | medium, not executed | ArcLinearization.ZeroToleranceLoopNeverEnds | Corrections.NewChecked |

`ArcLinearization` keeps the behaviour as written, so that it models the code. `Corrections.CorrectedArc` and `Corrections.CorrectedCircle` put the corrected definitions together into linearizations that follow the winding and divide each span evenly; `Corrections.NewChecked` is the constructor that refuses a zero tolerance.

/**
 * The guidance of the self-aiming missiles: the `compute_bearing` methods of
 * sim/entities/missile/models/simpleballistic.py and
 * sim/entities/missile/models/ballistic_interceptor.py.
 *
 * Each method builds a residual ("cost") from the closed-form predictor, hands
 * it to SciPy's `fsolve` starting from (0, 0, 0), and normalises the root it
 * gets back. The root finder and the trigonometric functions are not modelled:
 * they are oracles carried by a `Numerics` value, and what is proved holds for
 * every oracle.
 */
module Guidance {
  import opened Vectors
  import opened Prediction

  /** The solver's unknowns `(theta, phi, midcourse_time)`. */
  datatype Params = Params(theta: real, phi: real, midcourse: real)

  /**
   * `np.sin`, `np.cos` and `fsolve(cost, np.zeros((3,)))`: the starting point
   * is always zero, so the root finder is a function of the residual alone.
   */
  datatype Numerics = Numerics(sin: real -> real, cos: real -> real, fsolve: (Params -> Vec3) -> Params)

  /** What `predict_pos_vel` reads from a missile: where it is, how fast it goes, how it burns. */
  datatype Launcher = Launcher(pos: Vec3, vel: Vec3, burnAcc: real, burnTime: real)

  /** The result of `compute_bearing`: a thrust bearing and a midcourse time. */
  datatype Solution = Solution(bearing: Vec3, midcourseTime: real)

  function Abs(x: real): (r: real)
    ensures r >= 0.0 && (r == x || r == -x)
  {
    if x < 0.0 then -x else x
  }

  /** `self.predict_pos_vel(bearing, t)` for the launcher `l`. */
  function PredictFrom(l: Launcher, bearing: Vec3, t: real): PosVel {
    Predict(l.pos, l.vel, bearing, l.burnAcc, l.burnTime, t)
  }

  /** `to_bearing(theta, phi)` = (sin phi cos 2 theta, sin phi sin 2 theta, cos phi). */
  function ToBearing(n: Numerics, theta: real, phi: real): Vec3 {
    Vec3(n.sin(phi) * n.cos(theta * 2.0), n.sin(phi) * n.sin(theta * 2.0), n.cos(phi))
  }

  /** The identity sin^2 x + cos^2 x = 1 at the point x, the one fact assumed about the oracles. */
  predicate Pythagorean(n: Numerics, x: real) {
    n.sin(x) * n.sin(x) + n.cos(x) * n.cos(x) == 1.0
  }

  lemma SquareOfProduct(a: real, b: real)
    ensures (a * b) * (a * b) == (a * a) * (b * b)
  {
  }

  lemma UnitScalar(s: real, c: real, sa: real, ca: real)
    requires s * s + c * c == 1.0
    requires sa * sa + ca * ca == 1.0
    ensures (s * ca) * (s * ca) + (s * sa) * (s * sa) + c * c == 1.0
  {
    SquareOfProduct(s, ca);
    SquareOfProduct(s, sa);
    assert (s * s) * (ca * ca) + (s * s) * (sa * sa) == (s * s) * (sa * sa + ca * ca);
  }

  /** `to_bearing` yields a unit vector wherever the oracles satisfy sin^2 + cos^2 = 1. */
  lemma UnitBearing(n: Numerics, theta: real, phi: real)
    requires Pythagorean(n, phi) && Pythagorean(n, theta * 2.0)
    ensures NormSq(ToBearing(n, theta, phi)) == 1.0
  {
    UnitScalar(n.sin(phi), n.cos(phi), n.sin(theta * 2.0), n.cos(theta * 2.0));
  }

  /**
   * `SimpleBallistic.compute_bearing`'s `cost`: the position predicted at
   * `burn_time + |m|` with the bearing `to_bearing(theta, phi)`, minus the target.
   */
  function SimpleBallisticCost(n: Numerics, l: Launcher, target: Vec3, x: Params): Vec3 {
    var m := Abs(x.midcourse);
    var bearing := ToBearing(n, x.theta, x.phi);
    Sub(PredictFrom(l, bearing, l.burnTime + m).pos, target)
  }

  /** The residual handed to `fsolve`. */
  function SimpleBallisticResidual(n: Numerics, l: Launcher, target: Vec3): Params -> Vec3 {
    x => SimpleBallisticCost(n, l, target, x)
  }

  /** The post-solve step: `midcourse_time = abs(m)` and the bearing of the root's angles. */
  function Normalise(n: Numerics, x: Params): (s: Solution)
    ensures s.midcourseTime >= 0.0
    ensures s.midcourseTime == x.midcourse || s.midcourseTime == -x.midcourse
  {
    Solution(ToBearing(n, x.theta, x.phi), Abs(x.midcourse))
  }

  /** `SimpleBallistic.compute_bearing()`. */
  function SolveSimpleBallistic(n: Numerics, l: Launcher, target: Vec3): (s: Solution)
    ensures s.midcourseTime >= 0.0
  {
    Normalise(n, n.fsolve(SimpleBallisticResidual(n, l, target)))
  }

  /** The cost sees the midcourse unknown only through its absolute value. */
  lemma SimpleBallisticCostEven(n: Numerics, l: Launcher, target: Vec3, theta: real, phi: real, m: real)
    ensures SimpleBallisticCost(n, l, target, Params(theta, phi, m))
         == SimpleBallisticCost(n, l, target, Params(theta, phi, -m))
  {
    assert Abs(m) == Abs(-m);
  }

  lemma SubZero(a: Vec3, b: Vec3)
    requires Sub(a, b) == Vec3(0.0, 0.0, 0.0)
    ensures a == b
  {
    assert a.x - b.x == 0.0 && a.y - b.y == 0.0 && a.z - b.z == 0.0;
  }

  /**
   * When the solver returns a root of the cost, the normalised solution hits
   * the target: flying the returned bearing for `burn_time + midcourse_time`
   * ends exactly at the target.
   */
  lemma SimpleBallisticRootHits(n: Numerics, l: Launcher, target: Vec3)
    requires SimpleBallisticCost(n, l, target, n.fsolve(SimpleBallisticResidual(n, l, target))) == Vec3(0.0, 0.0, 0.0)
    ensures var s := SolveSimpleBallistic(n, l, target);
            PredictFrom(l, s.bearing, l.burnTime + s.midcourseTime).pos == target
  {
    var x := n.fsolve(SimpleBallisticResidual(n, l, target));
    var s := Normalise(n, x);
    assert SolveSimpleBallistic(n, l, target) == s;
    SubZero(PredictFrom(l, s.bearing, l.burnTime + s.midcourseTime).pos, target);
  }

  /**
   * `BallisticInterceptor.compute_bearing`'s `cost`: the interceptor's own
   * prediction minus the target's prediction along the target's bearing, both
   * at the interceptor's `burn_time + |m|`.
   */
  function InterceptorCost(n: Numerics, own: Launcher, target: Launcher, targetBearing: Vec3, x: Params): Vec3 {
    var m := Abs(x.midcourse);
    var bearing := ToBearing(n, x.theta, x.phi);
    var t := own.burnTime + m;
    Sub(PredictFrom(own, bearing, t).pos, PredictFrom(target, targetBearing, t).pos)
  }

  function InterceptorResidual(n: Numerics, own: Launcher, target: Launcher, targetBearing: Vec3): Params -> Vec3 {
    x => InterceptorCost(n, own, target, targetBearing, x)
  }

  /** `BallisticInterceptor.compute_bearing()`. */
  function SolveInterceptor(n: Numerics, own: Launcher, target: Launcher, targetBearing: Vec3): (s: Solution)
    ensures s.midcourseTime >= 0.0
  {
    Normalise(n, n.fsolve(InterceptorResidual(n, own, target, targetBearing)))
  }

  lemma InterceptorCostEven(n: Numerics, own: Launcher, target: Launcher, targetBearing: Vec3, theta: real, phi: real, m: real)
    ensures InterceptorCost(n, own, target, targetBearing, Params(theta, phi, m))
         == InterceptorCost(n, own, target, targetBearing, Params(theta, phi, -m))
  {
    assert Abs(m) == Abs(-m);
  }

  /**
   * When the solver returns a root, interceptor and target are predicted to be
   * at the same place at the same moment, `burn_time + midcourse_time`.
   */
  lemma InterceptorRootMeets(n: Numerics, own: Launcher, target: Launcher, targetBearing: Vec3)
    requires InterceptorCost(n, own, target, targetBearing,
                             n.fsolve(InterceptorResidual(n, own, target, targetBearing))) == Vec3(0.0, 0.0, 0.0)
    ensures var s := SolveInterceptor(n, own, target, targetBearing);
            var t := own.burnTime + s.midcourseTime;
            PredictFrom(own, s.bearing, t).pos == PredictFrom(target, targetBearing, t).pos
  {
    var x := n.fsolve(InterceptorResidual(n, own, target, targetBearing));
    var s := Normalise(n, x);
    assert SolveInterceptor(n, own, target, targetBearing) == s;
    var t := own.burnTime + s.midcourseTime;
    SubZero(PredictFrom(own, s.bearing, t).pos, PredictFrom(target, targetBearing, t).pos);
  }
}

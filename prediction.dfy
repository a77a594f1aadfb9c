/**
 * The closed-form kinematic predictor of sim/entities/missile/models/ballistic.py
 * (`Ballistic.predict_pos_vel`): constant thrust plus gravity for the burn, then
 * gravity alone for the rest of the horizon.
 */
module Prediction {
  import opened Vectors

  /**
   * Gravitational acceleration. The source imports G from sim/util/__init__.py,
   * which is not part of this model; no property proved here depends on its value.
   */
  const G: real := 9.81

  /** `Vector3(0, 0, -G)`. */
  function Gravity(): Vec3 {
    Vec3(0.0, 0.0, -G)
  }

  function Min(a: real, b: real): real {
    if a <= b then a else b
  }

  datatype PosVel = PosVel(pos: Vec3, vel: Vec3)

  /** Position and velocity along one axis. */
  datatype Axis = Axis(pos: real, vel: real)

  /**
   * One coordinate of `predict_pos_vel`, in the source's own order of
   * operations: the burn lasts `min(burnTime, t)` under `burnAcc * b` plus the
   * axis' gravity `g`, and whatever is left of `t` is flown under `g` alone from
   * the burn-end state. Vector3 operations act coordinate by coordinate.
   */
  function PredictAxis(p: real, v: real, b: real, burnAcc: real, g: real, burnTime: real, t: real): Axis {
    var bt := Min(burnTime, t);
    var e := BurnLeg(p, v, b, burnAcc, g, bt);
    if t > bt then
      var mt := t - bt;
      Axis((e.pos + e.vel * mt) + 0.5 * g * (mt * mt), e.vel + g * mt)
    else
      e
  }

  /** The burn leg of one coordinate over `bt`, as the source accumulates it. */
  function BurnLeg(p: real, v: real, b: real, burnAcc: real, g: real, bt: real): Axis {
    Axis((p + (v * bt + 0.5 * b * burnAcc * (bt * bt))) + 0.5 * g * (bt * bt),
         v + (burnAcc * b * bt + g * bt))
  }

  /**
   * `predict_pos_vel(bearing, t)` for a missile at `p0` moving at `v0` with the
   * given burn acceleration and burn time; gravity is (0, 0, -G).
   */
  function Predict(p0: Vec3, v0: Vec3, bearing: Vec3, burnAcc: real, burnTime: real, t: real): PosVel {
    var g := Gravity();
    var x := PredictAxis(p0.x, v0.x, bearing.x, burnAcc, g.x, burnTime, t);
    var y := PredictAxis(p0.y, v0.y, bearing.y, burnAcc, g.y, burnTime, t);
    var z := PredictAxis(p0.z, v0.z, bearing.z, burnAcc, g.z, burnTime, t);
    PosVel(Vec3(x.pos, y.pos, z.pos), Vec3(x.vel, y.vel, z.vel))
  }

  /** Constant acceleration `a` for `t` along one axis: p + v t + a t^2 / 2 and v + a t. */
  function Drift(p: real, v: real, a: real, t: real): Axis {
    Axis(p + v * t + 0.5 * a * (t * t), v + a * t)
  }

  /** Constant-acceleration flight for `t` from (p, v), coordinate by coordinate. */
  function Uniform(p: Vec3, v: Vec3, a: Vec3, t: real): PosVel {
    var x := Drift(p.x, v.x, a.x, t);
    var y := Drift(p.y, v.y, a.y, t);
    var z := Drift(p.z, v.z, a.z, t);
    PosVel(Vec3(x.pos, y.pos, z.pos), Vec3(x.vel, y.vel, z.vel))
  }

  /** The acceleration during the burn along one axis: thrust plus that axis' gravity. */
  function Boost(b: real, burnAcc: real, g: real): real {
    burnAcc * b + g
  }

  /** The acceleration during the burn: `burnAcc * bearing` plus gravity. */
  function BoostAcc(bearing: Vec3, burnAcc: real): (a: Vec3)
    ensures a == Add(Scale(burnAcc, bearing), Gravity())
  {
    var g := Gravity();
    Vec3(Boost(bearing.x, burnAcc, g.x), Boost(bearing.y, burnAcc, g.y), Boost(bearing.z, burnAcc, g.z))
  }

  /** The coast formula: burn for exactly `burnTime`, then gravity for `t - burnTime`. */
  function Coast(p0: Vec3, v0: Vec3, bearing: Vec3, burnAcc: real, burnTime: real, t: real): PosVel {
    var end := Uniform(p0, v0, BoostAcc(bearing, burnAcc), burnTime);
    Uniform(end.pos, end.vel, Gravity(), t - burnTime)
  }

  /** Flying s and then t under the same acceleration is flying s + t. */
  lemma DriftSplit(p: real, v: real, a: real, s: real, t: real)
    ensures var mid := Drift(p, v, a, s); Drift(mid.pos, mid.vel, a, t) == Drift(p, v, a, s + t)
  {
    var mid := Drift(p, v, a, s);
    Distribute(v, a * s, t);
    DistributeLeft(v, s, t);
    DistributeLeft(a, s, t);
    SquareOfSum(a, s, t);
    assert Drift(mid.pos, mid.vel, a, t).pos == Drift(p, v, a, s + t).pos;
    assert Drift(mid.pos, mid.vel, a, t).vel == Drift(p, v, a, s + t).vel;
  }

  /** The burn leg is a constant-acceleration leg under thrust plus gravity. */
  lemma BurnLegIsDrift(p: real, v: real, b: real, burnAcc: real, g: real, bt: real)
    ensures BurnLeg(p, v, b, burnAcc, g, bt) == Drift(p, v, Boost(b, burnAcc, g), bt)
  {
    HalfBoost(b, burnAcc, g, bt * bt);
    Distribute(burnAcc * b, g, bt);
    assert BurnLeg(p, v, b, burnAcc, g, bt).pos == Drift(p, v, Boost(b, burnAcc, g), bt).pos;
    assert BurnLeg(p, v, b, burnAcc, g, bt).vel == Drift(p, v, Boost(b, burnAcc, g), bt).vel;
  }

  lemma Distribute(x: real, y: real, z: real)
    ensures (x + y) * z == x * z + y * z
  {
  }

  lemma DistributeLeft(x: real, y: real, z: real)
    ensures x * (y + z) == x * y + x * z
  {
  }

  lemma SquareOfSum(a: real, s: real, t: real)
    ensures 0.5 * a * ((s + t) * (s + t)) == 0.5 * a * (s * s) + a * s * t + 0.5 * a * (t * t)
  {
    assert (s + t) * (s + t) == s * s + 2.0 * (s * t) + t * t;
  }

  lemma HalfBoost(b: real, burnAcc: real, g: real, q: real)
    ensures 0.5 * (burnAcc * b + g) * q == 0.5 * b * burnAcc * q + 0.5 * g * q
  {
  }

  /** Along one axis, during the burn the prediction is one constant-acceleration leg. */
  lemma AxisDuringBurn(p: real, v: real, b: real, burnAcc: real, g: real, burnTime: real, t: real)
    requires t <= burnTime
    ensures PredictAxis(p, v, b, burnAcc, g, burnTime, t) == Drift(p, v, Boost(b, burnAcc, g), t)
  {
    assert Min(burnTime, t) == t;
    assert PredictAxis(p, v, b, burnAcc, g, burnTime, t) == BurnLeg(p, v, b, burnAcc, g, t);
    BurnLegIsDrift(p, v, b, burnAcc, g, t);
  }

  /** Along one axis, after the burn the prediction is the burn leg followed by a gravity leg. */
  lemma AxisAfterBurn(p: real, v: real, b: real, burnAcc: real, g: real, burnTime: real, t: real)
    requires t > burnTime
    ensures var end := Drift(p, v, Boost(b, burnAcc, g), burnTime);
            PredictAxis(p, v, b, burnAcc, g, burnTime, t) == Drift(end.pos, end.vel, g, t - burnTime)
  {
    assert Min(burnTime, t) == burnTime;
    var e := BurnLeg(p, v, b, burnAcc, g, burnTime);
    var mt := t - burnTime;
    assert PredictAxis(p, v, b, burnAcc, g, burnTime, t) == Axis((e.pos + e.vel * mt) + 0.5 * g * (mt * mt), e.vel + g * mt);
    BurnLegIsDrift(p, v, b, burnAcc, g, burnTime);
  }

  /** Flying s and then t under the same acceleration is flying s + t. */
  lemma UniformSplit(p: Vec3, v: Vec3, a: Vec3, s: real, t: real)
    ensures var mid := Uniform(p, v, a, s); Uniform(mid.pos, mid.vel, a, t) == Uniform(p, v, a, s + t)
  {
    DriftSplit(p.x, v.x, a.x, s, t);
    DriftSplit(p.y, v.y, a.y, s, t);
    DriftSplit(p.z, v.z, a.z, s, t);
  }

  /** The same split seen from the end: stopping at s on the way to t changes nothing. */
  lemma UniformSplitAt(p: Vec3, v: Vec3, a: Vec3, s: real, t: real)
    ensures var mid := Uniform(p, v, a, s); Uniform(mid.pos, mid.vel, a, t - s) == Uniform(p, v, a, t)
  {
    DriftSplitAt(p.x, v.x, a.x, s, t);
    DriftSplitAt(p.y, v.y, a.y, s, t);
    DriftSplitAt(p.z, v.z, a.z, s, t);
  }

  lemma DriftSplitAt(p: real, v: real, a: real, s: real, t: real)
    ensures var mid := Drift(p, v, a, s); Drift(mid.pos, mid.vel, a, t - s) == Drift(p, v, a, t)
  {
    DriftSplit(p, v, a, s, t - s);
    assert s + (t - s) == t;
  }

  /** During the burn (t <= burnTime) the prediction is one constant-acceleration leg. */
  lemma PredictDuringBurn(p0: Vec3, v0: Vec3, bearing: Vec3, burnAcc: real, burnTime: real, t: real)
    requires t <= burnTime
    ensures Predict(p0, v0, bearing, burnAcc, burnTime, t) == Uniform(p0, v0, BoostAcc(bearing, burnAcc), t)
  {
    var g := Gravity();
    AxisDuringBurn(p0.x, v0.x, bearing.x, burnAcc, g.x, burnTime, t);
    AxisDuringBurn(p0.y, v0.y, bearing.y, burnAcc, g.y, burnTime, t);
    AxisDuringBurn(p0.z, v0.z, bearing.z, burnAcc, g.z, burnTime, t);
  }

  /** After the burn (t > burnTime) the prediction is the coast formula. */
  lemma PredictAfterBurn(p0: Vec3, v0: Vec3, bearing: Vec3, burnAcc: real, burnTime: real, t: real)
    requires t > burnTime
    ensures Predict(p0, v0, bearing, burnAcc, burnTime, t) == Coast(p0, v0, bearing, burnAcc, burnTime, t)
  {
    var g := Gravity();
    AxisAfterBurn(p0.x, v0.x, bearing.x, burnAcc, g.x, burnTime, t);
    AxisAfterBurn(p0.y, v0.y, bearing.y, burnAcc, g.y, burnTime, t);
    AxisAfterBurn(p0.z, v0.z, bearing.z, burnAcc, g.z, burnTime, t);
  }

  lemma DriftForNoTime(p: real, v: real, a: real, t: real)
    requires t == 0.0
    ensures Drift(p, v, a, t) == Axis(p, v)
  {
  }

  /** Flying for no time leaves position and velocity as they are. */
  lemma UniformForNoTime(p: Vec3, v: Vec3, a: Vec3, t: real)
    requires t == 0.0
    ensures Uniform(p, v, a, t) == PosVel(p, v)
  {
    DriftForNoTime(p.x, v.x, a.x, t);
    DriftForNoTime(p.y, v.y, a.y, t);
    DriftForNoTime(p.z, v.z, a.z, t);
  }

  /**
   * No discontinuity at burn end: the coast formula evaluated at t = burnTime
   * gives what the burn branch gives there, for every bearing.
   */
  lemma ContinuousAtBurnEnd(p0: Vec3, v0: Vec3, bearing: Vec3, burnAcc: real, burnTime: real)
    ensures Coast(p0, v0, bearing, burnAcc, burnTime, burnTime) == Predict(p0, v0, bearing, burnAcc, burnTime, burnTime)
  {
    var end := Uniform(p0, v0, BoostAcc(bearing, burnAcc), burnTime);
    UniformForNoTime(end.pos, end.vel, Gravity(), burnTime - burnTime);
    PredictDuringBurn(p0, v0, bearing, burnAcc, burnTime, burnTime);
  }

  lemma NoThrust(bearing: Vec3, burnAcc: real)
    requires burnAcc == 0.0
    ensures BoostAcc(bearing, burnAcc) == Gravity()
  {
  }

  /** With no thrust the prediction is free fall p0 + v0 t + g t^2 / 2, for every t. */
  lemma FreeFall(p0: Vec3, v0: Vec3, bearing: Vec3, burnAcc: real, burnTime: real, t: real)
    requires burnAcc == 0.0
    ensures Predict(p0, v0, bearing, burnAcc, burnTime, t) == Uniform(p0, v0, Gravity(), t)
  {
    if t > burnTime {
      FreeFallAfterBurn(p0, v0, bearing, burnAcc, burnTime, t);
    } else {
      NoThrust(bearing, burnAcc);
      PredictDuringBurn(p0, v0, bearing, burnAcc, burnTime, t);
    }
  }

  lemma FreeFallAfterBurn(p0: Vec3, v0: Vec3, bearing: Vec3, burnAcc: real, burnTime: real, t: real)
    requires burnAcc == 0.0 && t > burnTime
    ensures Predict(p0, v0, bearing, burnAcc, burnTime, t) == Uniform(p0, v0, Gravity(), t)
  {
    PredictAfterBurn(p0, v0, bearing, burnAcc, burnTime, t);
    NoThrust(bearing, burnAcc);
    var g := Gravity();
    var mid := Uniform(p0, v0, g, burnTime);
    assert Coast(p0, v0, bearing, burnAcc, burnTime, t) == Uniform(mid.pos, mid.vel, g, t - burnTime);
    UniformSplitAt(p0, v0, g, burnTime, t);
  }

  /** The predicted velocity is v0 + burnAcc * bearing * min(burnTime, t) + g t, for every t. */
  lemma PredictedVelocity(p0: Vec3, v0: Vec3, bearing: Vec3, burnAcc: real, burnTime: real, t: real)
    ensures Predict(p0, v0, bearing, burnAcc, burnTime, t).vel
         == Add(v0, Add(Scale(burnAcc * Min(burnTime, t), bearing), Scale(t, Gravity())))
  {
  }
}

/**
 * The guidance of the legacy model sim/entities/missile/models/simplebalistic.py:
 * `est_displacement`, a closed-form displacement from rest, and the `cost`
 * that `compute_bearing` hands to the root finder.
 */
module LegacyGuidance {
  import opened Vectors
  import opened Prediction
  import opened Guidance

  /**
   * One coordinate of `est_displacement` for an already non-negative midcourse
   * time `m`, accumulated as the source does: the boost term
   * `1/2 a b T^2 + a b T m`, then the gravity term `1/2 g T^2 + 1/2 g m^2 + g T m`.
   */
  function EstAxis(burnAcc: real, burnTime: real, b: real, g: real, m: real): real {
    var boost := 0.5 * burnAcc * b * (burnTime * burnTime) + burnAcc * b * burnTime * m;
    var grav := (0.5 * g * (burnTime * burnTime) + 0.5 * g * (m * m)) + g * burnTime * m;
    boost + grav
  }

  /** `est_displacement(thrust, midcourse_time)`: the midcourse time is replaced by its absolute value first. */
  function EstDisplacement(burnAcc: real, burnTime: real, thrust: Vec3, midcourse: real): Vec3 {
    var m := Abs(midcourse);
    var g := Gravity();
    Vec3(EstAxis(burnAcc, burnTime, thrust.x, g.x, m),
         EstAxis(burnAcc, burnTime, thrust.y, g.y, m),
         EstAxis(burnAcc, burnTime, thrust.z, g.z, m))
  }

  /** The displacement does not depend on the sign of the midcourse time. */
  lemma EstDisplacementEven(burnAcc: real, burnTime: real, thrust: Vec3, midcourse: real)
    ensures EstDisplacement(burnAcc, burnTime, thrust, midcourse) == EstDisplacement(burnAcc, burnTime, thrust, -midcourse)
  {
    assert Abs(midcourse) == Abs(-midcourse);
  }

  lemma EstAxisClosed(burnAcc: real, burnTime: real, b: real, g: real, m: real)
    ensures EstAxis(burnAcc, burnTime, b, g, m)
         == burnAcc * (0.5 * (burnTime * burnTime) + burnTime * m) * b + 0.5 * ((burnTime + m) * (burnTime + m)) * g
  {
    var T := burnTime;
    assert burnAcc * (0.5 * (T * T) + T * m) * b == 0.5 * burnAcc * b * (T * T) + burnAcc * b * T * m;
    assert (T + m) * (T + m) == T * T + 2.0 * (T * m) + m * m;
    assert 0.5 * ((T + m) * (T + m)) * g == 0.5 * g * (T * T) + 0.5 * g * (m * m) + g * T * m;
  }

  /**
   * The closed form: burn_acc b (T^2 / 2 + T m) + g (T + m)^2 / 2 with
   * m = |midcourse| and g = (0, 0, -G).
   */
  lemma EstDisplacementClosed(burnAcc: real, burnTime: real, thrust: Vec3, midcourse: real)
    ensures var m := Abs(midcourse);
            EstDisplacement(burnAcc, burnTime, thrust, midcourse)
            == Add(Scale(burnAcc * (0.5 * (burnTime * burnTime) + burnTime * m), thrust),
                   Scale(0.5 * ((burnTime + m) * (burnTime + m)), Gravity()))
  {
    var m := Abs(midcourse);
    var g := Gravity();
    EstAxisClosed(burnAcc, burnTime, thrust.x, g.x, m);
    EstAxisClosed(burnAcc, burnTime, thrust.y, g.y, m);
    EstAxisClosed(burnAcc, burnTime, thrust.z, g.z, m);
  }

  /** Gravity acts on z only: the horizontal displacement is the thrust term alone. */
  lemma EstDisplacementHorizontal(burnAcc: real, burnTime: real, thrust: Vec3, midcourse: real)
    ensures var m := Abs(midcourse);
            var d := EstDisplacement(burnAcc, burnTime, thrust, midcourse);
            d.x == burnAcc * (0.5 * (burnTime * burnTime) + burnTime * m) * thrust.x
            && d.y == burnAcc * (0.5 * (burnTime * burnTime) + burnTime * m) * thrust.y
  {
    var m := Abs(midcourse);
    EstAxisClosed(burnAcc, burnTime, thrust.x, 0.0, m);
    EstAxisClosed(burnAcc, burnTime, thrust.y, 0.0, m);
  }

  lemma ExpandBoost(burnAcc: real, b: real, g: real, T: real, m: real)
    ensures Boost(b, burnAcc, g) * T * m == burnAcc * b * T * m + g * T * m
  {
  }

  /** Along one axis, the displacement estimate is what the predictor gives from rest. */
  lemma EstAxisAgrees(p: real, burnAcc: real, burnTime: real, b: real, g: real, m: real)
    requires m >= 0.0
    ensures PredictAxis(p, 0.0, b, burnAcc, g, burnTime, burnTime + m).pos - p == EstAxis(burnAcc, burnTime, b, g, m)
  {
    var T := burnTime;
    var a := Boost(b, burnAcc, g);
    BurnLegIsDrift(p, 0.0, b, burnAcc, g, T);
    HalfBoost(b, burnAcc, g, T * T);
    if m > 0.0 {
      AxisAfterBurn(p, 0.0, b, burnAcc, g, T, T + m);
      assert (T + m) - T == m;
      ExpandBoost(burnAcc, b, g, T, m);
      assert (0.0 + a * T) * m == a * T * m;
    } else {
      assert m == 0.0;
      AxisDuringBurn(p, 0.0, b, burnAcc, g, T, T + m);
      assert T + m == T;
    }
  }

  /**
   * `est_displacement(b, m)` is the displacement `predict_pos_vel` gives from
   * rest after `burn_time + |m|`: the two closed forms of the repository agree.
   */
  lemma EstDisplacementAgrees(p0: Vec3, burnAcc: real, burnTime: real, thrust: Vec3, midcourse: real)
    ensures var m := Abs(midcourse);
            EstDisplacement(burnAcc, burnTime, thrust, midcourse)
            == Sub(Predict(p0, Vec3(0.0, 0.0, 0.0), thrust, burnAcc, burnTime, burnTime + m).pos, p0)
  {
    var m := Abs(midcourse);
    var g := Gravity();
    EstAxisAgrees(p0.x, burnAcc, burnTime, thrust.x, g.x, m);
    EstAxisAgrees(p0.y, burnAcc, burnTime, thrust.y, g.y, m);
    EstAxisAgrees(p0.z, burnAcc, burnTime, thrust.z, g.z, m);
  }

  /** `SimpleBalistic.compute_bearing`'s `cost`: pos + est_displacement(to_bearing(theta, phi), |m|) - target. */
  function LegacyCost(n: Numerics, pos: Vec3, target: Vec3, burnAcc: real, burnTime: real, x: Params): Vec3 {
    var m := Abs(x.midcourse);
    var bearing := ToBearing(n, x.theta, x.phi);
    Sub(Add(pos, EstDisplacement(burnAcc, burnTime, bearing, m)), target)
  }

  function LegacyResidual(n: Numerics, pos: Vec3, target: Vec3, burnAcc: real, burnTime: real): Params -> Vec3 {
    x => LegacyCost(n, pos, target, burnAcc, burnTime, x)
  }

  /** `SimpleBalistic.compute_bearing()`: only the bearing is returned; the midcourse time is dropped. */
  function SolveLegacy(n: Numerics, pos: Vec3, target: Vec3, burnAcc: real, burnTime: real): (b: Vec3)
    ensures b == Normalise(n, n.fsolve(LegacyResidual(n, pos, target, burnAcc, burnTime))).bearing
  {
    var x := n.fsolve(LegacyResidual(n, pos, target, burnAcc, burnTime));
    ToBearing(n, x.theta, x.phi)
  }

  lemma AddSubCancel(p: Vec3, d: Vec3)
    ensures Add(p, Sub(d, p)) == d
  {
  }

  /**
   * A root of the legacy cost is a bearing that reaches the target from rest:
   * the predictor, flown from `pos` at zero velocity for `burn_time + |m|`,
   * ends at the target.
   */
  lemma LegacyRootHits(n: Numerics, pos: Vec3, target: Vec3, burnAcc: real, burnTime: real)
    requires LegacyCost(n, pos, target, burnAcc, burnTime, n.fsolve(LegacyResidual(n, pos, target, burnAcc, burnTime)))
          == Vec3(0.0, 0.0, 0.0)
    ensures var x := n.fsolve(LegacyResidual(n, pos, target, burnAcc, burnTime));
            Predict(pos, Vec3(0.0, 0.0, 0.0), SolveLegacy(n, pos, target, burnAcc, burnTime), burnAcc, burnTime,
                    burnTime + Abs(x.midcourse)).pos == target
  {
    var x := n.fsolve(LegacyResidual(n, pos, target, burnAcc, burnTime));
    var m := Abs(x.midcourse);
    var b := SolveLegacy(n, pos, target, burnAcc, burnTime);
    assert b == ToBearing(n, x.theta, x.phi);
    var d := EstDisplacement(burnAcc, burnTime, b, m);
    SubZero(Add(pos, d), target);
    assert Abs(m) == m;
    EstDisplacementAgrees(pos, burnAcc, burnTime, b, m);
    var final := Predict(pos, Vec3(0.0, 0.0, 0.0), b, burnAcc, burnTime, burnTime + m).pos;
    assert d == Sub(final, pos);
    AddSubCancel(pos, final);
  }
}

/**
 * The thrust schedule of the rocket models: what `Ballistic.tick`
 * (sim/entities/missile/models/ballistic.py) and `SimpleBalistic.tick`
 * (sim/entities/missile/models/simplebalistic.py) do after the missile step,
 * as functions on values.
 */
module Rocket {
  import opened Wrappers
  import opened Vectors
  import opened Prediction
  import opened Motion

  /** `2**31-1`, the launch time of a ballistic missile that has not been launched. */
  const Never: real := 2147483647.0

  /** What a tick asks of the engine. */
  datatype Thrust =
    | Coasting          // outside the burn window: no acceleration is applied
    | Burning(acc: Vec3) // `apply_accel(burn_acc * bearing)`
    | Unaimed           // inside the burn window with no `bearing` attribute: an AttributeError

  /** `is_launched`: the launch time has been reached. */
  predicate Launched(launchTime: real, lifetime: real) {
    launchTime <= lifetime
  }

  /** `launch_time <= lifetime <= launch_time + burn_time`. */
  predicate InBurn(launchTime: real, burnTime: real, lifetime: real) {
    launchTime <= lifetime <= launchTime + burnTime
  }

  /** The engine command of `Ballistic.tick`, given the already advanced lifetime. */
  function BallisticThrust(launchTime: real, burnTime: real, burnAcc: real, lifetime: real, bearing: Option<Vec3>): (t: Thrust)
    ensures t.Burning? <==> InBurn(launchTime, burnTime, lifetime) && bearing.Some?
    ensures t.Unaimed? <==> InBurn(launchTime, burnTime, lifetime) && bearing.None?
    ensures t.Burning? ==> t.acc == Scale(burnAcc, bearing.value)
  {
    if InBurn(launchTime, burnTime, lifetime) then
      if bearing.Some? then Burning(Scale(burnAcc, bearing.value)) else Unaimed
    else Coasting
  }

  /** The engine command of `SimpleBalistic.tick`: it burns for as long as `lifetime <= burn_time`. */
  function LegacyThrust(burnTime: real, burnAcc: real, lifetime: real, bearing: Option<Vec3>): (t: Thrust)
    ensures t.Burning? <==> lifetime <= burnTime && bearing.Some?
    ensures t.Unaimed? <==> lifetime <= burnTime && bearing.None?
    ensures t.Burning? ==> t.acc == Scale(burnAcc, bearing.value)
  {
    if lifetime <= burnTime then
      if bearing.Some? then Burning(Scale(burnAcc, bearing.value)) else Unaimed
    else Coasting
  }

  /** `apply_accel` for the commanded thrust; an unaimed engine adds nothing (the tick fails instead). */
  function Apply(b: Body, t: Thrust): Body {
    if t.Burning? then b.(acc := Add(b.acc, t.acc)) else b
  }

  /** The state of a rocket that one tick changes. */
  datatype Flight = Flight(body: Body, lifetime: real)

  /** The outcome of one tick: the new state, whether it detonated, and the engine command that ended it. */
  datatype Outcome = Outcome(flight: Flight, detonated: bool, thrust: Thrust)

  /**
   * What `Ballistic.tick` does after the missile step `s`: `lifetime += dt`,
   * gravity switched on iff launched, then the thrust of the burn window added
   * to the accumulator for the next step.
   */
  function BallisticControl(s: Step, lifetime: real, dt: real, launchTime: real, burnTime: real, burnAcc: real, bearing: Option<Vec3>): Outcome {
    var life := lifetime + dt;
    var body := s.body.(gravity := Launched(launchTime, life));
    var t := BallisticThrust(launchTime, burnTime, burnAcc, life, bearing);
    Outcome(Flight(Apply(body, t), life), s.detonated, t)
  }

  /** One `Ballistic.tick(dt)`: the missile step, then the control step. */
  function BallisticTick(f: Flight, cap: nat, dt: real, launchTime: real, burnTime: real, burnAcc: real, bearing: Option<Vec3>): Outcome {
    BallisticControl(Motion.Tick(f.body, cap, dt), f.lifetime, dt, launchTime, burnTime, burnAcc, bearing)
  }

  /** What `SimpleBalistic.tick` does after the missile step `s`: `lifetime += dt`, then thrust while `lifetime <= burn_time`. */
  function LegacyControl(s: Step, lifetime: real, dt: real, burnTime: real, burnAcc: real, bearing: Option<Vec3>): Outcome {
    var life := lifetime + dt;
    var t := LegacyThrust(burnTime, burnAcc, life, bearing);
    Outcome(Flight(Apply(s.body, t), life), s.detonated, t)
  }

  /** One `SimpleBalistic.tick(dt)`: the missile step, then the legacy control step. */
  function LegacyTick(f: Flight, cap: nat, dt: real, burnTime: real, burnAcc: real, bearing: Option<Vec3>): Outcome {
    LegacyControl(Motion.Tick(f.body, cap, dt), f.lifetime, dt, burnTime, burnAcc, bearing)
  }

  /**
   * The thrust of a tick is integrated on the next tick: a live missile above
   * ground leaves a burning tick with exactly `burn_acc * bearing` in its
   * accumulator, and with gravity on iff it is launched.
   */
  lemma BurnChargesAccumulator(f: Flight, cap: nat, dt: real, launchTime: real, burnTime: real, burnAcc: real, bearing: Vec3)
    requires !f.body.destroyed && f.body.pos.z >= 0.0
    requires InBurn(launchTime, burnTime, f.lifetime + dt)
    ensures var o := BallisticTick(f, cap, dt, launchTime, burnTime, burnAcc, Some(bearing));
            o.flight.body.acc == Scale(burnAcc, bearing) && o.flight.body.gravity && !o.flight.body.destroyed
  {
    var s := Motion.Tick(f.body, cap, dt);
    assert s.body.acc == Vec3(0.0, 0.0, 0.0);
  }

  /**
   * During the burn the missile step agrees with the predictor's boost phase:
   * a live, launched missile whose accumulator holds `burn_acc * bearing`
   * flies one leg under `BoostAcc`, the acceleration `predict_pos_vel` uses.
   */
  lemma BurnStepIsBoost(b: Body, cap: nat, dt: real, burnAcc: real, bearing: Vec3)
    requires !b.destroyed && b.pos.z >= 0.0 && b.gravity
    requires b.acc == Scale(burnAcc, bearing)
    ensures var r := Motion.Tick(b, cap, dt).body;
            var u := Uniform(b.pos, b.vel, BoostAcc(bearing, burnAcc), dt);
            r.pos == u.pos && r.vel == u.vel
  {
    assert Accel(b) == BoostAcc(bearing, burnAcc);
    TickIntegrates(b, cap, dt);
  }

  /** After the burn a launched missile steps under gravity alone, as in the predictor's midcourse phase. */
  lemma CoastStepIsFreeFlight(b: Body, cap: nat, dt: real)
    requires !b.destroyed && b.pos.z >= 0.0 && b.gravity
    requires b.acc == Vec3(0.0, 0.0, 0.0)
    ensures var r := Motion.Tick(b, cap, dt).body;
            var u := Uniform(b.pos, b.vel, Gravity(), dt);
            r.pos == u.pos && r.vel == u.vel
  {
    AccelOfCoast(b);
    TickIntegrates(b, cap, dt);
  }

  lemma AccelOfCoast(b: Body)
    requires b.gravity && b.acc == Vec3(0.0, 0.0, 0.0)
    ensures Accel(b) == Gravity()
  {
  }

  /** A missile on the pad: live, on or above ground, at rest, with an empty accumulator and no gravity. */
  predicate OnPad(b: Body) {
    !b.destroyed && b.pos.z >= 0.0 && b.vel == Vec3(0.0, 0.0, 0.0) && b.acc == Vec3(0.0, 0.0, 0.0) && !b.gravity
  }

  /** Until its launch time, a ballistic missile stays on the pad: it does not move and does not fall. */
  lemma WaitsOnPad(b: Body, lifetime: real, cap: nat, dt: real, launchTime: real, burnTime: real, burnAcc: real, bearing: Option<Vec3>)
    requires OnPad(b)
    requires lifetime + dt < launchTime
    ensures BallisticTick(Flight(b, lifetime), cap, dt, launchTime, burnTime, burnAcc, bearing)
         == Outcome(Flight(b.(tail := Push(b.tail, b.pos, cap)), lifetime + dt), false, Coasting)
  {
    var rested := b.(tail := Push(b.tail, b.pos, cap));
    PadTick(b, cap, dt);
    ControlOnPad(rested, lifetime, dt, launchTime, burnTime, burnAcc, bearing);
  }

  lemma ControlOnPad(b: Body, lifetime: real, dt: real, launchTime: real, burnTime: real, burnAcc: real, bearing: Option<Vec3>)
    requires !b.gravity && lifetime + dt < launchTime
    ensures BallisticControl(Step(b, false), lifetime, dt, launchTime, burnTime, burnAcc, bearing)
         == Outcome(Flight(b, lifetime + dt), false, Coasting)
  {
    assert b.(gravity := false) == b;
  }

  /** The missile step leaves a missile on the pad where it is; only the tail grows. */
  lemma PadTick(b: Body, cap: nat, dt: real)
    requires OnPad(b)
    ensures Motion.Tick(b, cap, dt) == Step(b.(tail := Push(b.tail, b.pos, cap)), false)
  {
    AccelOnPad(b);
    TickIntegrates(b, cap, dt);
    RestIsStill(b.pos, dt);
    var r := Motion.Tick(b, cap, dt).body;
    assert r.pos == b.pos && r.vel == b.vel && r.acc == b.acc;
  }

  lemma AccelOnPad(b: Body)
    requires OnPad(b)
    ensures Accel(b) == Vec3(0.0, 0.0, 0.0)
  {
  }

  lemma RestIsStill(p: Vec3, dt: real)
    ensures Uniform(p, Vec3(0.0, 0.0, 0.0), Vec3(0.0, 0.0, 0.0), dt) == PosVel(p, Vec3(0.0, 0.0, 0.0))
  {
    DriftAtRest(p.x, dt);
    DriftAtRest(p.y, dt);
    DriftAtRest(p.z, dt);
  }

  lemma DriftAtRest(p: real, dt: real)
    ensures Drift(p, 0.0, 0.0, dt) == Axis(p, 0.0)
  {
  }

  /** Ticking a ballistic missile once per time step of `dts`. */
  function BallisticTicks(f: Flight, cap: nat, dts: seq<real>, launchTime: real, burnTime: real, burnAcc: real, bearing: Option<Vec3>): Flight
    decreases |dts|
  {
    if dts == [] then f
    else BallisticTicks(BallisticTick(f, cap, dts[0], launchTime, burnTime, burnAcc, bearing).flight, cap, dts[1..],
                        launchTime, burnTime, burnAcc, bearing)
  }

  function Sum(dts: seq<real>): real
    decreases |dts|
  {
    if dts == [] then 0.0 else dts[0] + Sum(dts[1..])
  }

  /**
   * A missile that waits on the pad for a sequence of non-negative time steps
   * ending before its launch time is where it started, still on the pad, and
   * its lifetime has advanced by their sum.
   */
  lemma {:induction false} StaysOnPad(b: Body, lifetime: real, cap: nat, dts: seq<real>, launchTime: real, burnTime: real, burnAcc: real, bearing: Option<Vec3>)
    requires OnPad(b)
    requires forall i :: 0 <= i < |dts| ==> dts[i] >= 0.0
    requires lifetime + Sum(dts) < launchTime
    ensures var g := BallisticTicks(Flight(b, lifetime), cap, dts, launchTime, burnTime, burnAcc, bearing);
            OnPad(g.body) && g.body.pos == b.pos && g.lifetime == lifetime + Sum(dts)
    decreases |dts|
  {
    if dts != [] {
      SumNonNegative(dts[1..]);
      WaitsOnPad(b, lifetime, cap, dts[0], launchTime, burnTime, burnAcc, bearing);
      var rested := b.(tail := Push(b.tail, b.pos, cap));
      StaysOnPad(rested, lifetime + dts[0], cap, dts[1..], launchTime, burnTime, burnAcc, bearing);
    }
  }

  lemma {:induction false} SumNonNegative(dts: seq<real>)
    requires forall i :: 0 <= i < |dts| ==> dts[i] >= 0.0
    ensures Sum(dts) >= 0.0
    decreases |dts|
  {
    if dts != [] {
      SumNonNegative(dts[1..]);
    }
  }

  /** An unlaunched missile never reaches its burn window. */
  lemma NeverBurnsBeforeLaunch(launchTime: real, burnTime: real, burnAcc: real, lifetime: real, bearing: Option<Vec3>)
    requires lifetime < launchTime
    ensures BallisticThrust(launchTime, burnTime, burnAcc, lifetime, bearing) == Coasting
  {
  }
}

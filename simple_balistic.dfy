/**
 * The older self-aiming missile, with its own closed-form displacement and a
 * burn from lifetime 0 (sim/entities/missile/models/simplebalistic.py).
 */
class SimpleBalistic {
  const missile: Missile
  const target: Vec3
  const burnTime: real
  const burnAcc: real
  var lifetime: real
  /** Absent until `create` computes it. */
  var bearing: Option<Vec3>

  /** The flight state the legacy step reads and writes. */
  function Flight(): Rocket.Flight
    reads this, missile, missile.entity
  {
    Rocket.Flight(missile.Body(), lifetime)
  }

  /**
   * `SimpleBalistic(pos, target, burn_time, burn_acc=5*G, mass=1, size=None,
   * color='blue', tail_color='teal')`: at rest with lifetime 0; gravity stays
   * on as in every missile.
   */
  constructor (pos: Vec3, target: Vec3, burnTime: real, burnAcc: real := 5.0 * Prediction.G, mass: real := 1.0,
               size: Option<real> := None, color: string := "blue", tailColor: string := "teal")
    ensures fresh(missile) && fresh(missile.entity)
    ensures missile.entity.sim == null && missile.entity.pos == pos && missile.entity.color == color
    ensures missile.vel == Vec3(0.0, 0.0, 0.0) && missile.acc == Vec3(0.0, 0.0, 0.0) && missile.tail == []
    ensures !missile.destroyed && missile.gravity && missile.tailColor == tailColor && missile.tailLen == 150
    ensures this.target == target && this.burnTime == burnTime && this.burnAcc == burnAcc
    ensures lifetime == 0.0 && bearing.None?
  {
    missile := new Missile(pos, Zero(), mass, size, color, tailColor);
    this.target := target;
    this.burnTime := burnTime;
    this.burnAcc := burnAcc;
    lifetime := 0.0;
    bearing := None;
  }

  /** `create(sim)`: binds the entity, then `compute_bearing()` from the current position sets the bearing. */
  method Create(s: Simulation, n: Guidance.Numerics)
    modifies missile.entity`sim, this`bearing
    ensures missile.entity.sim == s
    ensures bearing == Some(LegacyGuidance.SolveLegacy(n, missile.entity.pos, target, burnAcc, burnTime))
  {
    missile.entity.Create(s);
    bearing := Some(LegacyGuidance.SolveLegacy(n, missile.entity.pos, target, burnAcc, burnTime));
  }

  /**
   * `tick(delta_t, time)`: the missile step, then `lifetime += dt`, then the
   * thrust while `lifetime <= burn_time`; a missing bearing in that window fails.
   */
  method Tick(dt: real) returns (st: Status)
    modifies this`lifetime, missile, missile.entity`pos, SimSet(missile.entity.sim)`addQueue
    ensures var s := Motion.Tick(old(missile.Body()), missile.tailLen, dt);
            var o := Rocket.LegacyControl(s, old(lifetime), dt, burnTime, burnAcc, bearing);
            if s.detonated && missile.entity.sim == null then
              st == Failed(UnboundEntity) && missile.Body() == s.body && lifetime == old(lifetime)
            else
              Flight() == o.flight && (st == Failed(NoBearing) <==> o.thrust.Unaimed?) && (st.Ok? <==> !o.thrust.Unaimed?)
    ensures missile.entity.sim != null ==> GrewByBlasts(missile.entity.sim.addQueue, old(missile.entity.sim.addQueue))
  {
    st := missile.Tick(dt);
    if st.Failed? {
      return;
    }
    lifetime := lifetime + dt;
    var t := Rocket.LegacyThrust(burnTime, burnAcc, lifetime, bearing);
    if t.Burning? {
      missile.ApplyAccel(t.acc);
    } else if t.Unaimed? {
      st := Failed(NoBearing);
    }
  }
}

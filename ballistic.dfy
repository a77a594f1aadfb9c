/** A missile that waits for its launch time and then burns along a bearing (sim/entities/missile/models/ballistic.py). */
class Ballistic {
  const missile: Missile
  const burnTime: real
  const burnAcc: real
  var lifetime: real
  var launchTime: real
  /** Absent until a subclass computes it (the attribute does not exist before). */
  var bearing: Option<Vec3>
  var midcourseTime: Option<real>

  /** The flight state the ballistic step reads and writes. */
  function Flight(): Rocket.Flight
    reads this, missile, missile.entity
  {
    Rocket.Flight(missile.Body(), lifetime)
  }

  /** What the predictor and the guidance read from this missile. */
  function Launcher(): Guidance.Launcher
    reads this, missile, missile.entity
  {
    Guidance.Launcher(missile.entity.pos, missile.vel, burnAcc, burnTime)
  }

  /**
   * `Ballistic(pos, burn_time, launch_time=2**31-1, burn_acc=5*G, mass=1,
   * size=None, color='teal', tail_color='teal')`: at rest, lifetime 0, gravity
   * off, not launched under the default launch time.
   */
  constructor (pos: Vec3, burnTime: real, launchTime: real := Rocket.Never, burnAcc: real := 5.0 * Prediction.G,
               mass: real := 1.0, size: Option<real> := None, color: string := "teal", tailColor: string := "teal")
    ensures fresh(missile) && fresh(missile.entity)
    ensures missile.entity.sim == null && missile.entity.pos == pos && missile.entity.color == color
    ensures missile.entity.size == (if size.Some? && size.value != 0.0 then size.value else mass)
    ensures missile.vel == Vec3(0.0, 0.0, 0.0) && missile.acc == Vec3(0.0, 0.0, 0.0) && missile.tail == []
    ensures !missile.destroyed && !missile.gravity && missile.mass == mass && missile.tailLen == 150
    ensures missile.tailColor == tailColor && missile.initialPos == pos
    ensures this.burnTime == burnTime && this.burnAcc == burnAcc && this.launchTime == launchTime
    ensures lifetime == 0.0 && bearing.None? && midcourseTime.None?
  {
    missile := new Missile(pos, Zero(), mass, size, color, tailColor);
    this.burnTime := burnTime;
    this.burnAcc := burnAcc;
    lifetime := 0.0;
    this.launchTime := launchTime;
    bearing := None;
    midcourseTime := None;
    new;
    missile.gravity := false;
  }

  /** `launch()`: the launch time becomes the current lifetime, so the missile is launched from now on. */
  method Launch()
    modifies this`launchTime
    ensures launchTime == lifetime && IsLaunched()
  {
    launchTime := lifetime;
  }

  /** `is_launched`. */
  predicate IsLaunched()
    reads this
  {
    Rocket.Launched(launchTime, lifetime)
  }

  /** `predict_pos_vel(bearing, t)`: the closed-form prediction from the current position and velocity; nothing changes. */
  function PredictPosVel(b: Vec3, t: real): Prediction.PosVel
    reads this, missile, missile.entity
  {
    Guidance.PredictFrom(Launcher(), b, t)
  }

  /**
   * The status `tick(delta_t, time)` ends with, read from the state before it:
   * a failed ground detonation of an unbound missile, else a missing bearing
   * inside the burn window, else success.
   */
  function TickStatus(dt: real): Status
    reads this, missile, missile.entity
  {
    var s := Motion.Tick(missile.Body(), missile.tailLen, dt);
    var o := Rocket.BallisticControl(s, lifetime, dt, launchTime, burnTime, burnAcc, bearing);
    if s.detonated && missile.entity.sim == null then Failed(UnboundEntity)
    else if o.thrust.Unaimed? then Failed(NoBearing)
    else Ok
  }

  /**
   * `tick(delta_t, time)`: the missile step, then the ballistic control step
   * of `Rocket` (lifetime, gravity flag, thrust of the burn window). A failed
   * detonation in the missile step ends the tick before the control step; a
   * missing bearing inside the burn window fails after the lifetime and the
   * gravity flag are updated.
   */
  method Tick(dt: real) returns (st: Status)
    modifies this`lifetime, missile, missile.entity`pos, SimSet(missile.entity.sim)`addQueue
    ensures var s := Motion.Tick(old(missile.Body()), missile.tailLen, dt);
            var o := Rocket.BallisticControl(s, old(lifetime), dt, launchTime, burnTime, burnAcc, bearing);
            if s.detonated && missile.entity.sim == null then
              st == Failed(UnboundEntity) && missile.Body() == s.body && lifetime == old(lifetime)
            else
              Flight() == o.flight && (st == Failed(NoBearing) <==> o.thrust.Unaimed?) && (st.Ok? <==> !o.thrust.Unaimed?)
    ensures st == old(TickStatus(dt))
    ensures missile.entity.sim != null ==> GrewByBlasts(missile.entity.sim.addQueue, old(missile.entity.sim.addQueue))
  {
    st := missile.Tick(dt);
    if st.Failed? {
      return;
    }
    lifetime := lifetime + dt;
    missile.gravity := Rocket.Launched(launchTime, lifetime);
    var t := Rocket.BallisticThrust(launchTime, burnTime, burnAcc, lifetime, bearing);
    if t.Burning? {
      missile.ApplyAccel(t.acc);
    } else if t.Unaimed? {
      st := Failed(NoBearing);
    }
  }
}

/** A ballistic missile that aims itself at a fixed point when created (sim/entities/missile/models/simpleballistic.py). */
class SimpleBallistic {
  const ballistic: Ballistic
  const target: Vec3

  /**
   * `SimpleBallistic(pos, target, burn_time, launch_time=0, burn_acc=5*G,
   * mass=1, size=None, color='blue', tail_color='teal')`: unlike the
   * `Ballistic` default, it counts as launched from lifetime 0.
   */
  constructor (pos: Vec3, target: Vec3, burnTime: real, launchTime: real := 0.0, burnAcc: real := 5.0 * Prediction.G,
               mass: real := 1.0, size: Option<real> := None, color: string := "blue", tailColor: string := "teal")
    ensures fresh(ballistic) && fresh(ballistic.missile) && fresh(ballistic.missile.entity)
    ensures ballistic.missile.entity.sim == null && ballistic.missile.entity.pos == pos
    ensures ballistic.missile.entity.color == color && ballistic.missile.tailColor == tailColor
    ensures ballistic.missile.vel == Vec3(0.0, 0.0, 0.0) && ballistic.missile.acc == Vec3(0.0, 0.0, 0.0)
    ensures !ballistic.missile.destroyed && !ballistic.missile.gravity && ballistic.missile.tail == []
    ensures ballistic.missile.tailLen == 150
    ensures ballistic.burnTime == burnTime && ballistic.burnAcc == burnAcc && ballistic.launchTime == launchTime
    ensures ballistic.lifetime == 0.0 && ballistic.bearing.None? && ballistic.midcourseTime.None?
    ensures this.target == target
    ensures launchTime == 0.0 ==> ballistic.IsLaunched()
  {
    ballistic := new Ballistic(pos, burnTime, launchTime, burnAcc, mass, size, color, tailColor);
    this.target := target;
  }

  /**
   * `create(sim)`: binds the entity, then `compute_bearing()` from the current
   * position and velocity sets both the bearing and the (non-negative)
   * midcourse time, which is what lets an interceptor lock on.
   */
  method Create(s: Simulation, n: Guidance.Numerics)
    modifies ballistic.missile.entity`sim, ballistic`bearing, ballistic`midcourseTime
    ensures ballistic.missile.entity.sim == s
    ensures var sol := Guidance.SolveSimpleBallistic(n, ballistic.Launcher(), target);
            ballistic.bearing == Some(sol.bearing) && ballistic.midcourseTime == Some(sol.midcourseTime)
    ensures ballistic.midcourseTime.value >= 0.0
  {
    ballistic.missile.entity.Create(s);
    var sol := Guidance.SolveSimpleBallistic(n, ballistic.Launcher(), target);
    ballistic.bearing := Some(sol.bearing);
    ballistic.midcourseTime := Some(sol.midcourseTime);
  }
}

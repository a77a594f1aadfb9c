/**
 * A ballistic missile that waits on its target's bearing, then plans one
 * interception course, launches, and detonates itself and its target when
 * close enough (sim/entities/missile/models/ballistic_interceptor.py).
 */
class BallisticInterceptor {
  const ballistic: Ballistic
  const target: Ballistic
  const radius: real
  /** `_target_lock`: whether the interception course has been planned. */
  var targetLock: bool

  /**
   * `BallisticInterceptor(pos, target, burn_time, radius=5, burn_acc=5*G,
   * mass=1, size=None, color='red', tail_color='red')`: not locked, and not
   * launched under the inherited default launch time.
   */
  constructor (pos: Vec3, target: Ballistic, burnTime: real, radius: real := 5.0, burnAcc: real := 5.0 * Prediction.G,
               mass: real := 1.0, size: Option<real> := None, color: string := "red", tailColor: string := "red")
    ensures fresh(ballistic) && fresh(ballistic.missile) && fresh(ballistic.missile.entity)
    ensures ballistic.missile.entity.sim == null && ballistic.missile.entity.pos == pos
    ensures ballistic.missile.entity.color == color && ballistic.missile.tailColor == tailColor
    ensures ballistic.missile.vel == Vec3(0.0, 0.0, 0.0) && !ballistic.missile.destroyed && !ballistic.missile.gravity
    ensures ballistic.burnTime == burnTime && ballistic.burnAcc == burnAcc && ballistic.launchTime == Rocket.Never
    ensures ballistic.lifetime == 0.0 && ballistic.bearing.None? && !ballistic.IsLaunched()
    ensures this.target == target && this.radius == radius && !targetLock
  {
    ballistic := new Ballistic(pos, burnTime, Rocket.Never, burnAcc, mass, size, color, tailColor);
    this.target := target;
    this.radius := radius;
    targetLock := false;
  }

  /**
   * The body of the `can_launch` branch: when not yet locked and the target
   * has a bearing, plan the course with the interceptor's own cost (against
   * the target's current state and bearing), lock, and launch; otherwise
   * nothing changes.
   */
  method Lock(n: Guidance.Numerics)
    modifies this`targetLock, ballistic`bearing, ballistic`midcourseTime, ballistic`launchTime
    ensures if !old(targetLock) && old(target.bearing).Some? then
              var sol := Guidance.SolveInterceptor(n, ballistic.Launcher(), old(target.Launcher()), old(target.bearing).value);
              targetLock && ballistic.bearing == Some(sol.bearing) && ballistic.midcourseTime == Some(sol.midcourseTime)
              && ballistic.launchTime == ballistic.lifetime && ballistic.IsLaunched()
            else
              targetLock == old(targetLock) && ballistic.bearing == old(ballistic.bearing)
              && ballistic.midcourseTime == old(ballistic.midcourseTime) && ballistic.launchTime == old(ballistic.launchTime)
  {
    if !targetLock && target.bearing.Some? {
      var sol := Guidance.SolveInterceptor(n, ballistic.Launcher(), target.Launcher(), target.bearing.value);
      ballistic.bearing := Some(sol.bearing);
      ballistic.midcourseTime := Some(sol.midcourseTime);
      targetLock := true;
      ballistic.Launch();
    }
  }

  /**
   * What detonating both missiles leaves: the interceptor is destroyed; if it
   * is bound to a simulation, so is the target (whatever it was before), and
   * each bound missile has queued exactly one fresh explosion at its own
   * position (two, interceptor first, when both share one simulation); an
   * unbound interceptor fails before touching the target, an unbound target
   * fails after the interceptor's explosion is queued.
   */
  twostate predicate Detonated(st: Status)
    reads ballistic.missile, target.missile, ballistic.missile.entity, target.missile.entity
    reads SimSet(ballistic.missile.entity.sim), SimSet(target.missile.entity.sim)
    reads Queued(ballistic.missile.entity.sim), Queued(target.missile.entity.sim)
  {
    var own, other := ballistic.missile, target.missile;
    var os, ts := own.entity.sim, other.entity.sim;
    os == old(own.entity.sim) && ts == old(other.entity.sim)
    && own.destroyed
    && (os == null ==> st == Failed(UnboundEntity)
                       && (other == own || other.destroyed == old(other.destroyed))
                       && (ts != null ==> ts.addQueue == old(ts.addQueue)))
    && (os != null ==> other.destroyed && (st == Ok <==> ts != null)
                       && (ts == null ==> st == Failed(UnboundEntity)))
    && (os != null && ts == null ==> GrewByBlastsAt(os.addQueue, old(os.addQueue), [own.entity.pos]))
    && (os != null && ts != null && os != ts
        ==> GrewByBlastsAt(os.addQueue, old(os.addQueue), [own.entity.pos])
            && GrewByBlastsAt(ts.addQueue, old(ts.addQueue), [other.entity.pos]))
    && (os != null && os == ts
        ==> GrewByBlastsAt(os.addQueue, old(os.addQueue), [own.entity.pos, other.entity.pos]))
  }

  /**
   * The body of the proximity test: detonate itself and then the target,
   * whether or not the target is already destroyed. Each detonation queues
   * one explosion at that missile's position on its own simulation; the
   * first failing detonation ends it.
   */
  method DetonateBoth() returns (st: Status)
    modifies ballistic.missile`destroyed, SimSet(ballistic.missile.entity.sim)`addQueue
    modifies target.missile`destroyed, SimSet(target.missile.entity.sim)`addQueue
    ensures Detonated(st)
    ensures st == Ok || st == Failed(UnboundEntity)
    ensures ballistic.missile.entity.sim != null
            ==> GrewByBlasts(ballistic.missile.entity.sim.addQueue, old(ballistic.missile.entity.sim.addQueue))
    ensures target.missile.entity.sim != null
            ==> GrewByBlasts(target.missile.entity.sim.addQueue, old(target.missile.entity.sim.addQueue))
  {
    var own, other := ballistic.missile, target.missile;
    st := own.Detonate();
    if st.Failed? {
      return;
    }
    ghost var os, ts := own.entity.sim, other.entity.sim;
    ghost var mid := os.addQueue;
    label First:
    st := other.Detonate();
    if ts != null && ts != os {
      assert os.addQueue == mid;
    }
    if ts == os {
      var x := os.addQueue[|mid|].explosion;
      var y := x.entity;
      assert os.addQueue[..|mid|] == mid;
      assert !old@First(allocated(x)) ==> !old(allocated(x));
    }
  }

  /**
   * The proximity test: if launched, not destroyed, and within `radius` of
   * the target, `DetonateBoth`; otherwise nothing changes.
   */
  method Engage() returns (st: Status)
    modifies ballistic.missile`destroyed, SimSet(ballistic.missile.entity.sim)`addQueue
    modifies target.missile`destroyed, SimSet(target.missile.entity.sim)`addQueue
    ensures var own, other := ballistic.missile, target.missile;
            var os, ts := own.entity.sim, other.entity.sim;
            var hit := old(ballistic.IsLaunched()) && !old(own.destroyed)
                       && Within(own.entity.pos, other.entity.pos, radius);
            (!hit ==> st == Ok && own.destroyed == old(own.destroyed) && other.destroyed == old(other.destroyed)
                      && (os != null ==> os.addQueue == old(os.addQueue))
                      && (ts != null ==> ts.addQueue == old(ts.addQueue)))
            && (hit ==> Detonated(st))
    ensures st == Ok || st == Failed(UnboundEntity)
    ensures ballistic.missile.entity.sim != null
            ==> GrewByBlasts(ballistic.missile.entity.sim.addQueue, old(ballistic.missile.entity.sim.addQueue))
    ensures target.missile.entity.sim != null
            ==> GrewByBlasts(target.missile.entity.sim.addQueue, old(target.missile.entity.sim.addQueue))
  {
    st := Ok;
    var own, other := ballistic.missile, target.missile;
    if ballistic.IsLaunched() && !own.destroyed && Within(own.entity.pos, other.entity.pos, radius) {
      st := DetonateBoth();
    }
  }

  /** The part of `tick` after the inherited ballistic step: the lock, then the proximity test. */
  method LockAndEngage(n: Guidance.Numerics) returns (st: Status)
    modifies this`targetLock, ballistic`bearing, ballistic`midcourseTime, ballistic`launchTime
    modifies ballistic.missile`destroyed, SimSet(ballistic.missile.entity.sim)`addQueue
    modifies target.missile`destroyed, SimSet(target.missile.entity.sim)`addQueue
    ensures old(targetLock) ==> targetLock && ballistic.bearing == old(ballistic.bearing)
                                && ballistic.launchTime == old(ballistic.launchTime)
    ensures targetLock && !old(targetLock) ==> old(target.bearing).Some? && ballistic.launchTime == ballistic.lifetime
    ensures !old(targetLock) && old(target.bearing).Some? ==> targetLock && ballistic.launchTime == ballistic.lifetime
    ensures !old(targetLock) && old(target.bearing).None? ==> !targetLock && ballistic.launchTime == old(ballistic.launchTime)
    ensures st == Ok || st == Failed(UnboundEntity)
    ensures ballistic.missile.entity.sim != null
            ==> GrewByBlasts(ballistic.missile.entity.sim.addQueue, old(ballistic.missile.entity.sim.addQueue))
    ensures target.missile.entity.sim != null
            ==> GrewByBlasts(target.missile.entity.sim.addQueue, old(target.missile.entity.sim.addQueue))
  {
    Lock(n);
    st := Engage();
  }

  /**
   * `super().tick(delta_t, time)`: the inherited ballistic step, seen from the
   * interceptor. It ends with the status `Ballistic.TickStatus` names, leaves
   * the lock and the target alone, and only appends fresh explosions to the
   * add queues.
   */
  method Step(dt: real) returns (st: Status)
    modifies ballistic`lifetime, ballistic.missile, ballistic.missile.entity`pos, SimSet(ballistic.missile.entity.sim)`addQueue
    ensures st == old(ballistic.TickStatus(dt))
    ensures ballistic.missile.entity.sim != null
            ==> GrewByBlasts(ballistic.missile.entity.sim.addQueue, old(ballistic.missile.entity.sim.addQueue))
    ensures target.missile.entity.sim != null
            ==> GrewByBlasts(target.missile.entity.sim.addQueue, old(target.missile.entity.sim.addQueue))
  {
    st := ballistic.Tick(dt);
  }

  /** `tick(delta_t, time)`: the inherited ballistic step, then the lock, then the proximity test. */
  method Tick(dt: real, n: Guidance.Numerics) returns (st: Status)
    modifies this`targetLock, ballistic`lifetime, ballistic`bearing, ballistic`midcourseTime, ballistic`launchTime
    modifies ballistic.missile, ballistic.missile.entity`pos, SimSet(ballistic.missile.entity.sim)`addQueue
    modifies target.missile`destroyed, SimSet(target.missile.entity.sim)`addQueue
    ensures old(targetLock) ==> targetLock && ballistic.bearing == old(ballistic.bearing)
                                && ballistic.launchTime == old(ballistic.launchTime)
    ensures targetLock && !old(targetLock) ==> old(target.bearing).Some? && ballistic.launchTime == ballistic.lifetime
    ensures var step := old(ballistic.TickStatus(dt));
            (step.Failed? ==> st == step) && (step.Ok? ==> st == Ok || st == Failed(UnboundEntity))
    ensures old(ballistic.TickStatus(dt)).Ok? && !old(targetLock) && old(target.bearing).Some?
            ==> targetLock && ballistic.launchTime == ballistic.lifetime
    ensures !old(targetLock) && old(target.bearing).None? ==> !targetLock && ballistic.launchTime == old(ballistic.launchTime)
    ensures ballistic.missile.entity.sim != null
            ==> GrewByBlasts(ballistic.missile.entity.sim.addQueue, old(ballistic.missile.entity.sim.addQueue))
    ensures target.missile.entity.sim != null
            ==> GrewByBlasts(target.missile.entity.sim.addQueue, old(target.missile.entity.sim.addQueue))
  {
    st := Step(dt);
    if st.Failed? {
      return;
    }
    assert targetLock == old(targetLock) && target.bearing == old(target.bearing)
           && ballistic.bearing == old(ballistic.bearing) && ballistic.launchTime == old(ballistic.launchTime);
    ghost var own := ballistic.missile.entity.sim;
    ghost var other := target.missile.entity.sim;
    ghost var ownMid := if own == null then [] else own.addQueue;
    ghost var otherMid := if other == null then [] else other.addQueue;
    label Ticked:
    st := LockAndEngage(n);
    if own != null {
      forall i | |ownMid| <= i < |own.addQueue| ensures Blast(own.addQueue[i]) {
        var x := own.addQueue[i].explosion;
        assert !old@Ticked(allocated(x));
      }
      Chain(own.addQueue, ownMid, old(own.addQueue));
    }
    if other != null {
      forall i | |otherMid| <= i < |other.addQueue| ensures Blast(other.addQueue[i]) {
        var x := other.addQueue[i].explosion;
        assert !old@Ticked(allocated(x));
      }
      Chain(other.addQueue, otherMid, old(other.addQueue));
    }
  }
}

/** The entity parts of what a simulation's add queue holds. */
function Queued(s: Simulation?): set<Entity>
  reads SimSet(s)
{
  if s == null then {} else EntitiesOf(s.addQueue)
}

/** `sqrt(residual.T @ residual) <= radius`, without the square root. */
predicate Within(a: Vec3, b: Vec3, radius: real) {
  radius >= 0.0 && NormSq(Sub(a, b)) <= radius * radius
}

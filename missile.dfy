/** A point mass with an acceleration accumulator, a ground clamp and a bounded tail (sim/entities/missile/missile.py). */
class Missile {
  const entity: Entity
  /** A copy of the position the missile was built at. */
  const initialPos: Vec3
  const mass: real
  /** The `maxlen` of the tail deque. */
  const tailLen: nat
  const tailColor: string
  const explosionSize: real
  const destroyMarker: string
  var vel: Vec3
  /** `_acc`: the accelerations applied since the last integration step. */
  var acc: Vec3
  var destroyed: bool
  /** `_gravity`: whether the next step adds (0, 0, -G). */
  var gravity: bool
  /** `_tail`: the positions of the latest ticks, oldest first. */
  var tail: seq<Vec3>

  /** The flight state the missile step reads and writes. */
  function Body(): Motion.Body
    reads this, entity
  {
    Motion.Body(entity.pos, vel, acc, destroyed, gravity, tail)
  }

  /**
   * `Missile(pos, vel, mass=1, size=None, color='red', tail_color='orange',
   * tail_len=150, explosion_size=10)`: a missing or zero size falls back to
   * the mass; the missile starts live, with gravity on, an empty accumulator
   * and an empty tail.
   */
  constructor (pos: Vec3, vel: Vec3, mass: real := 1.0, size: Option<real> := None, color: string := "red",
               tailColor: string := "orange", tailLen: nat := 150, explosionSize: real := 10.0)
    ensures fresh(entity)
    ensures entity.sim == null && entity.pos == pos && entity.color == color && entity.marker == "o"
    ensures entity.size == (if size.Some? && size.value != 0.0 then size.value else mass)
    ensures initialPos == pos && this.vel == vel && this.mass == mass && this.tailLen == tailLen
    ensures this.tailColor == tailColor && this.explosionSize == explosionSize && destroyMarker == "x"
    ensures !destroyed && gravity && acc == Vec3(0.0, 0.0, 0.0) && tail == []
  {
    entity := new Entity(pos, if size.Some? && size.value != 0.0 then size.value else mass, color, "o");
    initialPos := pos;
    this.vel := vel;
    this.mass := mass;
    this.tailLen := tailLen;
    this.tailColor := tailColor;
    this.explosionSize := explosionSize;
    destroyMarker := "x";
    destroyed := false;
    gravity := true;
    acc := Zero();
    tail := [];
  }

  /** `apply_accel(a)`: the accumulator gains `a`; nothing else changes. */
  method ApplyAccel(a: Vec3)
    modifies this`acc
    ensures acc == Add(old(acc), a)
  {
    acc := Add(acc, a);
  }

  /** `apply_force(f)`: the accumulator gains `f / mass`. */
  method ApplyForce(f: Vec3)
    requires mass != 0.0
    modifies this`acc
    ensures acc == Add(old(acc), Scale(1.0 / mass, f))
  {
    ApplyAccel(Scale(1.0 / mass, f));
  }

  /**
   * `detonate()`: the missile is destroyed and exactly one new explosion at
   * its position joins the add queue of its simulation (not the table).
   * Before `create` the flag is set and then the call fails.
   */
  method Detonate() returns (st: Status)
    modifies this`destroyed, SimSet(entity.sim)`addQueue
    ensures destroyed
    ensures entity.sim == null ==> st == Failed(UnboundEntity)
    ensures entity.sim != null ==> st == Ok && GrewByBlasts(entity.sim.addQueue, old(entity.sim.addQueue))
                                   && |entity.sim.addQueue| == |old(entity.sim.addQueue)| + 1
                                   && Last(entity.sim.addQueue).explosion.entity.pos == entity.pos
  {
    destroyed := true;
    if entity.sim == null {
      return Failed(UnboundEntity);
    }
    var e := new Explosion(entity.pos);
    entity.sim.AddEntity(ExplosionH(e));
    st := Ok;
  }

  /**
   * `tick(delta_t, time)`: the state becomes the missile step of the model in
   * `Motion`; a tick that clamps the missile to the ground detonates it, and
   * only then (and only if the detonation fails) does the tick fail.
   */
  method Tick(dt: real) returns (st: Status)
    modifies this, entity`pos, SimSet(entity.sim)`addQueue
    ensures Body() == Motion.Tick(old(Body()), tailLen, dt).body
    ensures var detonated := Motion.Tick(old(Body()), tailLen, dt).detonated;
            (!detonated ==> st == Ok && (entity.sim != null ==> entity.sim.addQueue == old(entity.sim.addQueue)))
            && (detonated && entity.sim == null ==> st == Failed(UnboundEntity))
            && (detonated && entity.sim != null ==>
                  st == Ok && GrewByBlasts(entity.sim.addQueue, old(entity.sim.addQueue))
                  && |entity.sim.addQueue| == |old(entity.sim.addQueue)| + 1
                  && GrewByBlastsAt(entity.sim.addQueue, old(entity.sim.addQueue), [entity.pos]))
  {
    ghost var before := Body();
    tail := Motion.Push(tail, entity.pos, tailLen);
    st := Ok;
    if entity.pos.z < 0.0 {
      entity.pos := SetZ(entity.pos, 0.0);
      destroyed := true;
      st := Detonate();
    }
    if !destroyed {
      if gravity {
        ApplyAccel(Prediction.Gravity());
      }
      entity.pos := Motion.Integrate(entity.pos, vel, acc, dt);
      vel := Add(vel, Scale(dt, acc));
      acc := Zero();
    }
  }
}

function Last(q: seq<Handle>): Handle
  requires q != []
{
  q[|q| - 1]
}

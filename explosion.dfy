/** The short-lived flash a detonation leaves behind (sim/entities/missile/explosion.py). */
class Explosion {
  const entity: Entity
  /** The `size` argument: the size the explosion grows towards. */
  const maxSize: real
  /** The `time` argument: the age at which the explosion removes itself. */
  const maxAge: real
  var age: real

  /** `Explosion(pos, size=10, color='red', time=0.1)`: age 0 and drawn size 0 (the marker is the class default 'o'). */
  constructor (pos: Vec3, size: real := 10.0, color: string := "red", time: real := 0.1)
    ensures fresh(entity)
    ensures entity.sim == null && entity.pos == pos && entity.size == 0.0 && entity.color == color && entity.marker == "o"
    ensures maxSize == size && maxAge == time && age == 0.0
  {
    entity := new Entity(pos, 0.0, color, "o");
    maxSize := size;
    maxAge := time;
    age := 0.0;
  }

  /**
   * `tick(time_delta, time)`: draw size from the age before the tick, then
   * age by `time_delta`, then ask for removal once the age reaches `max_age`.
   * A zero `max_age` fails before anything changes. The position never changes.
   */
  method Tick(dt: real, me: Handle) returns (st: Status)
    requires me == ExplosionH(this)
    modifies this, entity`size, SimSet(entity.sim)`removeQueue
    ensures var f := Fade.Tick(maxSize, maxAge, old(age), dt);
            if f.None? then
              st == Failed(DivisionByZero) && age == old(age) && entity.size == old(entity.size)
              && (entity.sim != null ==> entity.sim.removeQueue == old(entity.sim.removeQueue))
            else
              entity.size == f.value.size && age == f.value.age
              && (!f.value.expired ==> st == Ok && (entity.sim != null ==> entity.sim.removeQueue == old(entity.sim.removeQueue)))
              && (f.value.expired && entity.sim == null ==> st == Failed(UnboundEntity))
              && (f.value.expired && entity.sim != null ==> st == Ok && entity.sim.removeQueue == old(entity.sim.removeQueue) + [me])
    ensures entity.pos == old(entity.pos)
  {
    var f := Fade.Tick(maxSize, maxAge, age, dt);
    if f.None? {
      return Failed(DivisionByZero);
    }
    entity.size := f.value.size;
    age := f.value.age;
    st := Ok;
    if f.value.expired {
      st := entity.Remove(me);
    }
  }
}

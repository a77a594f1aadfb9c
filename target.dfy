/** An inert marker for a missile's aim point (sim/entities/target.py). */
class Target {
  const entity: Entity

  /** `Target(pos, color='red', marker='x', size=10)`. */
  constructor (pos: Vec3, color: string := "red", marker: string := "x", size: real := 10.0)
    ensures fresh(entity)
    ensures entity.sim == null && entity.pos == pos && entity.color == color
    ensures entity.marker == marker && entity.size == size
  {
    entity := new Entity(pos, size, color, marker);
  }

  /** `tick(*_)` does nothing: whatever the arguments, no state changes and nothing is queued. */
  method Tick(dt: real, time: real) returns (st: Status)
    ensures st == Ok
  {
    st := Ok;
  }
}

/**
 * The growth and expiry of an explosion, `Explosion.tick` in
 * sim/entities/missile/explosion.py, as a function on values. The opacity
 * `0.1 ** (age / max_age)` is a rendering value and is not modelled beyond the
 * division by `max_age` it shares with the size.
 */
module Fade {
  import opened Wrappers

  /** What one tick produces: the drawn size, the new age, and whether the explosion removes itself. */
  datatype Frame = Frame(size: real, age: real, expired: bool)

  /**
   * One tick: the size is computed from the age before the tick, then the age
   * advances, and the explosion expires once its age reaches `max_age`. None
   * stands for the ZeroDivisionError of a zero `max_age`.
   */
  function Tick(maxSize: real, maxAge: real, age: real, dt: real): (r: Option<Frame>)
    ensures r.None? <==> maxAge == 0.0
    ensures r.Some? ==> r.value.age == age + dt && (r.value.expired <==> age + dt >= maxAge)
  {
    if maxAge == 0.0 then None
    else Some(Frame(maxSize * age / maxAge, age + dt, age + dt >= maxAge))
  }

  /** A fresh explosion is drawn with size 0 on its first tick. */
  lemma FirstFrameIsEmpty(maxSize: real, maxAge: real, dt: real)
    requires maxAge != 0.0
    ensures Tick(maxSize, maxAge, 0.0, dt).value.size == 0.0
  {
  }

  lemma ScaleBelow(maxSize: real, maxAge: real, age: real)
    requires maxAge > 0.0 && 0.0 <= age <= maxAge && maxSize >= 0.0
    ensures 0.0 <= maxSize * age <= maxSize * maxAge
  {
  }

  /**
   * While it has not yet reached its age limit, an explosion is drawn no
   * larger than its `size` argument, and grows in proportion to its age.
   */
  lemma SizeWithinBounds(maxSize: real, maxAge: real, age: real, dt: real)
    requires maxAge > 0.0 && 0.0 <= age <= maxAge && maxSize >= 0.0
    ensures var s := Tick(maxSize, maxAge, age, dt).value.size;
            0.0 <= s <= maxSize && s * maxAge == maxSize * age
  {
    ScaleBelow(maxSize, maxAge, age);
    var s := Tick(maxSize, maxAge, age, dt).value.size;
    assert s == (maxSize * age) / maxAge;
    assert s * maxAge == maxSize * age;
    assert (maxSize * maxAge) / maxAge == maxSize;
  }

  /** The explosion grows: a later age gives a size at least as large. */
  lemma SizeGrows(maxSize: real, maxAge: real, age: real, later: real, dt: real, dt2: real)
    requires maxAge > 0.0 && maxSize >= 0.0 && age <= later
    ensures Tick(maxSize, maxAge, age, dt).value.size <= Tick(maxSize, maxAge, later, dt2).value.size
  {
    assert maxSize * age <= maxSize * later;
  }
}

/**
 * The flight state of a missile and one step of `Missile.tick` from
 * sim/entities/missile/missile.py, as a function on values. The `Missile`
 * class is proved to change its fields exactly as `Tick` says.
 */
module Motion {
  import opened Vectors
  import opened Prediction

  /** The fields `Missile.tick` reads and writes: pos, vel, the `_acc` accumulator, `destroyed`, `_gravity`, `_tail`. */
  datatype Body = Body(pos: Vec3, vel: Vec3, acc: Vec3, destroyed: bool, gravity: bool, tail: seq<Vec3>)

  /** The outcome of one tick: the new state and whether the tick detonated the missile. */
  datatype Step = Step(body: Body, detonated: bool)

  function MinNat(a: nat, b: nat): nat {
    if a <= b then a else b
  }

  /** The last `min(|s|, cap)` elements of `s`. */
  function Last<T>(s: seq<T>, cap: nat): seq<T> {
    s[|s| - MinNat(|s|, cap)..]
  }

  /**
   * `deque(maxlen=cap).append(x)`: the new element goes on the right and, when
   * the deque is full, the leftmost one is dropped (a zero-length deque stays empty).
   */
  function Push<T>(tail: seq<T>, x: T, cap: nat): (r: seq<T>)
    ensures |r| == MinNat(|tail| + 1, cap)
    ensures r == (tail + [x])[|tail| + 1 - |r|..]
    ensures cap > 0 ==> r[|r| - 1] == x
  {
    Last(tail + [x], cap)
  }

  /** Appending the elements of `xs` one after another. */
  function PushAll<T>(tail: seq<T>, xs: seq<T>, cap: nat): seq<T>
    decreases |xs|
  {
    if xs == [] then tail else PushAll(Push(tail, xs[0], cap), xs[1..], cap)
  }

  /**
   * A bounded tail remembers exactly the newest `cap` positions: pushing `xs`
   * into a tail that is within its bound leaves the last `cap` elements of the
   * whole history.
   */
  lemma {:induction false} PushAllKeepsNewest<T>(tail: seq<T>, xs: seq<T>, cap: nat)
    requires |tail| <= cap
    ensures PushAll(tail, xs, cap) == Last(tail + xs, cap)
    decreases |xs|
  {
    if xs == [] {
      assert tail + xs == tail;
    } else {
      var t := Push(tail, xs[0], cap);
      PushAllKeepsNewest(t, xs[1..], cap);
      assert PushAll(tail, xs, cap) == Last(t + xs[1..], cap);
      assert tail + xs == (tail + [xs[0]]) + xs[1..];
      LastThenAppend(tail + [xs[0]], xs[1..], cap);
    }
  }

  /** Truncating to the newest `cap` and then appending keeps the same newest `cap`. */
  lemma {:induction false} LastThenAppend<T>(s: seq<T>, ys: seq<T>, cap: nat)
    ensures Last(Last(s, cap) + ys, cap) == Last(s + ys, cap)
  {
    var t := Last(s, cap);
    var k := |s| - |t|;
    assert t + ys == (s + ys)[k..];
    var u := s + ys;
    assert |t + ys| == |u| - k;
    assert MinNat(|t + ys|, cap) <= |u| - k;
    assert Last(t + ys, cap) == u[k..][|u| - k - MinNat(|t + ys|, cap)..];
    assert MinNat(|t + ys|, cap) == MinNat(|u|, cap);
  }

  /** The accumulator for the integration step: gravity (0, 0, -G) is added iff the flag is set. */
  function Accel(b: Body): Vec3 {
    if b.gravity then Add(b.acc, Gravity()) else b.acc
  }

  /** `p + (v dt + 1/2 a dt^2)` on one coordinate, grouped as the source's vector sum. */
  function Advance(p: real, v: real, a: real, dt: real): real {
    p + (v * dt + 0.5 * a * (dt * dt))
  }

  /** `pos += vel * dt + 0.5 * acc * dt**2`, coordinate by coordinate. */
  function Integrate(p: Vec3, v: Vec3, a: Vec3, dt: real): Vec3 {
    Vec3(Advance(p.x, v.x, a.x, dt), Advance(p.y, v.y, a.y, dt), Advance(p.z, v.z, a.z, dt))
  }

  /**
   * One `Missile.tick(dt)` with a tail bound of `cap`: the pre-tick position is
   * appended to the tail; a missile below ground is put back on the ground,
   * destroyed and detonated, and is not integrated; a missile that is not
   * destroyed integrates with the old velocity, then updates the velocity and
   * resets the accumulator.
   */
  function Tick(b: Body, cap: nat, dt: real): Step {
    var tail := Push(b.tail, b.pos, cap);
    var clamp := b.pos.z < 0.0;
    var pos := if clamp then SetZ(b.pos, 0.0) else b.pos;
    if clamp || b.destroyed then
      Step(b.(pos := pos, destroyed := true, tail := tail), clamp)
    else
      var a := Accel(b);
      Step(Body(Integrate(pos, b.vel, a, dt), Add(b.vel, Scale(dt, a)), Zero(), false, b.gravity, tail), false)
  }

  /** Every tick appends the pre-tick position to the bounded tail. */
  lemma TickTail(b: Body, cap: nat, dt: real)
    ensures Tick(b, cap, dt).body.tail == Push(b.tail, b.pos, cap)
  {
  }

  /**
   * The ground clamp: a tick that starts below ground sets z to 0 and leaves x
   * and y, destroys and detonates the missile, and integrates nothing.
   */
  lemma TickClamps(b: Body, cap: nat, dt: real)
    requires b.pos.z < 0.0
    ensures var r := Tick(b, cap, dt);
            r.detonated && r.body.destroyed
            && r.body.pos == Vec3(b.pos.x, b.pos.y, 0.0)
            && r.body.vel == b.vel && r.body.acc == b.acc && r.body.gravity == b.gravity
  {
  }

  /**
   * A live missile above ground flies one constant-acceleration leg under the
   * accumulated acceleration (plus gravity when the flag is set), and its
   * accumulator is reset.
   */
  lemma TickIntegrates(b: Body, cap: nat, dt: real)
    requires !b.destroyed && b.pos.z >= 0.0
    ensures var r := Tick(b, cap, dt);
            var u := Uniform(b.pos, b.vel, Accel(b), dt);
            !r.detonated && !r.body.destroyed && r.body.gravity == b.gravity
            && r.body.pos == u.pos && r.body.vel == u.vel && r.body.acc == Vec3(0.0, 0.0, 0.0)
  {
    var a := Accel(b);
    var r := Tick(b, cap, dt);
    assert r.body.pos == Integrate(b.pos, b.vel, a, dt);
    assert r.body.vel == Add(b.vel, Scale(dt, a));
    IntegrateIsUniform(b.pos, b.vel, a, dt);
  }

  lemma AdvanceIsDrift(p: real, v: real, a: real, dt: real)
    ensures Advance(p, v, a, dt) == Drift(p, v, a, dt).pos
    ensures v + dt * a == Drift(p, v, a, dt).vel
  {
  }

  /** The integration step is one leg of constant-acceleration flight. */
  lemma IntegrateIsUniform(p: Vec3, v: Vec3, a: Vec3, dt: real)
    ensures var u := Uniform(p, v, a, dt);
            Integrate(p, v, a, dt) == u.pos && Add(v, Scale(dt, a)) == u.vel
  {
    AdvanceIsDrift(p.x, v.x, a.x, dt);
    AdvanceIsDrift(p.y, v.y, a.y, dt);
    AdvanceIsDrift(p.z, v.z, a.z, dt);
    var u := Uniform(p, v, a, dt);
    assert Scale(dt, a) == Vec3(dt * a.x, dt * a.y, dt * a.z);
    assert Add(v, Scale(dt, a)) == Vec3(v.x + dt * a.x, v.y + dt * a.y, v.z + dt * a.z);
    assert u.vel == Vec3(Drift(p.x, v.x, a.x, dt).vel, Drift(p.y, v.y, a.y, dt).vel, Drift(p.z, v.z, a.z, dt).vel);
  }

  /** Once destroyed, always destroyed: no tick resets the flag. */
  lemma TickKeepsDestroyed(b: Body, cap: nat, dt: real)
    requires b.destroyed
    ensures Tick(b, cap, dt).body.destroyed
  {
  }

  /** A destroyed missile on or above ground keeps position, velocity and accumulator; only the tail grows. */
  lemma TickDestroyedAtRest(b: Body, cap: nat, dt: real)
    requires b.destroyed && b.pos.z >= 0.0
    ensures var r := Tick(b, cap, dt);
            !r.detonated && r.body == b.(tail := Push(b.tail, b.pos, cap))
  {
  }

  /** Ticking once per time step of `dts`. */
  function Ticks(b: Body, cap: nat, dts: seq<real>): Body
    decreases |dts|
  {
    if dts == [] then b else Ticks(Tick(b, cap, dts[0]).body, cap, dts[1..])
  }

  /** Over any run of ticks, a destroyed missile at rest stays where it is and stays destroyed. */
  lemma {:induction false} TicksDestroyedAtRest(b: Body, cap: nat, dts: seq<real>)
    requires b.destroyed && b.pos.z >= 0.0
    ensures var r := Ticks(b, cap, dts);
            r.destroyed && r.pos == b.pos && r.vel == b.vel && r.acc == b.acc
    decreases |dts|
  {
    if dts != [] {
      TickDestroyedAtRest(b, cap, dts[0]);
      TicksDestroyedAtRest(Tick(b, cap, dts[0]).body, cap, dts[1..]);
    }
  }

  /** The tail holds min(ticks so far, cap) positions, whatever the flight did. */
  lemma {:induction false} TicksTailLength(b: Body, cap: nat, dts: seq<real>)
    requires |b.tail| <= cap
    ensures |Ticks(b, cap, dts).tail| == MinNat(|b.tail| + |dts|, cap)
    decreases |dts|
  {
    if dts != [] {
      var next := Tick(b, cap, dts[0]).body;
      assert |next.tail| == MinNat(|b.tail| + 1, cap);
      TicksTailLength(next, cap, dts[1..]);
    }
  }

  /**
   * The ground check comes before integration: a tick can end below ground
   * without destroying the missile, and the clamp only fires on the next tick.
   */
  lemma GroundCheckLags()
    ensures var b := Body(Vec3(0.0, 0.0, 0.0), Vec3(0.0, 0.0, -1.0), Vec3(0.0, 0.0, 0.0), false, false, []);
            var first := Tick(b, 150, 1.0);
            var second := Tick(first.body, 150, 1.0);
            first.body.pos.z < 0.0 && !first.detonated && !first.body.destroyed
            && second.detonated && second.body.pos.z == 0.0
  {
    var b := Body(Vec3(0.0, 0.0, 0.0), Vec3(0.0, 0.0, -1.0), Vec3(0.0, 0.0, 0.0), false, false, []);
    var first := Tick(b, 150, 1.0);
    assert first.body.pos == Vec3(0.0, 0.0, -1.0);
  }
}

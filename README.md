# missile-simulator, modelled in Dafny

A model of the simulation core of the missile simulator. A `Simulation` keeps a
table of live entities (a dictionary keyed by identity, ticked in insertion
order), an add queue and a removal queue. Entities fill the two queues while
they tick. Each `update` first flushes the queues: every queued addition is
created and inserted, then every queued removal is popped. It then ticks every
entity of the table. The clock `_last_update` moves forward by `delta_t` once
per ticked entity, not once per update, so the k-th entity of an update sees
the time `last + (k+1)·delta_t`.

The entities are:

- an inert `Target`;
- an `Explosion`, which grows and then asks for its own removal;
- a `Missile`. It has an acceleration accumulator, a bounded tail, a ground
  clamp and a `destroyed` latch;
- the rocket models:
  - `Ballistic`, with a launch time and a burn window;
  - `SimpleBallistic`, which aims itself at a fixed point;
  - `BallisticInterceptor`, which locks onto another ballistic missile once,
    launches, and detonates both missiles when it comes close;
  - the older `SimpleBalistic`, which burns from lifetime 0.

The guidance of the self-aiming missiles predicts a trajectory in closed form
(`predict_pos_vel`, `est_displacement`). It then hands a residual to a root
finder and normalises the root it gets back.

Layout:

- Pure logic lives in modules of functions and lemmas:
  - `Vectors`: the three-component vector;
  - `Prediction`: the closed-form predictor;
  - `Motion`: one missile step and the bounded tail;
  - `Rocket`: the thrust schedules of the rocket models;
  - `Fade`: the explosion's growth;
  - `Guidance` and `LegacyGuidance`: the residuals and the post-solve step;
  - `Registry`: the entity table and its two queue drains;
  - `Clock`: the tick budget of `run` and the clock of `update`.
- The entities and the simulation are classes whose methods update their
  fields. The tick methods of `Missile`, `Ballistic`, `SimpleBalistic` and
  `Explosion`, and `Simulation.Flush`, are proved to change their state
  exactly as the matching function of the pure modules says. The other
  methods state their new state in their own contracts.
- Python subclassing becomes composition: a `Ballistic` holds its `Missile`,
  and a `Missile` holds its `Entity`.
- A `Handle` names one concrete entity by identity, as the Python object does
  in the dictionary and the queues.
- Python exceptions become a `Status`:
  - an unbound `sim` is an AttributeError;
  - a missing `bearing` is an AttributeError;
  - popping an unknown entity is a KeyError;
  - a zero tick rate or a zero `max_age` is a ZeroDivisionError.
- The first failing step ends the update (and the run), leaving every change
  made before it, as the exception does in the source.

## Model

| member | source | states |
|---|---|---|
| Vectors.New | sim/util/vector.py:6-15 | a missing y and a missing z each take the value of x; the given components land at indices 0, 1 and 2 |
| Vectors.SetX | sim/util/vector.py:20-22 | the x setter changes index 0 to the new value and keeps the other two |
| Vectors.SetY | sim/util/vector.py:26-28 | the y setter changes index 1 only |
| Vectors.SetZ | sim/util/vector.py:32-34 | the z setter changes index 2 only; x and y are kept (used by the ground clamp) |
| Vectors.NewFromOne | sim/util/vector.py:9-14 | `Vector3(a)` is (a, a, a) |
| Vectors.NewFromTwo | sim/util/vector.py:9-14 | `Vector3(a, b)` is (a, b, a): z copies x rather than defaulting to 0 |
| Vectors.NewFromThree | sim/util/vector.py:14-34 | `Vector3(a, b, c)` stores the components in order, and `.x`, `.y`, `.z` read them back |
| Vectors.NormSqNonNegative | sim/entities/missile/models/ballistic_interceptor.py:82 | the squared distance compared against the radius is never negative |
| Clock.Trunc | sim/simulation.py:50 | `int()` truncates toward zero: the result is within one below (non-negative input) or one above (negative input) |
| Clock.Iterations | sim/simulation.py:53 | `range(n)` iterates n times for n ≥ 0 and never for negative n |
| Clock.DefaultBudget | sim/simulation.py:35-53 | `run()` with the defaults at 120 ticks per second performs 2400 updates |
| Clock.TimeOverridesTicks | sim/simulation.py:46-50 | a positive time decides the update count whatever tick count comes with it, and that count is ⌊time·tps⌋ |
| Clock.NegativeTime | sim/simulation.py:46-53 | negative time and ticks run 2^31−1 updates; a negative time with positive ticks runs that many |
| Clock.Start | sim/simulation.py:103 | an unset clock reads 0; a set clock keeps its value |
| Clock.Step | sim/simulation.py:104 | a given non-zero step is used as is; a missing or zero step becomes the clock plus one tick period `start + 1/tps`, and that fails exactly when tps is 0 |
| Clock.FallbackGrows | sim/simulation.py:104 | the fallback step is not one tick period: it grows with the clock, and equals `1/tps` only for a zero clock |
| Clock.TimesSpec | sim/simulation.py:106-108 | in one update the j-th tick (0-based) is passed the clock after j+1 steps, and an update of k ticks passes k times |
| Clock.TimesStep | sim/simulation.py:106-108 | each tick appends the clock plus `delta_t`, then moves the clock by `delta_t` |
| Clock.Advance | sim/simulation.py:107-108 | one pass of the loop: the tick sees `clock + dt`, and the clock then becomes that value |
| Clock.AfterClosed | sim/simulation.py:106-108 | after k ticked entities the clock has moved by exactly k·dt, so the k-th tick sees last + (k+1)·dt |
| Clock.AfterIncreasing | sim/simulation.py:106-108 | with a positive step, a later entity in the same update sees a strictly later time |
| Fade.Tick | sim/entities/missile/explosion.py:16-23 | a zero `max_age` fails; otherwise the age grows by exactly the step, and removal is asked for exactly when the new age reaches `max_age` |
| Fade.FirstFrameIsEmpty | sim/entities/missile/explosion.py:18-20 | the size comes from the age before the step, so a fresh explosion's first tick draws size 0 |
| Fade.SizeWithinBounds | sim/entities/missile/explosion.py:18 | up to its age limit an explosion is drawn between 0 and its size argument, in proportion to its age |
| Fade.SizeGrows | sim/entities/missile/explosion.py:18 | an older explosion is drawn at least as large |
| Motion.Push | sim/entities/missile/missile.py:54 | appending to a deque with `maxlen` keeps the newest min(length+1, maxlen) elements, and the new one is last |
| Motion.PushAllKeepsNewest | sim/entities/missile/missile.py:44-54 | after any sequence of appends the tail holds exactly the newest `tail_len` positions of the whole history |
| Motion.TickTail | sim/entities/missile/missile.py:54 | every tick appends the position from before the tick to the tail |
| Motion.TickClamps | sim/entities/missile/missile.py:57-61 | a tick that starts below ground sets z to 0 and keeps x and y; it destroys and detonates the missile; nothing is integrated |
| Motion.TickIntegrates | sim/entities/missile/missile.py:61-71 | a live missile above ground flies one constant-acceleration leg under the accumulator plus gravity when the flag is set; the accumulator is then reset |
| Motion.AdvanceIsDrift | sim/entities/missile/missile.py:67-68 | the position update `p + v·dt + ½·a·dt²` (old velocity) and the velocity update `v + a·dt` are one constant-acceleration leg |
| Motion.IntegrateIsUniform | sim/entities/missile/missile.py:67-68 | coordinate-wise, the integration step is the predictor's constant-acceleration leg |
| Motion.TickKeepsDestroyed | sim/entities/missile/missile.py:57-61 | no tick resets `destroyed` |
| Motion.TickDestroyedAtRest | sim/entities/missile/missile.py:57-61 | a destroyed missile on or above ground keeps position, velocity and accumulator; only the tail grows |
| Motion.TicksDestroyedAtRest | sim/entities/missile/missile.py:52-71 | over any run of ticks a destroyed missile stays destroyed and does not move |
| Motion.TicksTailLength | sim/entities/missile/missile.py:44-54 | after any run of ticks the tail length is min(ticks so far, `tail_len`) |
| Motion.GroundCheckLags | sim/entities/missile/missile.py:57-67 | the ground check comes before integration: a tick can end below ground undestroyed, and the clamp fires on the next tick |
| Prediction.BoostAcc | sim/entities/missile/models/ballistic.py:64-66 | the burn acceleration is `burn_acc·bearing` plus (0, 0, −G) |
| Prediction.BurnLegIsDrift | sim/entities/missile/models/ballistic.py:64-66 | the burn leg, accumulated as the source does, is constant-acceleration flight under thrust plus gravity |
| Prediction.AxisDuringBurn | sim/entities/missile/models/ballistic.py:63-66 | on each axis, up to the end of the burn, the prediction is a single constant-acceleration leg |
| Prediction.AxisAfterBurn | sim/entities/missile/models/ballistic.py:63-75 | on each axis, after the burn, the prediction is the burn leg followed by a gravity-only leg |
| Prediction.PredictDuringBurn | sim/entities/missile/models/ballistic.py:63-66 | for t ≤ burn_time: pos = p0 + v0·t + ½·a·t² and vel = v0 + a·t with a = burn_acc·bearing + g |
| Prediction.PredictAfterBurn | sim/entities/missile/models/ballistic.py:63-75 | for t > burn_time the boost-end state coasts for t − burn_time under gravity alone |
| Prediction.ContinuousAtBurnEnd | sim/entities/missile/models/ballistic.py:63-75 | the coast formula at t = burn_time equals the burn branch, so the prediction has no jump |
| Prediction.FreeFall | sim/entities/missile/models/ballistic.py:63-74 | with `burn_acc` = 0 the prediction is free fall p0 + v0·t + ½·g·t² for every t |
| Prediction.FreeFallAfterBurn | sim/entities/missile/models/ballistic.py:70-74 | the coast branch without thrust is also free fall |
| Prediction.PredictedVelocity | sim/entities/missile/models/ballistic.py:66-74 | the predicted velocity is v0 + burn_acc·bearing·min(burn_time, t) + g·t for every t |
| Guidance.Abs | sim/entities/missile/models/simpleballistic.py:81 | `abs` is non-negative and equals the argument or its negation |
| Guidance.UnitBearing | sim/entities/missile/models/simpleballistic.py:72-77 | `to_bearing(θ, φ)` is a unit vector wherever the sine and cosine satisfy sin² + cos² = 1 |
| Guidance.Normalise | sim/entities/missile/models/simpleballistic.py:96-101 | the returned midcourse time is \|m\| of the root, never negative |
| Guidance.SolveSimpleBallistic | sim/entities/missile/models/simpleballistic.py:91-101 | `compute_bearing` always returns a non-negative midcourse time |
| Guidance.SimpleBallisticCostEven | sim/entities/missile/models/simpleballistic.py:79-89 | the cost sees its third unknown only through its absolute value |
| Guidance.SimpleBallisticRootHits | sim/entities/missile/models/simpleballistic.py:79-101 | when the solver returns a root, flying the returned bearing for burn_time + midcourse_time ends on the target |
| Guidance.SolveInterceptor | sim/entities/missile/models/ballistic_interceptor.py:59-66 | the interceptor's `compute_bearing` returns a non-negative midcourse time |
| Guidance.InterceptorCostEven | sim/entities/missile/models/ballistic_interceptor.py:45-57 | the interceptor's cost sees its third unknown only through its absolute value |
| Guidance.InterceptorRootMeets | sim/entities/missile/models/ballistic_interceptor.py:45-66 | at a root, interceptor and target are predicted at the same place at the interceptor's burn_time + midcourse_time |
| LegacyGuidance.EstDisplacementEven | sim/entities/missile/models/simplebalistic.py:64 | `est_displacement` does not depend on the sign of the midcourse time |
| LegacyGuidance.EstAxisClosed | sim/entities/missile/models/simplebalistic.py:66-75 | on each axis the accumulated terms are burn_acc·b·(½T² + T·m) + ½·g·(T + m)² |
| LegacyGuidance.EstDisplacementClosed | sim/entities/missile/models/simplebalistic.py:66-75 | `est_displacement(b, m)` = burn_acc·b·(½T² + T·\|m\|) + (0, 0, −G)·½(T + \|m\|)² |
| LegacyGuidance.EstDisplacementHorizontal | sim/entities/missile/models/simplebalistic.py:70-73 | gravity acts on z only: x and y are the thrust term alone |
| LegacyGuidance.EstAxisAgrees | sim/entities/missile/models/simplebalistic.py:57-75 | on each axis the estimate is the predictor's displacement from rest |
| LegacyGuidance.EstDisplacementAgrees | sim/entities/missile/models/simplebalistic.py:57-75 | `est_displacement(b, m)` equals the displacement `predict_pos_vel` gives from zero velocity at T + \|m\|: the two closed forms agree |
| LegacyGuidance.SolveLegacy | sim/entities/missile/models/simplebalistic.py:98-106 | the legacy `compute_bearing` returns the normalised bearing of the root and drops its midcourse time |
| LegacyGuidance.LegacyRootHits | sim/entities/missile/models/simplebalistic.py:89-106 | at a root of the legacy cost, the predictor flown from rest along the returned bearing reaches the target |
| Registry.Insert | sim/simulation.py:67 | inserting by identity appends a new key and leaves an existing key in place |
| Registry.Without | sim/simulation.py:72 | taking a key out leaves exactly the other keys, in their insertion order |
| Registry.WithoutAt | sim/simulation.py:72 | in a duplicate-free table, popping the key at position i closes the gap: the keys before and after i keep their order |
| Registry.WithoutAbsent | sim/simulation.py:72 | taking out an absent key changes nothing |
| Registry.KeepWithout | sim/simulation.py:70-72 | popping k and then filtering out a list of keys is filtering out k followed by that list, so a drain of pops is one order-keeping filter |
| Registry.KeepNone | sim/simulation.py:70-72 | filtering out no keys keeps the table |
| Registry.Remove | sim/simulation.py:72 | `pop` succeeds exactly when the key is present, and then leaves exactly the other keys, in their insertion order |
| Registry.WithoutKeepsDistinct | sim/simulation.py:72 | a pop keeps the table free of duplicates and shrinks it by one exactly when the key was present |
| Registry.InsertKeepsDistinct | sim/simulation.py:67 | an insertion keeps the table free of duplicates |
| Registry.InsertAllSpec | sim/simulation.py:64-67 | the add loop keeps the old keys in their order, adds no duplicates, and leaves exactly the old and the queued keys |
| Registry.InsertAllFresh | sim/simulation.py:64-67 | distinct new entities are appended in queue order |
| Registry.RemoveAllSpec | sim/simulation.py:70-72 | the removal loop drains its queue exactly when every queued entity is in the table and none is queued twice; it then leaves exactly the other keys, in their insertion order |
| Registry.DoubleRemoveFails | sim/simulation.py:70-72 | removing the same entity twice in one flush fails |
| Registry.AddThenRemove | sim/simulation.py:62-72 | additions are flushed before removals, so an entity added and removed before one flush ends up absent and the flush succeeds |
| Rocket.BallisticThrust | sim/entities/missile/models/ballistic.py:84-86 | thrust `burn_acc·bearing` is commanded exactly inside launch_time ≤ lifetime ≤ launch_time + burn_time; with no bearing there it fails |
| Rocket.LegacyThrust | sim/entities/missile/models/simplebalistic.py:127-128 | the legacy missile thrusts exactly while lifetime ≤ burn_time |
| Rocket.BurnChargesAccumulator | sim/entities/missile/models/ballistic.py:78-86 | a burning tick leaves exactly `burn_acc·bearing` in the accumulator, so the thrust is integrated on the next tick; gravity is then on |
| Rocket.BurnStepIsBoost | sim/entities/missile/models/ballistic.py:78-86 | with the thrust charged and gravity on, a missile step flies the predictor's boost acceleration |
| Rocket.CoastStepIsFreeFlight | sim/entities/missile/models/ballistic.py:78-86 | with an empty accumulator and gravity on, a missile step flies under gravity alone |
| Rocket.WaitsOnPad | sim/entities/missile/models/ballistic.py:78-86 | before its launch time a resting ballistic missile does not move or fall, and commands no thrust |
| Rocket.PadTick | sim/entities/missile/missile.py:61-71 | without gravity and at rest, the missile step changes nothing but the tail |
| Rocket.StaysOnPad | sim/entities/missile/models/ballistic.py:78-86 | over any run of non-negative steps that ends before launch, the missile stays where it is and its lifetime grows by their sum |
| Rocket.NeverBurnsBeforeLaunch | sim/entities/missile/models/ballistic.py:84-85 | before its launch time a missile never thrusts |
| Entity.constructor | sim/entities/entity.py:12-20 | an entity starts unbound (no `sim` yet) with the given position, size, colour and marker |
| Entity.Create | sim/entities/entity.py:22-23 | `create` binds the simulation and changes no other field |
| Entity.Remove | sim/entities/entity.py:25-26 | `remove` appends exactly this entity to its simulation's removal queue and does not touch the table; before `create` it fails |
| Target.constructor | sim/entities/target.py:13-19 | the given position and colour are kept; the marker defaults to 'x' and the size to 10 |
| Target.Tick | sim/entities/target.py:21 | ticking a target succeeds and changes nothing: it never moves, never queues an entity, never asks for removal |
| Explosion.constructor | sim/entities/missile/explosion.py:6-14 | age 0 and drawn size 0; the size argument (default 10) and the time argument (default 0.1) are kept |
| Explosion.Tick | sim/entities/missile/explosion.py:16-23 | the drawn size and age follow `Fade.Tick`; removal is queued exactly when the new age reaches `max_age`; the explosion's own tick never moves it |
| Missile.constructor | sim/entities/missile/missile.py:21-44 | live, gravity on, empty accumulator and tail; `initial_pos` is the given position; a missing or zero size falls back to the mass |
| Missile.ApplyAccel | sim/entities/missile/missile.py:46-47 | the accumulator gains the acceleration; nothing else changes |
| Missile.ApplyForce | sim/entities/missile/missile.py:49-50 | the accumulator gains force / mass |
| Missile.Detonate | sim/entities/missile/missile.py:73-75 | the missile is destroyed and exactly one fresh explosion at its position joins its simulation's add queue (not the table) |
| Missile.Tick | sim/entities/missile/missile.py:52-71 | the new state is `Motion.Tick` of the old one; a clamping tick queues exactly one fresh explosion, at the clamped position, and any other tick queues nothing |
| Ballistic.constructor | sim/entities/missile/models/ballistic.py:13-30 | lifetime 0, at rest, gravity off, the given launch time (default 2^31−1, not launched), no bearing yet |
| Ballistic.Launch | sim/entities/missile/models/ballistic.py:41-46 | after `launch` the launch time is the current lifetime and the missile is launched |
| Ballistic.Tick | sim/entities/missile/models/ballistic.py:78-86 | the missile step, then `Rocket.BallisticControl`: lifetime += dt, gravity iff launched, thrust of the burn window; a missing bearing in the window fails; the status is `Ballistic.TickStatus` of the state before the tick |
| SimpleBallistic.constructor | sim/entities/missile/models/simpleballistic.py:27-37 | the default launch time is 0, so the missile counts as launched from lifetime 0 |
| SimpleBallistic.Create | sim/entities/missile/models/simpleballistic.py:39-42 | `create` binds the simulation, then sets the bearing and a non-negative midcourse time from `compute_bearing` |
| BallisticInterceptor.constructor | sim/entities/missile/models/ballistic_interceptor.py:14-28 | not locked, radius default 5, the inherited never-launched launch time |
| BallisticInterceptor.Lock | sim/entities/missile/models/ballistic_interceptor.py:71-78 | when not locked and the target has a bearing, it plans the interception course, locks and launches; otherwise nothing changes |
| BallisticInterceptor.DetonateBoth | sim/entities/missile/models/ballistic_interceptor.py:83-84 | `detonate()` then `target.detonate()`, with the outcome the predicate `Detonated` names: the interceptor is destroyed; if it is bound, so is the target, whatever its state before; each bound missile has queued exactly one fresh explosion at its own position, two in the order interceptor then target when both share a simulation; an unbound interceptor fails before touching the target or any queue, and an unbound target fails after the interceptor's explosion is queued; no other failure is possible |
| BallisticInterceptor.Engage | sim/entities/missile/models/ballistic_interceptor.py:80-84 | when launched, not destroyed and within the radius, both missiles are detonated with the outcome `Detonated` (the target even if it is already destroyed); otherwise neither missile and neither add queue changes; the only failure is an unbound missile |
| BallisticInterceptor.LockAndEngage | sim/entities/missile/models/ballistic_interceptor.py:71-84 | a lock is never lost or redone; when unlocked with a target bearing it locks and launches on this tick, and a new lock implies the target had a bearing; without a target bearing it neither locks nor launches; the only failure is an unbound missile in the proximity test; the add queues grow only by fresh explosions |
| BallisticInterceptor.Step | sim/entities/missile/models/ballistic_interceptor.py:69 | the inherited ballistic step ends with `Ballistic.TickStatus` of the state before it and only appends fresh explosions to both add queues |
| BallisticInterceptor.Tick | sim/entities/missile/models/ballistic_interceptor.py:68-84 | a failing ballistic step (`Ballistic.TickStatus` of the old state) is the tick's status; after a successful one the tick either succeeds or fails on an unbound missile in the proximity test; the lock is one-shot; when unlocked with a target bearing and the ballistic step succeeds, it locks and launches; a new lock implies the target had a bearing, and without one nothing locks or launches; the add queues grow only by fresh explosions |
| SimpleBalistic.constructor | sim/entities/missile/models/simplebalistic.py:36-50 | lifetime 0 and at rest, with gravity left on from the missile default |
| SimpleBalistic.Create | sim/entities/missile/models/simplebalistic.py:52-55 | `create` binds the simulation, then sets the bearing the legacy `compute_bearing` returns |
| SimpleBalistic.Tick | sim/entities/missile/models/simplebalistic.py:122-128 | the missile step, then `Rocket.LegacyControl`: lifetime += dt, then thrust while lifetime ≤ burn_time |
| Simulation.constructor | sim/simulation.py:24-33 | the initial entities wait in the add queue in order; the table and the removal queue are empty; the clock is unset; no update has been called and no entity ticked (`log` and `trace` are empty) |
| Simulation.Run | sim/simulation.py:35-57 | no update for a zero time or tick count, and a zero tick rate fails at once, both with nothing changed; otherwise `update(1/tps)` is called (`log` grows by one `Some(1.0 / tps)` per call) `Clock.Budget` times when every update succeeds, and up to and including the first failing update otherwise; `updates` is the number of those calls that succeeded |
| Simulation.AddEntity | sim/simulation.py:59-60 | `add_entity` appends to the add queue only |
| Simulation.RemoveEntity | sim/simulation.py:74-75 | `remove_entity` appends to the removal queue only |
| Simulation.CreateEntity | sim/simulation.py:66 | `e.create(self)` binds the entity; a self-aiming missile also gets its bearing |
| Simulation.Flush | sim/simulation.py:62-72 | the add queue is emptied into the table before any removal; the table becomes `RemoveAll(InsertAll(…))`; an unknown removal fails and leaves the rest queued |
| Simulation.FlushAdds | sim/simulation.py:64-67 | every queued entity is created and inserted front to back, and the add queue ends empty |
| Simulation.FlushRemovals | sim/simulation.py:70-72 | the removal queue is popped front to back; it ends empty, or a KeyError leaves what was behind the unknown entity |
| Simulation.AdmitNext | sim/simulation.py:65-67 | one pass: pop the front of the add queue, create it, insert it |
| Simulation.TickEntity | sim/simulation.py:107 | whatever the class, a tick only grows the add queue by fresh unbound explosions, and only an explosion may queue itself for removal |
| Simulation.Update | sim/simulation.py:96-108 | the call is recorded in `log`; flush first, then tick only the flushed table (entities added meanwhile wait in the queue); the ticks go to the flushed table's entities in insertion order (`trace` grows by exactly its first `|times|` entries, so the j-th tick goes to the j-th entity); the tick times are `Clock.Times(start, dt, n)`, and the clock ends at `Clock.After(start, dt, n)`; a flush failure or a zero tick rate stops before any tick, with `trace` unchanged |
| Simulation.TickPhase | sim/simulation.py:103-108 | after the flush: the clock becomes `_last_update or 0`; a fallback on a zero tick rate fails with no tick; otherwise the table is ticked as `TickAll` says with the step of `Clock.Step` |
| Simulation.TickAll | sim/simulation.py:106-108 | the for loop ticks the table in order: `trace` grows by exactly the table's first `|times|` entries, so the j-th tick goes to the j-th entity, with times `Clock.Times`; every entity is ticked when no tick fails; the table is unchanged and new entities only queue |
| Simulation.TickStep | sim/simulation.py:106-108 | one pass: the entity after those already ticked (`entities[|times|]`) is ticked and recorded in `trace`, which then holds the table's first `|times| + 1` entries after what it held before the loop, at clock + dt, and the clock then advances by dt when the tick succeeds |
| Simulation.TickNext | sim/simulation.py:107 | one tick of `h`, recorded as the last entry of `trace` by the method whose frame is `h`'s parts; it keeps the simulation's invariant: the table is a dictionary of entities bound to this simulation |

## Left out

- Rendering is not part of this model: the `draw` methods, the `Renderer` and
  `display.refresh` in `run`, `show` and `save`. Neither are the tqdm progress
  bar and the `print` diagnostics of the legacy `compute_bearing`.
- SciPy's `fsolve` and NumPy's `sin` and `cos` are oracles in a `Numerics`
  value. Every property holds for every oracle. The only assumption, in
  `Guidance.UnitBearing`, is that sin² + cos² = 1.
- The explosion's opacity `0.1 ** (age / max_age)` is left out, since it is
  only used for drawing.
- `est_trajectory` and `_trajectory` are left out: the sampled points are
  only drawn. `Ballistic.est_trajectory` (sim/entities/missile/models/ballistic.py:32-39),
  which the interceptor's lock calls
  (sim/entities/missile/models/ballistic_interceptor.py:75), always takes 100
  samples. The override in SimpleBallistic
  (sim/entities/missile/models/simpleballistic.py:45-64), which its `create`
  calls (line 43), can raise a ValueError. One case is a zero burn time with a zero
  midcourse time, where the sample count is `int(nan)`. Another is a
  negative sample count, as with a burn time of -1 and a midcourse time of 3.
  SimpleBallistic.Create does not model that error path and always succeeds.
- Floating point: every quantity is a real number, so there is no rounding.
  `int()` in `run` is modelled exactly as truncation toward zero.
- The `np.sqrt` of the proximity test is replaced by comparing squared
  distances, with the radius required to be non-negative. A negative radius
  never fires in the source either.
- Vector aliasing: vectors are values. In the source an entity keeps the very
  array it was given, and an explosion shares its missile's position array
  (sim/entities/missile/missile.py:75). The model gives the explosion a copy.
  The two differ in one case. A missile can end a tick below ground without
  being destroyed, and then be detonated by an interceptor's proximity test
  at z < 0. On its next tick the ground clamp sets its z to 0 and detonates
  it again (sim/entities/missile/missile.py:57-60). In the source that clamp
  also moves the first explosion to z = 0. In the model the first explosion
  stays where it was created, below ground. The second explosion is queued
  in both. `Explosion.Tick` states that an explosion's own tick never moves
  it, which holds in the source too; what it does not cover is a missile's
  tick moving a shared array.
- Python `id()`: a `Handle` compares entities by object identity, which is
  what `id` keys amount to.
- `Missile` has no handle of its own: the source only puts its subclasses in
  a simulation.
- `Ballistic.create` and `BallisticInterceptor.create` only call
  `Entity.create`. The model dispatches them there.
- `predict_pos_vel` and `is_launched` are functions of their missile's
  fields (`Ballistic.PredictPosVel`, `Ballistic.IsLaunched`). Their properties
  are stated in `Prediction` and `Rocket`.
- The `time` argument of `tick` is passed to no entity except `Target`, since
  no entity reads it.
- `G` is 9.81. sim/util/__init__.py is not part of this model, and no proved
  property depends on the value.
- `explosion_size` is stored and never used, in the model as in the source.
- A `tail_len` is a `nat`. A negative `maxlen`, which the deque rejects, is
  not modelled.
- Missile.ApplyForce: requires a non-zero mass. NumPy would produce
  infinities instead, and those are not real numbers.
- Entity.Remove: requires that `me` is the handle of this entity, which ties
  the model's handle to the Python object. Explosion.Tick requires the same.
- SimpleBallistic.Create: always succeeds. The ValueError that the source's
  `est_trajectory` can raise during creation is not modelled (see the
  `est_trajectory` line above).
- Simulation.Run: requires the simulation invariant `Valid`. It holds after
  the constructor when no initial entity is bound yet, and every operation
  keeps it. Entities bound to a different simulation are not modelled.
- Simulation.Run: states which updates it calls (the `log`), how many
  succeed and when it stops early, not the states it passes through. Those
  are stated per update by `Simulation.Update`.
- Simulation.Update: states the table, the queues and the clock after the
  update, not each entity's new state. The class `Tick` methods state those.
- Simulation.TickAll: states the same as Update for the loop alone, likewise
  without each entity's new state. `trace` records which entity each tick
  went to, as the handle given to the method that ticks it; that method's
  frame is the handle's own parts.
- Simulation.TickEntity: states only what holds for every class (the queues,
  the bindings, the table and the clock). Each class's new state is stated by
  the `Tick` method it dispatches to.
- BallisticInterceptor.Tick: states the lock, the status and the growth of
  the add queues, not the flight state or which missiles detonated. Those are stated
  by `Ballistic.Tick`, `BallisticInterceptor.Lock` and
  `BallisticInterceptor.Engage`, which it calls in that order. Its lock
  clause holds whenever the ballistic step succeeds; a failing ballistic
  step returns before the lock, as the exception does in the source, and
  its status is the tick's.
- BallisticInterceptor.LockAndEngage: likewise does not restate which
  missiles `Engage` detonated or what it queued. `Engage` and `Detonated`
  state that.

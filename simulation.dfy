/**
 * The world loop of sim/simulation.py: an entity table ticked in insertion
 * order, an add queue and a removal queue that entities fill during a tick
 * and that the next update flushes, and the clock `_last_update`.
 */
class Simulation {
  /** The keys of `entities`, in insertion order. */
  var entities: seq<Handle>
  var addQueue: seq<Handle>
  var removeQueue: seq<Handle>
  /** `_last_update`: None until the first update. */
  var lastUpdate: Option<real>
  /** `_tps`: ticks per second. */
  const tps: real
  /** The entities ticked so far, one entry per entity tick, in the order of the ticks. */
  ghost var trace: seq<Handle>
  /** The `delta_t` argument of every `update` called so far, in call order. */
  ghost var log: seq<Option<real>>

  /** Every entity part in `es` is unbound or bound to this simulation. */
  predicate Attached(es: set<Entity>)
    reads es`sim
  {
    forall e :: e in es ==> e.sim == null || e.sim == this
  }

  /**
   * The table is a dictionary, every entity in it has been created in this
   * simulation, and nothing in the table or the add queue (an interceptor's
   * target included) is bound to another simulation.
   */
  ghost predicate Valid()
    reads this`entities, this`addQueue, EntitiesOf(entities + addQueue)`sim
  {
    Registry.Distinct(entities) && Created(entities) && Attached(EntitiesOf(entities + addQueue))
  }

  /** Every handle in `hs` has been created in this simulation. */
  predicate Created(hs: seq<Handle>)
    reads EntitiesOf(hs)`sim
  {
    forall h :: h in hs ==> h.Base().sim == this
  }

  lemma CreatedSubset(a: seq<Handle>, b: seq<Handle>)
    requires (forall h :: h in a ==> h in b) && Created(b)
    ensures Created(a)
  {
  }

  lemma AttachedSubset(a: set<Entity>, b: set<Entity>)
    requires a <= b && Attached(b)
    ensures Attached(a)
  {
  }

  /** Every object an update may change. */
  ghost function Footprint(): set<object>
    reads this`entities, this`addQueue
  {
    EntitiesOf(entities + addQueue) + ObjectsOf(entities + addQueue)
  }

  /**
   * `Simulation(entities, tps=120)`: the initial entities wait in the add
   * queue; the table and the removal queue are empty and the clock is unset.
   * The window that draws frames is not part of this model.
   */
  constructor (initial: seq<Handle>, tps: real := 120.0)
    ensures entities == [] && addQueue == initial && removeQueue == [] && lastUpdate.None? && this.tps == tps
    ensures trace == [] && log == []
    ensures (forall h :: h in initial ==> forall e :: e in h.Entities() ==> e.sim == null) ==> Valid()
  {
    entities := [];
    addQueue := initial;
    removeQueue := [];
    lastUpdate := None;
    this.tps := tps;
    trace := [];
    log := [];
  }

  /**
   * `run(time=20, ticks=-1)`: `Clock.Budget` updates, each `update(1/tps)`.
   * A zero time or tick count returns at once; with a positive budget and no
   * ticks per second, `1/tps` raises before anything changes. Otherwise
   * `update(1/tps)` is called (the `log` records each call) until the budget
   * is spent or an update fails; `updates` counts the updates that completed.
   * Refreshing the window after each update is not part of this model.
   */
  method Run(n: Guidance.Numerics, time: real := 20.0, ticks: int := -1) returns (st: Status, updates: nat)
    requires Valid()
    modifies this, Footprint()
    ensures Valid() && fresh(Footprint() - old(Footprint()))
    ensures var budget := Clock.Budget(time, ticks, tps);
            (budget == 0 ==> st == Ok && unchanged(this))
            && (budget > 0 && tps == 0.0 ==> st == Failed(DivisionByZero) && unchanged(this))
            && (st.Ok? ==> updates == budget)
            && (st.Failed? ==> updates < budget)
            && (budget > 0 && tps != 0.0
                ==> log == old(log) + Repeat(Some(1.0 / tps), if st.Ok? then updates else updates + 1))
  {
    var budget := Clock.Budget(time, ticks, tps);
    st, updates := Ok, 0;
    if budget == 0 {
      return;
    }
    if tps == 0.0 {
      return Failed(DivisionByZero), 0;
    }
    ghost var start := Footprint();
    while updates < budget && st.Ok?
      invariant Valid() && fresh(Footprint() - start)
      invariant updates <= budget && (st.Failed? ==> updates < budget)
      invariant log == old(log) + Repeat(Some(1.0 / tps), if st.Ok? then updates else updates + 1)
      decreases budget - updates, st.Ok?
    {
      ghost var before := Footprint();
      label Before:
      var times, ticked;
      st, times, ticked := Update(Some(1.0 / tps), n);
      forall o | o in Footprint() && o !in before ensures fresh(o) {
        assert !old@Before(allocated(o));
      }
      FreshSince(Footprint(), before, start);
      if st.Ok? {
        updates := updates + 1;
      }
    }
  }

  /** Objects new since `mid`, and objects of `mid` new since `start`, are new since `start`. */
  twostate lemma FreshSince(new now: set<object>, new mid: set<object>, start: set<object>)
    requires fresh(mid - start)
    requires forall o | o in now && o !in mid :: fresh(o)
    ensures fresh(now - start)
  {
    forall o | o in now - start ensures fresh(o) {
      if o in mid {
        assert o in mid - start;
      } else {
        assert o in now && o !in mid;
      }
    }
  }

  /** `add_entity(e)`: queued for the next flush, not yet in the table. */
  method AddEntity(h: Handle)
    modifies this`addQueue
    ensures addQueue == old(addQueue) + [h]
  {
    addQueue := addQueue + [h];
  }

  /** `remove_entity(e)`: queued for removal at the next flush. */
  method RemoveEntity(h: Handle)
    modifies this`removeQueue
    ensures removeQueue == old(removeQueue) + [h]
  {
    removeQueue := removeQueue + [h];
  }

  /** `e.create(self)`, dispatched on the concrete class. */
  method CreateEntity(h: Handle, n: Guidance.Numerics)
    modifies h.Base()`sim, AimedOf([h])`bearing, AimedOf([h])`midcourseTime, LegacyOf([h])`bearing
    ensures h.Base().sim == this
    ensures h.SimpleBallisticH? ==>
              var b := h.simple.ballistic;
              var sol := Guidance.SolveSimpleBallistic(n, b.Launcher(), h.simple.target);
              b.bearing == Some(sol.bearing) && b.midcourseTime == Some(sol.midcourseTime)
    ensures h.LegacyH? ==>
              var l := h.legacy;
              l.bearing == Some(LegacyGuidance.SolveLegacy(n, l.missile.entity.pos, l.target, l.burnAcc, l.burnTime))
  {
    match h
    case TargetH(t) => t.entity.Create(this);
    case ExplosionH(e) => e.entity.Create(this);
    case BallisticH(b) => b.missile.entity.Create(this);
    case SimpleBallisticH(s) => s.Create(this, n);
    case InterceptorH(i) => i.ballistic.missile.entity.Create(this);
    case LegacyH(l) => l.Create(this, n);
  }

  /**
   * `_flush_entity_queue()`: every queued entity is created and inserted,
   * front to back, then every queued removal is popped from the table; a
   * removal of an entity not in the table is a KeyError that leaves the rest
   * of the removal queue in place.
   */
  method Flush(n: Guidance.Numerics) returns (st: Status)
    requires Valid()
    modifies this`entities, this`addQueue, this`removeQueue, EntitiesOf(addQueue)`sim
    modifies AimedOf(addQueue)`bearing, AimedOf(addQueue)`midcourseTime, LegacyOf(addQueue)`bearing
    ensures Valid()
    ensures addQueue == []
    ensures match Registry.RemoveAll(Registry.InsertAll(old(entities), old(addQueue)), old(removeQueue))
            case Drained(live) => st == Ok && entities == live && removeQueue == []
            case Missing(live, _, rest) => st == Failed(UnknownEntity) && entities == live && removeQueue == rest
    ensures forall h :: h in entities ==> h in old(entities) || h in old(addQueue)
  {
    FlushAdds(n);
    ghost var admitted := entities;
    assert admitted + addQueue == admitted;
    assert Created(admitted) && Attached(EntitiesOf(admitted));
    st := FlushRemovals();
    assert Created(admitted) && Attached(EntitiesOf(admitted));
    assert entities + addQueue == entities;
    EntitiesOfMono(entities, admitted);
    AttachedSubset(EntitiesOf(entities), EntitiesOf(admitted));
    CreatedSubset(entities, admitted);
  }

  /** The first loop of `_flush_entity_queue`: create and insert the queued entities, front to back. */
  method FlushAdds(n: Guidance.Numerics)
    requires Valid()
    modifies this`entities, this`addQueue, EntitiesOf(addQueue)`sim
    modifies AimedOf(addQueue)`bearing, AimedOf(addQueue)`midcourseTime, LegacyOf(addQueue)`bearing
    ensures Valid()
    ensures addQueue == [] && entities == Registry.InsertAll(old(entities), old(addQueue))
    ensures forall h :: h in entities ==> h in old(entities) || h in old(addQueue)
  {
    ghost var pool := entities + addQueue;
    ghost var adds := addQueue;
    ghost var inserted := Registry.InsertAll(entities, addQueue);
    ghost var i := 0;
    while addQueue != []
      modifies this`entities, this`addQueue, EntitiesOf(adds)`sim, AimedOf(adds)`bearing, AimedOf(adds)`midcourseTime
      modifies LegacyOf(adds)`bearing
      invariant Registry.InsertAll(entities, addQueue) == inserted
      invariant 0 <= i <= |adds| && addQueue == adds[i..]
      invariant forall h :: h in entities ==> h in pool
      invariant Attached(EntitiesOf(pool))
      invariant Created(entities) && Registry.Distinct(entities)
      decreases |addQueue|
    {
      assert addQueue[0] == adds[i];
      AdmitNext(n, pool);
      i := i + 1;
    }
    EntitiesOfMono(entities, pool);
  }

  /**
   * `entity.tick(delta_t, time)`, dispatched on the concrete class. Whatever
   * the class, the add queue only grows, by fresh unbound explosions, and only
   * an explosion asks for its own removal.
   */
  method TickEntity(h: Handle, dt: real, time: real, n: Guidance.Numerics, ghost es: set<Entity>) returns (st: Status)
    requires Attached(h.Entities())
    modifies h.Objects(), h.Entities()`pos, h.Entities()`size, this`addQueue, this`removeQueue
    ensures GrewByBlasts(addQueue, old(addQueue))
    ensures removeQueue == old(removeQueue) || (h.ExplosionH? && removeQueue == old(removeQueue) + [h])
    ensures h.TargetH? ==> st == Ok
    ensures forall e | e in es :: e.sim == old(e.sim)
    ensures entities == old(entities) && lastUpdate == old(lastUpdate)
  {
    match h
    case TargetH(t) => st := t.Tick(dt, time);
    case ExplosionH(e) => st := e.Tick(dt, h);
    case BallisticH(b) => st := b.Tick(dt);
    case SimpleBallisticH(s) => st := s.ballistic.Tick(dt);
    case InterceptorH(i) => st := i.Tick(dt, n);
    case LegacyH(l) => st := l.Tick(dt);
  }

  /** Appending unbound explosions to the add queue keeps every part attached. */
  lemma AttachedBlasts(a: seq<Handle>, q: seq<Handle>)
    requires Attached(EntitiesOf(a))
    requires forall j :: 0 <= j < |q| ==> q[j].ExplosionH? && q[j].explosion.entity.sim == null
    ensures Attached(EntitiesOf(a + q))
  {
    forall e | e in EntitiesOf(a + q) ensures e.sim == null || e.sim == this {
      var h :| h in a + q && e in h.Entities();
      if h !in a {
        var j :| 0 <= j < |q| && q[j] == h;
      }
    }
  }

  /**
   * `update(delta_t=None)`: flush the queues; set the clock to `_last_update
   * or 0`; take `delta_t`, or `_last_update + 1/tps` when it is missing or
   * zero; then tick every entity of the table in insertion order with the
   * time `_last_update + delta_t`, advancing the clock by `delta_t` after
   * each entity. `times` are the time arguments of the ticks made, and
   * `trace` grows by the entities they went to. The first failing tick ends
   * the update, with the clock not yet advanced for it.
   */
  method Update(deltaT: Option<real>, n: Guidance.Numerics) returns (st: Status, times: seq<real>, ticked: nat)
    requires Valid()
    modifies this, Footprint()
    ensures Valid() && log == old(log) + [deltaT]
    ensures fresh(Footprint() - old(Footprint()))
    ensures forall j :: 0 <= j < |addQueue| ==> Blast(addQueue[j])
    ensures var flushed := Registry.RemoveAll(Registry.InsertAll(old(entities), old(addQueue)), old(removeQueue));
            entities == flushed.live
            && (flushed.Missing? ==> st == Failed(UnknownEntity) && times == [] && trace == old(trace) && ticked == 0 && lastUpdate == old(lastUpdate)
                                     && removeQueue == flushed.rest)
            && (flushed.Drained? ==>
                  (forall h :: h in removeQueue ==> h in entities && h.ExplosionH?)
                  && var start := Clock.Start(old(lastUpdate));
                     var step := Clock.Step(deltaT, start, tps);
                     (step.None? ==> st == Failed(DivisionByZero) && times == [] && trace == old(trace) && ticked == 0 && lastUpdate == Some(start))
                     && (step.Some? ==>
                           |times| <= |entities| && trace == old(trace) + entities[..|times|]
                           && times == Clock.Times(start, step.value, |times|)
                           && lastUpdate == Some(Clock.After(start, step.value, ticked))
                           && (st.Ok? ==> ticked == |times| == |entities|)
                           && (st.Failed? ==> |times| == ticked + 1)))
  {
    ghost var pool := entities + addQueue;
    AimedInObjects(addQueue);
    st := Flush(n);
    assert trace == old(trace) && log == old(log);
    log := log + [deltaT];
    times, ticked := [], 0;
    assert entities + addQueue == entities;
    BlastsFootprint(entities, pool, addQueue);
    if st.Failed? {
      return;
    }
    forall h | h in entities ensures h.Entities() <= old(Footprint()) && h.Objects() <= old(Footprint()) {
      HandleFootprint(h, pool);
    }
    ObjectsArePlain(entities);
    label Flushed:
    st, times, ticked := TickPhase(deltaT, n);
    forall i | 0 <= i < |addQueue| ensures Blast(addQueue[i]) {
      var x := addQueue[i].explosion;
      var y := x.entity;
      assert !old@Flushed(allocated(x)) && !old@Flushed(allocated(y));
    }
    BlastsFootprint(entities, pool, addQueue);
  }

  /**
   * The part of `update` after the flush: set the clock to `_last_update or
   * 0`, take the step (a ZeroDivisionError when it falls back on a zero tick
   * rate), then tick the flushed table.
   */
  method TickPhase(deltaT: Option<real>, n: Guidance.Numerics) returns (st: Status, times: seq<real>, ticked: nat)
    requires Valid() && addQueue == [] && removeQueue == []
    modifies this`addQueue, this`removeQueue, this`lastUpdate, this`trace
    modifies ObjectsOf(entities), EntitiesOf(entities)`pos, EntitiesOf(entities)`size
    ensures Valid() && entities == old(entities)
    ensures forall j :: 0 <= j < |addQueue| ==> Blast(addQueue[j])
    ensures forall h :: h in removeQueue ==> h in entities && h.ExplosionH?
    ensures var start := Clock.Start(old(lastUpdate));
            var step := Clock.Step(deltaT, start, tps);
            (step.None? ==> st == Failed(DivisionByZero) && times == [] && trace == old(trace) && ticked == 0
                            && lastUpdate == Some(start))
            && (step.Some? ==>
                  |times| <= |entities| && trace == old(trace) + entities[..|times|]
                  && times == Clock.Times(start, step.value, |times|)
                  && lastUpdate == Some(Clock.After(start, step.value, ticked))
                  && (st.Ok? ==> ticked == |times| == |entities|)
                  && (st.Failed? ==> |times| == ticked + 1))
  {
    var start := Clock.Start(lastUpdate);
    lastUpdate := Some(start);
    var step := Clock.Step(deltaT, start, tps);
    if step.None? {
      return Failed(DivisionByZero), [], 0;
    }
    label Started:
    st, times, ticked := TickAll(step.value, n, start);
    forall i | 0 <= i < |addQueue| ensures Blast(addQueue[i]) {
      var x := addQueue[i].explosion;
      var y := x.entity;
      assert !old@Started(allocated(x)) && !old@Started(allocated(y));
    }
  }

  /**
   * The loop of `update`: tick every entity of the (flushed, empty-queued)
   * table in insertion order, at the clock plus `dt`, advancing the clock by
   * `dt` after each successful tick; stop at the first failing tick. The
   * `trace` grows by the entities ticked, in the order of their ticks.
   */
  method TickAll(dt: real, n: Guidance.Numerics, ghost start: real) returns (st: Status, times: seq<real>, ticked: nat)
    requires Valid() && addQueue == [] && removeQueue == [] && lastUpdate == Some(start)
    modifies this`addQueue, this`removeQueue, this`lastUpdate, this`trace
    modifies ObjectsOf(entities), EntitiesOf(entities)`pos, EntitiesOf(entities)`size
    ensures Valid() && entities == old(entities)
    ensures forall j :: 0 <= j < |addQueue| ==> Blast(addQueue[j])
    ensures forall h :: h in removeQueue ==> h in entities && h.ExplosionH?
    ensures |times| <= |entities| && trace == old(trace) + entities[..|times|]
    ensures times == Clock.Times(start, dt, |times|) && lastUpdate == Some(Clock.After(start, dt, ticked))
    ensures st.Ok? ==> ticked == |times| == |entities|
    ensures st.Failed? ==> |times| == ticked + 1
  {
    st := Ok;
    times, ticked := [], 0;
    ObjectsArePlain(entities);
    assert this !in ObjectsOf(entities);
    while |times| < |entities| && st.Ok?
      invariant entities == old(entities) && |times| <= |entities|
      invariant trace == old(trace) + entities[..|times|]
      invariant Valid()
      invariant forall j :: 0 <= j < |addQueue| ==> Blast(addQueue[j])
      invariant forall h :: h in removeQueue ==> h in entities && h.ExplosionH?
      invariant times == Clock.Times(start, dt, |times|) && lastUpdate == Some(Clock.After(start, dt, ticked))
      invariant st.Ok? ==> ticked == |times|
      invariant st.Failed? ==> |times| == ticked + 1
      decreases |entities| - |times|, st.Ok?
    {
      HandleFootprint(entities[|times|], entities);
      ghost var mid := addQueue;
      label Iter:
      st, times, ticked := TickStep(dt, n, start, times, old(trace));
      forall i | |mid| <= i < |addQueue| ensures Blast(addQueue[i]) {
        var x := addQueue[i].explosion;
        var y := x.entity;
        assert !old@Iter(allocated(x)) && !old@Iter(allocated(y));
      }
      BlastsExtend(addQueue, mid);
    }
  }

  /**
   * One pass of the loop of `update`: tick the next entity of the table at
   * the clock plus `dt` and, if the tick succeeds, `_last_update += delta_t`.
   */
  method TickStep(dt: real, n: Guidance.Numerics, ghost start: real, times: seq<real>, ghost before: seq<Handle>)
    returns (st: Status, times': seq<real>, ticked: nat)
    requires Valid() && |times| < |entities| && trace == before + entities[..|times|]
    requires times == Clock.Times(start, dt, |times|) && lastUpdate == Some(Clock.After(start, dt, |times|))
    modifies this`addQueue, this`removeQueue, this`lastUpdate, this`trace
    modifies entities[|times|].Objects(), entities[|times|].Entities()`pos, entities[|times|].Entities()`size
    ensures Valid() && entities == old(entities)
    ensures GrewByBlasts(addQueue, old(addQueue))
    ensures removeQueue == old(removeQueue) || (entities[|times|].ExplosionH? && removeQueue == old(removeQueue) + [entities[|times|]])
    ensures times' == Clock.Times(start, dt, |times'|) && |times'| == |times| + 1
    ensures trace == old(trace) + [entities[|times|]] && trace == before + entities[..|times'|]
    ensures lastUpdate == Some(Clock.After(start, dt, ticked))
    ensures st.Ok? ==> ticked == |times'|
    ensures st.Failed? ==> ticked == |times|
  {
    var h := entities[|times|];
    var t := lastUpdate.value + dt;
    Clock.Advance(start, dt, times, lastUpdate.value);
    times' := times + [t];
    assert times' == Clock.Times(start, dt, |times'|) && t == Clock.After(start, dt, |times'|);
    assert lastUpdate == Some(Clock.After(start, dt, |times|));
    PrefixSnoc(before, entities, |times|);
    st := TickNext(h, dt, t, n);
    ticked := |times|;
    if st.Ok? {
      lastUpdate := Some(t);
      ticked := |times'|;
    }
  }

  /** One pass of the loop of `update`: tick `h`, a handle of the table, and record the tick in `trace`. */
  method TickNext(h: Handle, dt: real, t: real, n: Guidance.Numerics) returns (st: Status)
    requires h in entities && Valid()
    modifies h.Objects(), h.Entities()`pos, h.Entities()`size, this`addQueue, this`removeQueue, this`trace
    ensures Valid() && trace == old(trace) + [h]
    ensures GrewByBlasts(addQueue, old(addQueue))
    ensures removeQueue == old(removeQueue) || (h.ExplosionH? && removeQueue == old(removeQueue) + [h])
    ensures entities == old(entities) && lastUpdate == old(lastUpdate)
  {
    ghost var es := EntitiesOf(entities + addQueue);
    HandleFootprint(h, entities + addQueue);
    ObjectsArePlain(entities + addQueue);
    trace := trace + [h];
    st := TickEntity(h, dt, t, n, es);
    TickKeepsValid(es);
  }

  /** A tick that kept every old part's binding and the table, and only grew the add queue by fresh explosions, keeps `Valid`. */
  twostate lemma TickKeepsValid(es: set<Entity>)
    requires old(Valid()) && es == old(EntitiesOf(entities + addQueue))
    requires forall e | e in es :: e.sim == old(e.sim)
    requires entities == old(entities)
    requires GrewByBlasts(addQueue, old(addQueue))
    ensures Valid()
  {
    ghost var base := old(entities + addQueue);
    forall e | e in es ensures e.sim == null || e.sim == this {
      assert old(e.sim == null || e.sim == this);
    }
    forall g | g in entities ensures g.Base().sim == this {
      HandleFootprint(g, base);
      assert old(g.Base().sim) == this;
    }
    ghost var q := addQueue;
    ghost var added := q[|old(addQueue)|..];
    assert q == old(addQueue) + added;
    forall j | 0 <= j < |added| ensures added[j].ExplosionH? && added[j].explosion.entity.sim == null {
      assert Blast(q[|old(addQueue)| + j]);
    }
    AttachedBlasts(base, added);
    assert base + added == entities + addQueue;
  }

  /** One pass of the first loop: pop the front of the add queue, create it, insert it. */
  method AdmitNext(n: Guidance.Numerics, ghost pool: seq<Handle>)
    requires addQueue != [] && addQueue[0] in pool
    requires Registry.Distinct(entities) && Created(entities) && Attached(EntitiesOf(pool))
    modifies this`entities, this`addQueue, addQueue[0].Base()`sim
    modifies AimedOf([addQueue[0]])`bearing, AimedOf([addQueue[0]])`midcourseTime, LegacyOf([addQueue[0]])`bearing
    ensures addQueue == old(addQueue[1..]) && entities == Registry.Insert(old(entities), old(addQueue[0]))
    ensures Registry.Distinct(entities) && Created(entities) && Attached(EntitiesOf(pool))
  {
    var h := addQueue[0];
    addQueue := addQueue[1..];
    label L:
    CreateEntity(h, n);
    forall e | e in EntitiesOf(pool) ensures e.sim == null || e.sim == this {
      assert old@L(e.sim == null || e.sim == this);
    }
    forall g | g in entities ensures g.Base().sim == this {
      assert old@L(g.Base().sim) == this;
    }
    Registry.InsertKeepsDistinct(entities, h);
    entities := Registry.Insert(entities, h);
  }

  /** The second loop of `_flush_entity_queue`: pop the queued removals from the table, front to back. */
  method FlushRemovals() returns (st: Status)
    requires Registry.Distinct(entities)
    modifies this`entities, this`removeQueue
    ensures Registry.Distinct(entities)
    ensures match Registry.RemoveAll(old(entities), old(removeQueue))
            case Drained(live) => st == Ok && entities == live && removeQueue == []
            case Missing(live, _, rest) => st == Failed(UnknownEntity) && entities == live && removeQueue == rest
    ensures forall h :: h in entities ==> h in old(entities)
  {
    st := Ok;
    while removeQueue != []
      invariant Registry.RemoveAll(entities, removeQueue) == Registry.RemoveAll(old(entities), old(removeQueue))
      invariant forall h :: h in entities ==> h in old(entities)
      invariant Registry.Distinct(entities)
      decreases |removeQueue|
    {
      var h := removeQueue[0];
      removeQueue := removeQueue[1..];
      var r := Registry.Remove(entities, h);
      if r.None? {
        return Failed(UnknownEntity);
      }
      Registry.WithoutKeepsDistinct(entities, h);
      forall x | x in r.value ensures x in entities {
        Registry.InKeys(x, r.value);
        Registry.InKeys(x, entities);
      }
      entities := r.value;
    }
  }
}

/** A queue of fresh explosions stays one when more fresh explosions are appended. */
twostate lemma BlastsExtend(new q: seq<Handle>, new mid: seq<Handle>)
  requires forall j :: 0 <= j < |mid| ==> Blast(mid[j])
  requires |mid| <= |q| && q[..|mid|] == mid
  requires forall i :: |mid| <= i < |q| ==> Blast(q[i])
  ensures forall j :: 0 <= j < |q| ==> Blast(q[j])
{
  forall j | 0 <= j < |q| ensures Blast(q[j]) {
    if j < |mid| {
      assert q[j] == mid[j];
    }
  }
}

/** `k` copies of `x`. */
function Repeat<T>(x: T, k: nat): (r: seq<T>)
  ensures |r| == k && forall i :: 0 <= i < k ==> r[i] == x
{
  if k == 0 then [] else Repeat(x, k - 1) + [x]
}

/** Extending a prefix of `s` by one element appends `s[k]`. */
lemma PrefixSnoc<T>(a: seq<T>, s: seq<T>, k: nat)
  requires k < |s|
  ensures a + s[..k + 1] == (a + s[..k]) + [s[k]]
{
  assert s[..k + 1] == s[..k] + [s[k]];
}

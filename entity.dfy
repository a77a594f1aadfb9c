/*
 * The world of the simulation: the entity classes of sim/entities and the
 * `Simulation` of sim/simulation.py. They live in the default module, spread
 * over several files, because an entity refers to its simulation and the
 * simulation holds its entities.
 *
 * Python subclassing becomes composition: a `Target`, `Explosion` or
 * `Missile` holds its `Entity` part, a `Ballistic` or `SimpleBalistic` its
 * `Missile` part, and a `SimpleBallistic` or `BallisticInterceptor` its
 * `Ballistic` part. A `Handle` names one concrete entity, as the Python object
 * itself does in the simulation's dictionary and queues.
 */

import opened Wrappers
import opened Vectors

/** The Python exceptions a step can raise. */
datatype Fault =
  | UnboundEntity   // `self.sim` used before `create`: an AttributeError
  | NoBearing       // `self.bearing` read before it was computed: an AttributeError
  | UnknownEntity   // `entities.pop(id(e))` of an entity not in the table: a KeyError
  | DivisionByZero  // a ZeroDivisionError

datatype Status = Ok | Failed(fault: Fault)

/** The simulation an entity is bound to, as a set (empty before `create`). */
function SimSet(s: Simulation?): set<Simulation> {
  if s == null then {} else {s}
}

/** One concrete entity, by identity. */
datatype Handle =
  | TargetH(target: Target)
  | ExplosionH(explosion: Explosion)
  | BallisticH(ballistic: Ballistic)
  | SimpleBallisticH(simple: SimpleBallistic)
  | InterceptorH(interceptor: BallisticInterceptor)
  | LegacyH(legacy: SimpleBalistic)
{
  /** The `Entity` part: where the entity's `sim` and `pos` live. */
  function Base(): Entity {
    match this
    case TargetH(t) => t.entity
    case ExplosionH(e) => e.entity
    case BallisticH(b) => b.missile.entity
    case SimpleBallisticH(s) => s.ballistic.missile.entity
    case InterceptorH(i) => i.ballistic.missile.entity
    case LegacyH(l) => l.missile.entity
  }

  /** The `Entity` parts a tick of this entity acts on: its own and, for an interceptor, its target's. */
  function Entities(): (r: set<Entity>)
    ensures Base() in r
  {
    match this
    case InterceptorH(i) => {i.ballistic.missile.entity, i.target.missile.entity}
    case _ => {Base()}
  }

  /** The objects other than `Entity` parts whose fields a tick may change. */
  function Objects(): set<object> {
    match this
    case TargetH(_) => {}
    case ExplosionH(e) => {e}
    case BallisticH(b) => {b, b.missile}
    case SimpleBallisticH(s) => {s.ballistic, s.ballistic.missile}
    case InterceptorH(i) => {i, i.ballistic, i.ballistic.missile, i.target.missile}
    case LegacyH(l) => {l, l.missile}
  }
}

/** The `Ballistic` parts whose bearing `create` computes. */
function AimedOf(hs: seq<Handle>): set<Ballistic> {
  set h | h in hs && h.SimpleBallisticH? :: h.simple.ballistic
}

/** The legacy missiles whose bearing `create` computes. */
function LegacyOf(hs: seq<Handle>): set<SimpleBalistic> {
  set h | h in hs && h.LegacyH? :: h.legacy
}

/** The `Entity` parts of a sequence of handles. */
function EntitiesOf(hs: seq<Handle>): set<Entity> {
  (set h | h in hs :: h.Base()) + (set h | h in hs && h.InterceptorH? :: h.interceptor.target.missile.entity)
}

/** Fewer handles have fewer entity parts. */
lemma EntitiesOfMono(a: seq<Handle>, b: seq<Handle>)
  requires forall h :: h in a ==> h in b
  ensures EntitiesOf(a) <= EntitiesOf(b)
{
}

/** The other objects of a sequence of handles. */
function ObjectsOf(hs: seq<Handle>): set<object> {
  set h, o | h in hs && o in h.Objects() :: o
}

/** The other objects of handles are never `Entity` parts nor a simulation. */
lemma ObjectsArePlain(hs: seq<Handle>)
  ensures forall e: Entity :: e !in ObjectsOf(hs)
  ensures forall s: Simulation :: s !in ObjectsOf(hs)
{
}

/** `h` is an explosion allocated by this call and not yet bound to a simulation. */
twostate predicate Blast(new h: Handle)
  reads h.Entities()`sim
{
  h.ExplosionH? && fresh(h.explosion) && fresh(h.explosion.entity) && h.explosion.entity.sim == null
}

/** `q` is `before` followed by explosions allocated by this call. */
twostate predicate GrewByBlasts(new q: seq<Handle>, before: seq<Handle>)
  reads EntitiesOf(q)`sim
{
  |before| <= |q| && q[..|before|] == before
  && forall i :: |before| <= i < |q| ==> q[i] in q && Blast(q[i])
}

/** `q` is `before` followed by one fresh explosion at each position of `ps`, in that order. */
twostate predicate GrewByBlastsAt(new q: seq<Handle>, before: seq<Handle>, new ps: seq<Vec3>)
  reads EntitiesOf(q)`sim, EntitiesOf(q)`pos
{
  GrewByBlasts(q, before) && |q| == |before| + |ps|
  && forall i :: 0 <= i < |ps| ==> q[|before| + i].explosion.entity.pos == ps[i]
}

/** A handle's parts belong to the parts of any sequence holding it. */
lemma HandleFootprint(h: Handle, hs: seq<Handle>)
  requires h in hs
  ensures h.Entities() <= EntitiesOf(hs) && h.Objects() <= ObjectsOf(hs)
{
}

/** The objects `create` writes are among the objects of the handles. */
lemma AimedInObjects(hs: seq<Handle>)
  ensures AimedOf(hs) <= ObjectsOf(hs) && LegacyOf(hs) <= ObjectsOf(hs)
{
  forall b | b in AimedOf(hs) ensures b in ObjectsOf(hs) {
    var h :| h in hs && h.SimpleBallisticH? && h.simple.ballistic == b;
    assert b in h.Objects();
  }
  forall l | l in LegacyOf(hs) ensures l in ObjectsOf(hs) {
    var h :| h in hs && h.LegacyH? && h.legacy == l;
    assert l in h.Objects();
  }
}

/**
 * A table that only lost handles, followed by a queue of fresh explosions,
 * has no parts beyond the old ones except fresh objects.
 */
twostate lemma BlastsFootprint(new hs: seq<Handle>, ks: seq<Handle>, new q: seq<Handle>)
  requires forall h :: h in hs ==> h in ks
  requires forall j :: 0 <= j < |q| ==> Blast(q[j])
  ensures fresh(EntitiesOf(hs + q) + ObjectsOf(hs + q) - (EntitiesOf(ks) + ObjectsOf(ks)))
{
  forall o | o in EntitiesOf(hs + q) + ObjectsOf(hs + q) && o !in EntitiesOf(ks) + ObjectsOf(ks)
    ensures fresh(o)
  {
    var h :| h in hs + q && (o in h.Entities() || o in h.Objects());
    if h in hs {
      HandleFootprint(h, ks);
    } else {
      var j :| 0 <= j < |q| && q[j] == h;
      assert Blast(q[j]);
    }
  }
}

/** Growth by fresh explosions composes: a queue that grew, then grew again, grew. */
twostate lemma Chain(new q2: seq<Handle>, new q1: seq<Handle>, q0: seq<Handle>)
  requires GrewByBlasts(q1, q0)
  requires |q1| <= |q2| && q2[..|q1|] == q1
  requires forall i :: |q1| <= i < |q2| ==> Blast(q2[i])
  ensures GrewByBlasts(q2, q0)
{
  forall i | |q0| <= i < |q2| ensures q2[i] in q2 && Blast(q2[i]) {
    if i < |q1| {
      assert q2[i] == q1[i];
    }
  }
}

/** The state an `Entity` shares with every subclass (sim/entities/entity.py). */
class Entity {
  var sim: Simulation?
  var pos: Vec3
  var size: real
  const color: string
  const marker: string

  /** The attribute assignments every subclass constructor makes; `sim` is unset until `create`. */
  constructor (pos: Vec3, size: real, color: string, marker: string)
    ensures this.sim == null && this.pos == pos && this.size == size
    ensures this.color == color && this.marker == marker
  {
    this.sim := null;
    this.pos := pos;
    this.size := size;
    this.color := color;
    this.marker := marker;
  }

  /** `create(sim)`: binds the entity to the simulation and changes nothing else. */
  method Create(s: Simulation)
    modifies this`sim
    ensures sim == s
  {
    sim := s;
  }

  /**
   * `remove()`: asks the bound simulation to drop `me` by appending it to the
   * removal queue; the table itself is not touched. Before `create` there is
   * no simulation and the call fails.
   */
  method Remove(me: Handle) returns (st: Status)
    requires me.Base() == this
    modifies SimSet(sim)`removeQueue
    ensures sim == null ==> st == Failed(UnboundEntity)
    ensures sim != null ==> st == Ok && sim.removeQueue == old(sim.removeQueue) + [me]
  {
    if sim == null {
      return Failed(UnboundEntity);
    }
    sim.RemoveEntity(me);
    st := Ok;
  }
}

/**
 * The time keeping of sim/simulation.py: how many ticks `run` performs, the
 * time step `update` falls back to, and the clock `_last_update` that
 * `update` advances once per ticked entity.
 */
module Clock {
  import opened Wrappers

  /** `2**31-1`, the tick count of a run that is meant to last indefinitely. */
  const Indefinite: int := 2147483647

  /** Python's `int(x)` on a float: truncation toward zero. */
  function Trunc(x: real): (r: int)
    ensures x >= 0.0 ==> r as real <= x < r as real + 1.0
    ensures x < 0.0 ==> r as real - 1.0 < x <= r as real
  {
    if x >= 0.0 then x.Floor else -((-x).Floor)
  }

  /** The number of iterations of `range(n)`. */
  function Iterations(n: int): (r: nat)
    ensures n >= 0 ==> r == n
    ensures n < 0 ==> r == 0
  {
    if n < 0 then 0 else n
  }

  /**
   * How many times `run(time, ticks)` calls `update`: none when either
   * argument is zero; 2^31-1 when both are negative; `int(time * tps)` when
   * the time is positive; otherwise the given tick count.
   */
  function Budget(time: real, ticks: int, tps: real): nat {
    if time == 0.0 || ticks == 0 then 0
    else if time < 0.0 && ticks < 0 then Indefinite
    else if time > 0.0 then Iterations(Trunc(time * tps))
    else Iterations(ticks)
  }

  /** The defaults `run(time=20, ticks=-1)` at the default 120 ticks per second: 2400 updates. */
  lemma DefaultBudget()
    ensures Budget(20.0, -1, 120.0) == 2400
  {
    assert 20.0 * 120.0 == 2400.0;
    assert Trunc(2400.0) == 2400;
  }

  /** A positive time decides the budget, whatever tick count is passed with it. */
  lemma TimeOverridesTicks(time: real, ticks: int, otherTicks: int, tps: real)
    requires time > 0.0 && ticks != 0 && otherTicks != 0
    ensures Budget(time, ticks, tps) == Budget(time, otherTicks, tps)
    ensures tps > 0.0 ==> Budget(time, ticks, tps) as real <= time * tps < Budget(time, ticks, tps) as real + 1.0
  {
  }

  /** Negative time and ticks run "indefinitely"; a negative time with a positive tick count runs that many ticks. */
  lemma NegativeTime(time: real, ticks: int, tps: real)
    requires time < 0.0
    ensures ticks < 0 ==> Budget(time, ticks, tps) == Indefinite
    ensures ticks > 0 ==> Budget(time, ticks, tps) == ticks
  {
  }

  /** `_last_update = _last_update or 0`: an unset clock reads 0. */
  function Start(last: Option<real>): (r: real)
    ensures last.Some? ==> r == last.value
    ensures last.None? ==> r == 0.0
  {
    last.GetOr(0.0)
  }

  /**
   * `delta_t = delta_t or _last_update + 1/tps`: a missing or zero step is
   * replaced by the current clock plus one tick period; None stands for the
   * ZeroDivisionError of a zero tick rate.
   */
  function Step(deltaT: Option<real>, start: real, tps: real): (r: Option<real>)
    ensures deltaT.Some? && deltaT.value != 0.0 ==> r == deltaT
    ensures (deltaT.None? || deltaT.value == 0.0) ==> (r.None? <==> tps == 0.0)
    ensures (deltaT.None? || deltaT.value == 0.0) && tps != 0.0 ==> r == Some(start + 1.0 / tps)
  {
    if deltaT.Some? && deltaT.value != 0.0 then deltaT
    else if tps == 0.0 then None
    else Some(start + 1.0 / tps)
  }

  /**
   * The fallback step is not one tick period: it is the whole clock plus one
   * period, so the later the clock, the longer the step an update without
   * `delta_t` takes, and only an unset or zero clock gives `1/tps`.
   */
  lemma FallbackGrows(s1: real, s2: real, tps: real)
    requires tps > 0.0 && s1 < s2
    ensures Step(None, s1, tps).value < Step(None, s2, tps).value
    ensures Step(None, 0.0, tps) == Some(1.0 / tps)
    ensures s2 > 0.0 ==> Step(None, s2, tps).value > 1.0 / tps
  {
  }

  /** The clock after `k` entities have been ticked with step `dt`, one `+= delta_t` each. */
  function After(start: real, dt: real, k: nat): real {
    if k == 0 then start else After(start, dt, k - 1) + dt
  }

  /** The `time` arguments of the first `k` entity ticks of an update: the clock plus `dt`, before each `+= delta_t`. */
  function Times(start: real, dt: real, k: nat): seq<real> {
    if k == 0 then [] else Times(start, dt, k - 1) + [After(start, dt, k)]
  }

  /** The `j`-th tick of an update sees the clock after `j + 1` steps. */
  lemma {:induction false} TimesSpec(start: real, dt: real, k: nat)
    ensures |Times(start, dt, k)| == k
    ensures forall j :: 0 <= j < k ==> Times(start, dt, k)[j] == After(start, dt, j + 1)
  {
    if k > 0 {
      TimesSpec(start, dt, k - 1);
    }
  }

  /** One more entity tick appends the clock plus `dt` and moves the clock by `dt`. */
  lemma TimesStep(start: real, dt: real, k: nat)
    ensures Times(start, dt, k + 1) == Times(start, dt, k) + [After(start, dt, k) + dt]
    ensures After(start, dt, k + 1) == After(start, dt, k) + dt
  {
  }

  /** The clock bookkeeping of one entity tick of an update: the tick sees `clock + dt`, and the clock then moves to it. */
  lemma Advance(start: real, dt: real, times: seq<real>, clock: real)
    requires times == Times(start, dt, |times|) && clock == After(start, dt, |times|)
    ensures var next := times + [clock + dt];
            next == Times(start, dt, |next|) && clock + dt == After(start, dt, |next|)
            && 0 < |next| && clock == After(start, dt, |next| - 1)
  {
    TimesStep(start, dt, |times|);
  }

  lemma Distribute(k: real, dt: real)
    ensures (k + 1.0) * dt == k * dt + dt
  {
  }

  /** After `k` entity ticks the clock has moved by `k * dt`. */
  lemma {:induction false} AfterClosed(start: real, dt: real, k: nat)
    ensures After(start, dt, k) == start + (k as real) * dt
  {
    if k > 0 {
      AfterClosed(start, dt, k - 1);
      Distribute((k - 1) as real, dt);
      assert (k - 1) as real + 1.0 == k as real;
    }
  }

  /** With a positive step, later entities in an update see a strictly later time. */
  lemma {:induction false} AfterIncreasing(start: real, dt: real, i: nat, j: nat)
    requires dt > 0.0 && i < j
    ensures After(start, dt, i) < After(start, dt, j)
    decreases j
  {
    if i < j - 1 {
      AfterIncreasing(start, dt, i, j - 1);
    }
  }
}

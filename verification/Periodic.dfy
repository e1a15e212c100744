/**
 The timers of a periodic event (src/runner.c): when the first trigger is armed, what each
 trigger arms, and when the event fires, under a clock that serves every timer when it is due.
 */
module Periodic {
  import opened Common

  /** interval and random spread as src/data.c accepts them; times are seconds. */
  datatype Cfg = Cfg(interval: nat, start: Option<int>, end: Option<int>, spread: Option<nat>)

  predicate ValidCfg(cfg: Cfg) { cfg.interval >= 1 && (cfg.spread.Some? ==> cfg.spread.value < cfg.interval) }

  function GridPoint(cfg: Cfg, k: nat): int
    requires cfg.start.Some?
  {
    cfg.start.value + k * cfg.interval
  }

  ghost predicate OnGrid(cfg: Cfg, t: int)
    requires cfg.start.Some?
  {
    exists k: nat :: t == GridPoint(cfg, k)
  }

  /** The delay lmapd_run arms the first trigger with. */
  function Delay(cfg: Cfg, now: int): int
    requires cfg.interval >= 1
  {
    if cfg.start.None? then 0
    else if now > cfg.start.value then
      var delta := (now - cfg.start.value) / cfg.interval;
      (cfg.start.value + (delta + 1) * cfg.interval) - now
    else cfg.start.value - now
  }

  lemma Multiples(a: int, b: int, n: nat)
    requires a <= b
    ensures a * n <= b * n && (b == a + 1 ==> b * n == a * n + n)
  {
  }

  /** The first trigger is the least point of the grid after now, or the start itself when that is still to come. */
  lemma {:induction false} FirstTrigger(cfg: Cfg, now: int)
    requires ValidCfg(cfg) && cfg.start.Some?
    ensures var t := now + Delay(cfg, now);
            && OnGrid(cfg, t)
            && (now > cfg.start.value ==> t > now && forall u :: OnGrid(cfg, u) && u > now ==> t <= u)
            && (now <= cfg.start.value ==> t == cfg.start.value)
  {
    var s, i := cfg.start.value, cfg.interval;
    if now > s {
      var delta := (now - s) / i;
      var t := now + Delay(cfg, now);
      assert now - s == delta * i + (now - s) % i;
      Multiples(delta, delta + 1, i);
      assert t == GridPoint(cfg, delta + 1) == GridPoint(cfg, delta) + i;
      forall u | OnGrid(cfg, u) && u > now ensures t <= u {
        var k: nat :| u == GridPoint(cfg, k);
        if k <= delta { Multiples(k, delta, i); } else { Multiples(delta + 1, k, i); }
      }
    } else {
      assert s == GridPoint(cfg, 0);
    }
  }

  function SpreadOf(cfg: Cfg): nat { if cfg.spread.Some? then cfg.spread.value else 0 }

  ghost predicate Spaced(ts: seq<int>, interval: nat) { forall k :: 0 < k < |ts| ==> ts[k] == ts[k - 1] + interval }

  lemma {:induction false} SpacedAt(ts: seq<int>, interval: nat, k: nat)
    requires Spaced(ts, interval) && k < |ts|
    ensures ts[k] == ts[0] + k * interval
  {
    if k > 0 {
      SpacedAt(ts, interval, k - 1);
      assert k * interval == (k - 1) * interval + interval;
    }
  }

  lemma {:induction false} SpacedApart(ts: seq<int>, interval: nat, k: nat, l: nat)
    requires Spaced(ts, interval) && k < l < |ts|
    ensures ts[k] + interval <= ts[l]
    decreases l
  {
    if k < l - 1 { SpacedApart(ts, interval, k, l - 1); }
  }

  class Timers {
    const cfg: Cfg
    var now: int
    /** When a pending timer is due. */
    var startAt: Option<int>
    var triggerAt: Option<int>
    var fireAt: Option<int>
    /** How often a timer was found to be pending already. */
    var clashes: nat
    /** The time the event was armed for, the triggers that armed a fire, and the fires. */
    ghost const first: int
    ghost var triggers: seq<int>
    ghost var fires: seq<int>

    /** Triggers are an interval apart, none is later than the end, and each has its own fire before the next one. */
    ghost predicate Valid()
      reads this
    {
      && ValidCfg(cfg) && clashes == 0
      && (forall k :: 0 <= k < |triggers| ==> cfg.end.Some? ==> triggers[k] <= cfg.end.value)
      && Spaced(triggers, cfg.interval)
      && |fires| <= |triggers|
      && (forall k :: 0 <= k < |fires| ==> triggers[k] <= fires[k] <= triggers[k] + SpreadOf(cfg))
      && |triggers| == |fires| + (if fireAt.Some? then 1 else 0)
      && (fireAt.Some? ==> triggerAt.Some?)
      && (fireAt.Some? ==> triggers[|triggers| - 1] <= fireAt.value <= triggers[|triggers| - 1] + SpreadOf(cfg))
      && (triggers != [] && triggerAt.Some? ==> triggerAt.value == triggers[|triggers| - 1] + cfg.interval)
      && (startAt.Some? ==> triggers == [] && triggerAt.None? && startAt.value == first)
      && (triggers != [] ==> triggers[0] == first)
      && (startAt.None? && triggers == [] ==> triggerAt.None?)
    }

    /** lmapd_run arms the event unless it has ended. */
    constructor (cfg: Cfg, now: int)
      requires ValidCfg(cfg)
      ensures Valid() && this.cfg == cfg && this.now == now && triggers == fires == [] && fireAt == triggerAt == None
              && first == now + Delay(cfg, now)
      ensures startAt == if cfg.end.Some? && now > cfg.end.value then None else Some(now + Delay(cfg, now))
    {
      this.cfg, this.now := cfg, now;
      startAt := if cfg.end.Some? && now > cfg.end.value then None else Some(now + Delay(cfg, now));
      triggerAt, fireAt, clashes := None, None, 0;
      first, triggers, fires := now + Delay(cfg, now), [], [];
    }

    /** The random spread: a draw of rand_interval, when a spread is set. */
    function Drawn(draw: nat): nat { if cfg.spread.Some? then draw else 0 }

    /** trigger_periodic_cb; event_gaga refuses to arm a timer that is pending. */
    method TriggerCb(draw: nat)
      requires ValidCfg(cfg) && draw <= SpreadOf(cfg)
      modifies this`triggerAt, this`fireAt, this`clashes, this`triggers
      ensures if cfg.end.Some? && now > cfg.end.value then
                triggerAt == None && fireAt == old(fireAt) && clashes == old(clashes) && triggers == old(triggers)
              else
                triggerAt == old(triggerAt) &&
                if old(fireAt).None? then
                  fireAt == Some(now + Drawn(draw)) && clashes == old(clashes) && triggers == old(triggers) + [now]
                else fireAt == old(fireAt) && clashes == old(clashes) + 1 && triggers == old(triggers)
    {
      if cfg.end.Some? && now > cfg.end.value {
        triggerAt := None;
        return;
      }
      if fireAt.None? {
        fireAt := Some(now + Drawn(draw));
        triggers := triggers + [now];
      } else {
        clashes := clashes + 1;
      }
    }

    ghost predicate Over(time: int) { cfg.end.Some? && time > cfg.end.value }

    /** A trigger has been served now: it has armed a fire and the next trigger, or it was the last one. */
    twostate predicate Triggered(draw: nat)
      reads this
    {
      && startAt == None && fires == old(fires)
      && triggers == old(triggers) + (if Over(now) then [] else [now])
      && triggerAt == (if Over(now) then None else Some(now + cfg.interval))
      && (Over(now) ==> fireAt == old(fireAt)) && (!Over(now) ==> fireAt == Some(now + Drawn(draw)))
    }

    /** startup_cb: the persistent trigger is armed, and its callback called once. */
    method StartupCb(draw: nat)
      requires Valid() && startAt.Some? && draw <= SpreadOf(cfg)
      modifies this
      ensures Valid() && now == old(startAt).value && Triggered(draw)
    {
      now := startAt.value;
      triggerAt := Some(now + cfg.interval);
      TriggerCb(draw);
      startAt := None;
    }

    method FireCb()
      requires Valid() && fireAt.Some?
      modifies this
      ensures Valid() && triggers == old(triggers) && fires == old(fires) + [old(fireAt).value]
      ensures fireAt == None && triggerAt == old(triggerAt) && startAt == old(startAt)
    {
      now := fireAt.value;
      fires := fires + [now];
      fireAt := None;
    }

    /** The persistent trigger is due, and no fire before it. */
    method PeriodicTrigger(draw: nat)
      requires Valid() && startAt.None? && triggerAt.Some? && draw <= SpreadOf(cfg)
      requires fireAt.Some? ==> fireAt.value > triggerAt.value
      modifies this
      ensures Valid() && now == old(triggerAt).value && Triggered(draw)
    {
      now := triggerAt.value;
      triggerAt := Some(now + cfg.interval);
      TriggerCb(draw);
    }

    /** The timer that is due next: the start, a fire, or a trigger; busy says that there was one. */
    method Step(draw: nat) returns (busy: bool)
      requires Valid() && draw <= SpreadOf(cfg)
      modifies this
      ensures Valid() && old(triggers) <= triggers && old(fires) <= fires
      ensures busy <==> old(startAt).Some? || old(fireAt).Some? || old(triggerAt).Some?
      ensures if old(startAt).Some? then now == old(startAt).value && Triggered(draw)
              else if old(fireAt).Some? && (old(triggerAt).None? || old(fireAt).value <= old(triggerAt).value) then
                triggers == old(triggers) && fires == old(fires) + [old(fireAt).value]
                && fireAt == None && triggerAt == old(triggerAt) && startAt == None
              else if old(triggerAt).Some? then now == old(triggerAt).value && Triggered(draw)
              else triggers == old(triggers) && fires == old(fires) && startAt == fireAt == triggerAt == None
    {
      hide Valid;
      busy := true;
      if startAt.Some? {
        StartupCb(draw);
      } else if fireAt.Some? && (triggerAt.None? || fireAt.value <= triggerAt.value) {
        FireCb();
      } else if triggerAt.Some? {
        PeriodicTrigger(draw);
      } else {
        busy := false;
      }
    }
  }

  /** The random part of the k-th fire: each trigger is one step, and its fire the next. */
  function DrawnAt(cfg: Cfg, draws: seq<nat>, k: nat): nat
    requires 2 * k < |draws|
  {
    if cfg.spread.Some? then draws[2 * k] else 0
  }

  /** After i steps: a trigger and a fire in turn, or the trigger after the end has been met and nothing is pending. */
  ghost predicate InTurn(t: Timers, draws: seq<nat>, i: nat)
    reads t
  {
    && i <= |draws| && |t.triggers| + |t.fires| <= i && |t.fires| <= |t.triggers| && 2 * |t.triggers| <= |draws| + 1
    && (forall k :: 0 <= k < |t.fires| ==> 2 * k < |draws| && t.fires[k] == t.triggers[k] + DrawnAt(t.cfg, draws, k))
    && (i > 0 ==> t.startAt.None?)
    && if |t.triggers| + |t.fires| == i && (i > 0 || t.startAt.Some?) then
         && |t.triggers| == (i + 1) / 2
         && (t.startAt.Some? ==> t.startAt == Some(t.first))
         && (i > 0 ==> t.triggerAt == Some(t.triggers[|t.triggers| - 1] + t.cfg.interval))
         && (if i % 2 == 0 then t.fireAt == None
             else t.fireAt == Some(t.triggers[|t.triggers| - 1] + DrawnAt(t.cfg, draws, |t.triggers| - 1)))
       else
         && t.startAt == t.triggerAt == t.fireAt == None && |t.fires| == |t.triggers|
         && t.Over(if t.triggers == [] then t.first else t.triggers[|t.triggers| - 1] + t.cfg.interval)
  }

  /**
   Every run of the timers: all triggers are on the grid of the first, which is where the event
   was armed; every other step is a trigger, and the next one its fire, delayed by its draw, until
   a trigger would be later than the end; fires strictly increase, and no timer is ever found pending.
   */
  method Run(cfg: Cfg, now: int, draws: seq<nat>) returns (t: Timers)
    requires ValidCfg(cfg) && forall d :: d in draws ==> d <= SpreadOf(cfg)
    ensures fresh(t) && t.Valid() && t.cfg == cfg && t.clashes == 0
    ensures forall k :: 0 <= k < |t.triggers| ==> t.triggers[k] == now + Delay(cfg, now) + k * cfg.interval
    ensures cfg.start.None? && t.triggers != [] ==> t.triggers[0] == now
    ensures cfg.end.Some? ==> forall k :: 0 <= k < |t.triggers| ==> t.triggers[k] <= cfg.end.value
    ensures |t.triggers| + |t.fires| <= |draws| && |t.fires| <= |t.triggers|
    ensures |t.triggers| + |t.fires| < |draws| ==>
              && |t.fires| == |t.triggers|
              && cfg.end.Some? && cfg.end.value < now + Delay(cfg, now) + |t.triggers| * cfg.interval
    ensures forall k :: 0 <= k < |t.fires| ==> 2 * k < |draws| && t.fires[k] == t.triggers[k] + DrawnAt(cfg, draws, k)
    ensures forall k :: 0 <= k < |t.fires| ==> t.triggers[k] <= t.fires[k] <= t.triggers[k] + SpreadOf(cfg)
    ensures forall k, l :: 0 <= k < l < |t.fires| ==> t.fires[k] < t.fires[l]
  {
    t := new Timers(cfg, now);
    Begun(t, draws, cfg, now);
    hide *;
    AllSteps(t, draws);
    RunFacts(t, draws);
  }

  /** All steps of a run. */
  method AllSteps(t: Timers, draws: seq<nat>)
    requires t.Valid() && InTurn(t, draws, 0) && forall d :: d in draws ==> d <= SpreadOf(t.cfg)
    modifies t
    ensures t.Valid() && InTurn(t, draws, |draws|)
  {
    hide *;
    for i := 0 to |draws|
      invariant t.Valid() && InTurn(t, draws, i)
    {
      assert draws[i] in draws;
      Advance(t, draws, i);
    }
  }

  lemma Begun(t: Timers, draws: seq<nat>, cfg: Cfg, now: int)
    requires ValidCfg(cfg) && t.cfg == cfg && t.triggers == t.fires == [] && t.fireAt == t.triggerAt == None
    requires t.first == now + Delay(cfg, now)
    requires t.startAt == if cfg.end.Some? && now > cfg.end.value then None else Some(t.first)
    ensures InTurn(t, draws, 0) && (cfg.start.None? ==> Delay(cfg, now) == 0)
  {
    if cfg.start.Some? && now > cfg.start.value {
      var delta := (now - cfg.start.value) / cfg.interval;
      Multiples(delta, delta + 1, cfg.interval);
      assert now - cfg.start.value == delta * cfg.interval + (now - cfg.start.value) % cfg.interval;
    }
  }

  /** One more step of a run. */
  method Advance(t: Timers, draws: seq<nat>, i: nat)
    requires t.Valid() && InTurn(t, draws, i) && i < |draws| && draws[i] <= SpreadOf(t.cfg)
    modifies t
    ensures t.Valid() && InTurn(t, draws, i + 1)
  {
    var busy := t.Step(draws[i]);
  }

  lemma RunFacts(t: Timers, draws: seq<nat>)
    requires t.Valid() && InTurn(t, draws, |draws|)
    ensures t.clashes == 0
    ensures forall k :: 0 <= k < |t.triggers| ==> t.triggers[k] == t.first + k * t.cfg.interval
    ensures t.cfg.end.Some? ==> forall k :: 0 <= k < |t.triggers| ==> t.triggers[k] <= t.cfg.end.value
    ensures |t.triggers| + |t.fires| <= |draws| && |t.fires| <= |t.triggers|
    ensures |t.triggers| + |t.fires| < |draws| ==>
              && |t.fires| == |t.triggers|
              && t.cfg.end.Some? && t.cfg.end.value < t.first + |t.triggers| * t.cfg.interval
    ensures forall k :: 0 <= k < |t.fires| ==> 2 * k < |draws| && t.fires[k] == t.triggers[k] + DrawnAt(t.cfg, draws, k)
    ensures forall k :: 0 <= k < |t.fires| ==> t.triggers[k] <= t.fires[k] <= t.triggers[k] + SpreadOf(t.cfg)
    ensures forall k, l :: 0 <= k < l < |t.fires| ==> t.fires[k] < t.fires[l]
  {
    RunGrid(t);
    RunRises(t);
    RunCounts(t, draws);
  }

  lemma RunGrid(t: Timers)
    requires t.Valid()
    ensures forall k :: 0 <= k < |t.triggers| ==> t.triggers[k] == t.first + k * t.cfg.interval
  {
    forall k | 0 <= k < |t.triggers| ensures t.triggers[k] == t.first + k * t.cfg.interval {
      SpacedAt(t.triggers, t.cfg.interval, k);
    }
  }

  lemma RunRises(t: Timers)
    requires t.Valid()
    ensures forall k, l :: 0 <= k < l < |t.fires| ==> t.fires[k] < t.fires[l]
  {
    forall k, l | 0 <= k < l < |t.fires| ensures t.fires[k] < t.fires[l] {
      SpacedApart(t.triggers, t.cfg.interval, k, l);
    }
  }

  lemma RunCounts(t: Timers, draws: seq<nat>)
    requires InTurn(t, draws, |draws|)
    requires forall k :: 0 <= k < |t.triggers| ==> t.triggers[k] == t.first + k * t.cfg.interval
    ensures |t.triggers| + |t.fires| <= |draws| && |t.fires| <= |t.triggers|
    ensures |t.triggers| + |t.fires| < |draws| ==>
              && |t.fires| == |t.triggers|
              && t.cfg.end.Some? && t.cfg.end.value < t.first + |t.triggers| * t.cfg.interval
    ensures forall k :: 0 <= k < |t.fires| ==> 2 * k < |draws| && t.fires[k] == t.triggers[k] + DrawnAt(t.cfg, draws, k)
  {
    var n := |t.triggers|;
    if n > 0 { NextPoint(n, t.cfg.interval); }
  }

  lemma NextPoint(n: nat, interval: nat)
    requires n > 0
    ensures n * interval == (n - 1) * interval + interval
  {
  }

  // ------------------------------------------------------------------ one-off events

  datatype OneOff = OneOff(start: int, spread: Option<nat>)

  /** The one timer of a one-off event, in a session of the daemon. */
  class OneOffTimer {
    const ev: OneOff
    var now: int
    /** When the fire is due; the time may have passed. */
    var fireAt: Option<int>
    ghost const armed: int
    ghost const delay: nat
    ghost var fires: seq<int>

    /** Nothing was armed for a time still to come; otherwise the event waits for its time or has fired after it. */
    ghost predicate Valid()
      reads this
    {
      && armed <= now && |fires| <= 1
      && (armed < ev.start ==> fireAt.None? && fires == [])
      && (armed >= ev.start ==> (fireAt.Some? <==> fires == []) && (fireAt.Some? ==> fireAt.value == ev.start + delay))
      && (fires != [] ==> ev.start + delay <= fires[0] && armed <= fires[0] <= now)
    }

    /** lmapd_run takes an event that is still to come for one in the past. */
    constructor (ev: OneOff, now: int, draw: nat)
      ensures Valid() && this.ev == ev && this.now == now && armed == now && fires == []
      ensures delay == if ev.spread.Some? then draw else 0
      ensures fireAt.Some? ==> fireAt.value - delay <= now
    {
      this.ev, this.now, armed := ev, now, now;
      fires, fireAt := [], None;
      var tv := if ev.spread.Some? then draw else 0;
      delay := tv;
      if !(now < ev.start) { fireAt := Some(now + (ev.start - now) + tv); }
    }

    /** The event loop wakes up and serves the timer if it is due. */
    method WakeUp(time: int)
      requires Valid() && now <= time
      modifies this
      ensures Valid() && now == time
      ensures fires == if old(fireAt).Some? && old(fireAt).value <= time then old(fires) + [time] else old(fires)
    {
      now := time;
      if fireAt.Some? && fireAt.value <= now {
        fires := fires + [now];
        fireAt := None;
      }
    }
  }

  /**
   A session that arms a one-off event and then wakes up at these times.  The event fires only
   if its time had come when the session was armed, and then once, when its spread has passed; an
   event that is still to come never fires, however long the session lasts.  A session that lasts
   long enough does what the configuration asks for only if it was armed at the very second.
   */
  method OneOffSession(ev: OneOff, now: int, draw: nat, clock: seq<int>) returns (t: OneOffTimer)
    requires forall k, l :: 0 <= k < l < |clock| ==> clock[k] <= clock[l]
    requires forall c :: c in clock ==> now <= c
    ensures fresh(t) && t.Valid() && t.ev == ev && t.armed == now && |t.fires| <= 1
    ensures t.delay == if ev.spread.Some? then draw else 0
    ensures t.fires != [] <==> ev.start <= now && exists c :: c in clock && ev.start + t.delay <= c
    ensures now < ev.start ==> t.fires == []
    ensures t.fires != [] ==> t.fires[0] in clock && now <= t.fires[0]
    ensures (exists c :: c in clock && ev.start + t.delay <= c) ==>
              ((t.fires != [] <==> now <= ev.start) <==> now == ev.start)
  {
    t := new OneOffTimer(ev, now, draw);
    for i := 0 to |clock|
      invariant t.Valid() && fresh(t) && t.ev == ev && t.armed == now && t.now == if i == 0 then now else clock[i - 1]
      invariant t.fires != [] ==> t.fires[0] in clock[..i]
      invariant t.fires != [] <==> ev.start <= now && exists c :: c in clock[..i] && ev.start + t.delay <= c
    {
      assert clock[..i + 1] == clock[..i] + [clock[i]];
      assert clock[i] in clock;
      t.WakeUp(clock[i]);
    }
    assert clock[..|clock|] == clock;
  }
}

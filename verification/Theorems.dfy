/**
 The main results about the scheduler, each for every run from a freshly loaded configuration:
 any sequence of events and deaths, any results of fork, any relation for fnmatch.
 */
module Theorems {
  import opened Common
  import opened Model
  import opened Invariants
  import opened Protocol
  import opened Isolation
  import opened Succession
  import opened Dataflow
  import W = Workspace

  // ------------------------------------------------------------------ processes

  /** A sequential schedule has at most one live process, and only while it is RUNNING or DISABLED. */
  lemma SequentialExclusion(cfg: Config, st: State, xs: seq<Input>, i: nat, j: nat, k: nat)
    requires Initial(st) && At(Run(cfg, st, xs), i, j) && At(Run(cfg, st, xs), i, k)
    requires var s := Run(cfg, st, xs).schedules[i]; s.cfg.mode == Sequential && s.actions[j].pid != 0
    ensures var s := Run(cfg, st, xs).schedules[i];
            (s.state == Running || s.state == Disabled) && (s.actions[k].pid != 0 ==> k == j)
  {
    Reachable(cfg, st, xs);
    var s := Run(cfg, st, xs).schedules[i];
    assert ScheduleOk(s) && Live(s.actions[j]) && OnlyLive(s, j);
    assert k != j ==> !Live(s.actions[k]);
  }

  /**
   Nothing wedges: a RUNNING action has a process, and its schedule is RUNNING or DISABLED; a
   RUNNING schedule has a process whose death will be noticed.
   */
  lemma NoWedge(cfg: Config, st: State, xs: seq<Input>, i: nat)
    requires Initial(st) && i < |Run(cfg, st, xs).schedules|
    ensures var st' := Run(cfg, st, xs); var s := st'.schedules[i];
            && (forall j :: 0 <= j < |s.actions| && s.actions[j].state == ActRunning ==>
               s.actions[j].pid in st'.world.children && Busy(s))
            && (s.state == Running ==> exists j :: 0 <= j < |s.actions| && s.actions[j].pid in st'.world.children)
  {
    Reachable(cfg, st, xs);
    var st' := Run(cfg, st, xs);
    var s := st'.schedules[i];
    assert ScheduleOk(s);
    forall j | 0 <= j < |s.actions| ensures s.actions[j].pid != 0 ==> s.actions[j].pid in st'.world.children {
      assert ActionCore(s, s.actions[j]) && PidAt(st', i, j) == s.actions[j].pid;
    }
    forall j | 0 <= j < |s.actions| && s.actions[j].state == ActRunning
      ensures s.actions[j].pid in st'.world.children && Busy(s)
    {
      assert ActionCore(s, s.actions[j]);
    }
    if s.state == Running {
      var j :| 0 <= j < |s.actions| && Live(s.actions[j]);
      assert s.actions[j].pid in st'.world.children;
    }
  }

  /** Looking up the pid of a live action finds that action, and finds its own schedule. */
  lemma PidIndex(cfg: Config, st: State, xs: seq<Input>, i: nat, j: nat)
    requires Initial(st) && At(Run(cfg, st, xs), i, j) && PidAt(Run(cfg, st, xs), i, j) != 0
    ensures Locate(Run(cfg, st, xs), PidAt(Run(cfg, st, xs), i, j)) == Some((i, j))
  {
    Reachable(cfg, st, xs);
    var st' := Run(cfg, st, xs);
    var at := Locate(st', PidAt(st', i, j));
    assert At(st', at.value.0, at.value.1) && PidAt(st', at.value.0, at.value.1) == PidAt(st', i, j);
  }

  // ------------------------------------------------------------------ the order of a sequential run

  /** An operation that moves the run of schedule i on. */
  ghost predicate RunOp(op: Op, i: nat) { (op.Invoked? || op.Launched? || op.Reaped?) && op.s == i }

  /** The last such operation before position p, if there is one. */
  ghost function LastRunOp(log: seq<Op>, i: nat, p: nat): (r: Option<nat>)
    requires p <= |log|
    ensures r.Some? ==> r.value < p && RunOp(log[r.value], i) && forall k :: r.value < k < p ==> !RunOp(log[k], i)
    ensures r.None? ==> forall k :: 0 <= k < p ==> !RunOp(log[k], i)
  {
    if p == 0 then None else if RunOp(log[p - 1], i) then Some(p - 1) else LastRunOp(log, i, p - 1)
  }

  lemma {:induction false} PhaseFromLast(log: seq<Op>, i: nat, p: nat)
    requires p <= |log| && !RunOf(i, log[..p]).phase.Disorder?
    ensures var r, ph := LastRunOp(log, i, p), RunOf(i, log[..p]).phase;
            match ph
            case Unstarted => r.None?
            case Between(k) => r.Some? && if k == 0 then log[r.value].Invoked?
                 else log[r.value].Reaped? && log[r.value].a == k - 1
            case Active(k) => r.Some? && log[r.value].Launched? && log[r.value].a == k
  {
    if p > 0 {
      assert log[..p][..p - 1] == log[..p - 1];
      if !RunOp(log[p - 1], i) { PhaseFromLast(log, i, p - 1); }
    }
  }

  lemma {:induction false} OrderlyPrefix(i: nat, log: seq<Op>, p: nat)
    requires p <= |log| && !RunOf(i, log).phase.Disorder?
    ensures !RunOf(i, log[..p]).phase.Disorder?
    decreases |log|
  {
    if p == |log| {
      assert log[..p] == log;
    } else {
      assert log[..|log| - 1][..p] == log[..p];
      OrderlyPrefix(i, log[..|log| - 1], p);
    }
  }

  /**
   The actions launched in one run of a sequential schedule are a prefix of its list: the first
   right after the invocation, every other one right after its predecessor was reaped; and a run
   begins only when the process of the previous one is gone.
   */
  lemma LaunchOrder(cfg: Config, st: State, xs: seq<Input>, i: nat, p: nat)
    requires Initial(st) && i < |st.schedules| && st.schedules[i].cfg.mode == Sequential
    requires p < |Run(cfg, st, xs).world.log|
    ensures var log := Run(cfg, st, xs).world.log;
            var r := LastRunOp(log, i, p);
            match log[p]
            case Launched(s, a, _) => s == i ==> r.Some? && if a == 0 then log[r.value] == Invoked(i)
                 else log[r.value].Reaped? && log[r.value].a == a - 1
            case Reaped(s, a, _) => s == i ==> r.Some? && log[r.value].Launched? && log[r.value].a == a
            case Invoked(s) => s == i ==> r.None? || !log[r.value].Launched?
            case _ => true
  {
    hide Run, Initial, ActionLinked;
    var st' := Run(cfg, st, xs);
    var log := st'.world.log;
    ReachableSound(cfg, st, xs);
    assert Sound(Names(st.schedules), st', i);
    OrderlyPrefix(i, log, p);
    OrderlyPrefix(i, log, p + 1);
    PhaseFromLast(log, i, p);
    assert log[..p + 1] == log[..p] + [log[p]];
    RunSnoc(i, log[..p], log[p]);
  }

  lemma {:induction false} TakenSince(i: nat, log: seq<Op>)
    requires RunOf(i, log).taken
    ensures exists r :: 0 <= r < |log| && log[r] == ScheduleMoved(i) && forall k :: r < k < |log| ==>
            log[k] != Invoked(i)
  {
    var m := |log| - 1;
    if log[m] != ScheduleMoved(i) {
      TakenSince(i, log[..m]);
      var r :| 0 <= r < m && log[..m][r] == ScheduleMoved(i) && forall k :: r < k < m ==> log[..m][k] != Invoked(i);
      assert log[r] == ScheduleMoved(i);
      forall k | r < k < |log| ensures log[k] != Invoked(i) { if k < m { assert log[..m][k] == log[k]; } }
    }
  }

  lemma {:induction false} SightedPrefix(i: nat, log: seq<Op>, p: nat)
    requires p <= |log| && !RunOf(i, log).blind
    ensures !RunOf(i, log[..p]).blind
    decreases |log|
  {
    if p == |log| {
      assert log[..p] == log;
    } else {
      assert log[..|log| - 1][..p] == log[..p];
      SightedPrefix(i, log[..|log| - 1], p);
    }
  }

  /** Every run of a schedule begins with its incoming queue taken over, after the previous run had begun. */
  lemma {:induction false} RunsOnFreshQueue(cfg: Config, st: State, xs: seq<Input>, i: nat, p: nat)
    requires Initial(st) && i < |st.schedules| && p < |Run(cfg, st, xs).world.log|
    requires Run(cfg, st, xs).world.log[p] == Invoked(i)
    ensures var log := Run(cfg, st, xs).world.log;
            exists r :: 0 <= r < p && log[r] == ScheduleMoved(i) && forall k :: r < k < p ==> log[k] != Invoked(i)
  {
    hide Run, Initial, ActionLinked;
    var log := Run(cfg, st, xs).world.log;
    ReachableSound(cfg, st, xs);
    assert Sound(Names(st.schedules), Run(cfg, st, xs), i);
    SightedPrefix(i, log, p + 1);
    assert log[..p + 1] == log[..p] + [log[p]];
    RunSnoc(i, log[..p], log[p]);
    TakenSince(i, log[..p]);
    var r :| 0 <= r < p && log[..p][r] == ScheduleMoved(i) && forall k :: r < k < p ==> log[..p][k] != Invoked(i);
    assert log[r] == ScheduleMoved(i);
    forall k | r < k < p ensures log[k] != Invoked(i) { assert log[..p][k] == log[k]; }
  }

  /** The cycle number is the greatest multiple of the interval that is not after now. */
  lemma {:induction false} CycleGrid(e: Event, now: nat, k: nat)
    requires e.cycleInterval > 0
    ensures var c := CycleNumber(e, now);
            c <= now < c + e.cycleInterval && (k * e.cycleInterval <= now ==> k * e.cycleInterval <= c)
  {
    var n, q := e.cycleInterval, now / e.cycleInterval;
    assert now == q * n + now % n;
    if k <= q { Scale(k, q, n); } else { Scale(q + 1, k, n); Scale(q, q + 1, n); }
  }

  lemma Scale(a: nat, b: nat, n: nat)
    requires a <= b
    ensures a * n <= b * n && (b == a + 1 ==> b * n == a * n + n)
  {
  }

  // ------------------------------------------------------------------ parallel schedules

  lemma ForkOnce(w: World, n: nat, log: seq<Op>)
    requires n > 0 && ForksWork(w, n)
    ensures ForkPid(w) > 0 && ForksWork(AfterFork(w).(log := log), n - 1) && ForksWork(w, n - 1)
  {
  }

  /** What a parallel start has done to the schedule so far: the ready actions among the first n run. */
  ghost predicate RunsReady(cfg: Config, st: State, st': State, i: nat, n: nat)
    requires i < |st.schedules| && n <= |st.schedules[i].actions|
  {
    var s := st.schedules[i];
    && |st'.schedules| == |st.schedules| && |st'.schedules[i].actions| == |s.actions|
    && ForksWork(st'.world, |s.actions| - n)
    && (forall k :: 0 <= k < n && Ready(cfg, s.actions[k]) ==>
       st'.schedules[i].actions[k].pid > 0 && st'.schedules[i].state == Running)
    && (forall k :: n <= k < |s.actions| ==> st'.schedules[i].actions[k] == s.actions[k])
  }

  lemma LaunchOneReady(cfg: Config, st0: State, st: State, i: nat, j: nat, now: nat)
    requires At(st0, i, j) && RunsReady(cfg, st0, st, i, j)
    ensures RunsReady(cfg, st0, LaunchAt(cfg, st, i, j, now), i, j + 1)
  {
    hide ActionExec, ForksWork, Ready, AfterFork, ForkPid;
    ForkOnce(st.world, |st0.schedules[i].actions| - j, st.world.log + [Launched(i, j, ForkPid(st.world))]);
    ReadySpawns(cfg, st, i, j, now);
    ActionExecFacts(cfg, st, i, j, now);
  }

  /** When fork does not fail, a parallel start runs every action that is ready. */
  lemma {:induction false} ParallelRunsAll(cfg: Config, st: State, i: nat, now: nat, n: nat)
    requires i < |st.schedules| && n <= |st.schedules[i].actions| && ForksWork(st.world, |st.schedules[i].actions|)
    ensures RunsReady(cfg, st, LaunchUpTo(cfg, st, i, now, n), i, n)
  {
    hide LaunchAt, Ready, ForksWork;
    if n > 0 {
      ParallelRunsAll(cfg, st, i, now, n - 1);
      LaunchOneReady(cfg, st, LaunchUpTo(cfg, st, i, now, n - 1), i, n - 1, now);
    }
  }

  // ------------------------------------------------------------------ results

  /**
   Results that wait for delivery are never orphaned: their schedule is RUNNING or DISABLED and
   still has a process to wait for.
   */
  lemma NoOrphans(cfg: Config, st: State, xs: seq<Input>, i: nat, j: nat)
    requires Initial(st) && At(Run(cfg, st, xs), i, j) && Run(cfg, st, xs).schedules[i].actions[j].deferred
    ensures var s := Run(cfg, st, xs).schedules[i];
            Busy(s) && exists k :: 0 <= k < |s.actions| && s.actions[k].pid != 0
  {
    Reachable(cfg, st, xs);
    var s := Run(cfg, st, xs).schedules[i];
    assert ScheduleOk(s) && SomeDeferred(s);
    var k :| 0 <= k < |s.actions| && Live(s.actions[k]);
    assert s.actions[k].pid != 0;
  }

  /**
   When a workspace is cleaned, the results of a dead process in it have gone wherever they are
   owed.  A live process may be at work in it: module Spoiling says exactly when.
   */
  lemma CleanedWhenSettled(cfg: Config, st: State, xs: seq<Input>, i: nat, j: nat, p: nat)
    requires Initial(st) && At(st, i, j) && p < |Run(cfg, st, xs).world.log|
    requires Run(cfg, st, xs).world.log[p] == ActionCleaned(i, j)
    ensures var ph := TrackOf(DestsOf(st, i, j), i, j, Run(cfg, st, xs).world.log[..p]).phase;
            && !ph.Broken? && (ph.Ended? ==> ph.moved == Owed(DestsOf(st, i, j), i, ph.status))
            && (ph.AtWork? <==> AtWorkIn(Run(cfg, st, xs).world.log[..p], i, j))
  {
    hide Run, Initial, DestsOf, Owed;
    var D, st' := DestsOf(st, i, j), Run(cfg, st, xs);
    var log := st'.world.log;
    ActionTracked(cfg, st, xs, i, j);
    assert log[..p + 1] == log[..p] + [log[p]];
    PrefixUnbroken(D, i, j, log[..p], log);
    PrefixUnbroken(D, i, j, log[..p + 1], log);
    TrackSnoc(D, i, j, log[..p], log[p]);
    WorkingPhase(D, i, j, log[..p]);
  }

  /**
   Results leave their schedule only after the death of one of its processes, and once no action
   of that schedule is RUNNING any more.
   */
  lemma DeliveredAtTheEnd(cfg: Config, st: State, x: Input, k: nat)
    requires Inv(st) && |st.world.log| <= k < |Step(cfg, st, x).world.log|
    requires var op := Step(cfg, st, x).world.log[k]; op.ActionMoved? && op.dst != op.s
    ensures x.Death? && Locate(st, x.pid).Some?
    ensures var st', i := Step(cfg, st, x), Locate(st, x.pid).value.0;
            && st'.world.log[k].s == i && i < |st'.schedules|
            && forall j :: 0 <= j < |st'.schedules[i].actions| ==> st'.schedules[i].actions[j].state != ActRunning
  {
    hide Reap;
    match x {
      case Fire(e, now) => FireMovesNone(cfg, st, e, now, k);
      case Death(pid, status, now) =>
        DeathTidy(cfg, st, pid, status, now);
        var st' := Reap(cfg, st, pid, status, now);
        assert Outward(st'.world.log[k]);
        var acts := st'.schedules[Locate(st, pid).value.0].actions;
        forall j | 0 <= j < |acts| ensures acts[j].state != ActRunning { assert acts[j] in acts; }
    }
  }

  // ------------------------------------------------------------------ exactly once

  /** Schedule d is the first one of that name. */
  ghost predicate FirstNamed(scheds: seq<Schedule>, name: string, d: nat) {
    && d < |scheds| && name != "" && scheds[d].cfg.name == name && forall k :: 0 <= k < d ==> scheds[k].cfg.name != name
  }

  /** Some destination of action j of schedule i names schedule d. */
  ghost predicate Addressed(st: State, i: nat, j: nat, d: nat)
    requires At(st, i, j)
  {
    var tags := st.schedules[i].actions[j].cfg.destinations;
    exists k :: 0 <= k < |tags| && FirstNamed(st.schedules, tags[k], d)
  }

  lemma ResolveFirst(scheds: seq<Schedule>, name: string, d: nat)
    ensures FirstNamed(scheds, name, d) <==> Resolve(Names(scheds), name) == Some(d)
  {
    var r := Resolve(Names(scheds), name);
    forall k | 0 <= k < |scheds| ensures Names(scheds)[k] == scheds[k].cfg.name {}
    if FirstNamed(scheds, name, d) { assert r.Some? && Names(scheds)[d] == name && Names(scheds)[r.value] == name; }
    if r.Some? { assert forall k :: 0 <= k < r.value ==> Names(scheds)[k] != name; }
  }

  lemma {:induction false} DestsAddressed(scheds: seq<Schedule>, tags: seq<string>, n: nat, d: nat)
    requires n <= |tags|
    ensures d in Dests(Names(scheds), tags, n) <==> exists k :: 0 <= k < n && FirstNamed(scheds, tags[k], d)
  {
    hide FirstNamed, Resolve;
    if n > 0 {
      DestsAddressed(scheds, tags, n - 1, d);
      ResolveFirst(scheds, tags[n - 1], d);
    }
  }

  /** The destinations are the schedules that are the first of a name in the list of destinations. */
  lemma {:induction false} AddressedExactly(st: State, i: nat, j: nat, d: nat)
    requires At(st, i, j)
    ensures d in DestsOf(st, i, j) <==> Addressed(st, i, j, d)
  {
    var tags := st.schedules[i].actions[j].cfg.destinations;
    DestsAddressed(st.schedules, tags, |tags|, d);
  }

  lemma {:induction false} DestsDistinct(names: seq<string>, tags: seq<string>, n: nat)
    requires n <= |tags| && forall k, l :: 0 <= k < l < |tags| ==> tags[k] != tags[l]
    ensures Distinct(Dests(names, tags, n))
    ensures forall d :: d in Dests(names, tags, n) ==> names[d] in tags[..n]
  {
    if n > 0 {
      DestsDistinct(names, tags, n - 1);
      assert tags[..n] == tags[..n - 1] + [tags[n - 1]];
      assert tags[n - 1] !in tags[..n - 1];
    }
  }

  /** The positions from p to q at which action j is moved to d. */
  ghost function MovesTo(hs: seq<Happening>, p: nat, q: nat, i: nat, j: nat, d: nat): set<nat>
    requires p <= q <= |hs|
  {
    set k: nat | p <= k < q && IsMove(hs[k], i, j) && hs[k].op.dst == d
  }

  lemma MovesToNext(hs: seq<Happening>, p: nat, q: nat, i: nat, j: nat, d: nat)
    requires p <= q < |hs|
    ensures MovesTo(hs, p, q + 1, i, j, d) ==
            MovesTo(hs, p, q, i, j, d) + (if IsMove(hs[q], i, j) && hs[q].op.dst == d then {q} else {})
    ensures q !in MovesTo(hs, p, q, i, j, d)
  {
  }

  lemma MovesToNone(hs: seq<Happening>, p: nat, i: nat, j: nat, d: nat)
    requires p <= |hs|
    ensures MovesTo(hs, p, p, i, j, d) == {} && Count(MovesIn(hs, p, p, i, j), d) == 0
  {
  }

  lemma CountSnoc(xs: seq<nat>, x: nat, d: nat)
    ensures Count(xs + [x], d) == Count(xs, d) + (if x == d then 1 else 0)
  {
  }

  lemma {:induction false} MovesCounted(hs: seq<Happening>, p: nat, q: nat, i: nat, j: nat, d: nat)
    requires p <= q <= |hs|
    ensures |MovesTo(hs, p, q, i, j, d)| == Count(MovesIn(hs, p, q, i, j), d)
    decreases q
  {
    hide Count, MovesTo;
    if p == q {
      MovesToNone(hs, p, i, j, d);
    } else {
      MovesCounted(hs, p, q - 1, i, j, d);
      MovesToNext(hs, p, q - 1, i, j, d);
      if IsMove(hs[q - 1], i, j) {
        CountSnoc(MovesIn(hs, p, q - 1, i, j), hs[q - 1].op.dst, d);
      } else {
        assert MovesIn(hs, p, q, i, j) == MovesIn(hs, p, q - 1, i, j);
      }
    }
  }

  /** No process of the schedule is alive. */
  ghost predicate AtRest(s: Schedule) { forall k :: 0 <= k < |s.actions| ==> s.actions[k].pid == 0 }

  /** How often the results of a process that ended with this status are handed to d. */
  function Handed(D: seq<nat>, i: nat, status: int, d: nat): nat {
    if status != 0 || d !in D then 0 else if d == i && (exists e :: e in D && e != i) then 2 else 1
  }

  /** Between p and q the results are handed to every destination the right number of times, complete each time. */
  ghost predicate HandedOver(D: seq<nat>, fs: Fs, hs: seq<Happening>, i: nat, j: nat, status: int, p: nat, q: nat)
    requires p < q <= |hs|
  {
    && (forall d :: |MovesTo(hs, p + 1, q, i, j, d)| == Handed(D, i, status, d))
    && (forall k :: p < k < q && IsMove(hs[k], i, j) ==> LinksAll(fs, hs, k, Look(FsAfter(fs, hs[..p]), WorkOf(i, j))))
  }

  /**
   Delivery, exactly once.  When no process of a schedule is alive, the workspace of every
   process that ended in it has been cleaned; and between its end and that cleaning its results
   were linked once into each other destination, never after a failure, and the own schedule got
   them once, or twice when there is another destination.  A DISABLED schedule is no exception.
   */
  lemma {:induction false} ExactlyOnce(cfg: Config, st: State, xs: seq<Input>, fs: Fs, hs: seq<Happening>,
                                       i: nat, j: nat, status: int, p: nat)
    requires Initial(st) && At(st, i, j) && OpsOf(hs) == Run(cfg, st, xs).world.log && Plausible(fs, hs)
    requires p < |hs| && hs[p].Did? && hs[p].op == Reaped(i, j, status)
    requires i < |Run(cfg, st, xs).schedules| && AtRest(Run(cfg, st, xs).schedules[i])
    requires forall k, l :: 0 <= k < l < |st.schedules[i].actions[j].cfg.destinations| ==>
               st.schedules[i].actions[j].cfg.destinations[k] != st.schedules[i].actions[j].cfg.destinations[l]
    ensures exists q :: Window(hs, i, j, p, q) && HandedOver(DestsOf(st, i, j), fs, hs, i, j, status, p, q)
  {
    hide Run, Plausible, OpsOf, LinksAll, MovesTo;
    var D := DestsOf(st, i, j);
    Delivery(cfg, st, xs, fs, hs, i, j, status, p);
    var q :| Window(hs, i, j, p, q) && DeliversAll(D, fs, hs, i, j, status, p, q);
    DestsDistinct(Names(st.schedules), st.schedules[i].actions[j].cfg.destinations,
      |st.schedules[i].actions[j].cfg.destinations|);
    OwedHanded(D, fs, hs, i, j, status, p, q);
  }

  lemma {:induction false} OwedHanded(D: seq<nat>, fs: Fs, hs: seq<Happening>, i: nat, j: nat, status: int, p: nat,
                                      q: nat)
    requires p < q < |hs| && Distinct(D) && DeliversAll(D, fs, hs, i, j, status, p, q)
    ensures HandedOver(D, fs, hs, i, j, status, p, q)
  {
    hide LinksAll, Count, MovesIn;
    forall d: nat ensures |MovesTo(hs, p + 1, q, i, j, d)| == Handed(D, i, status, d) {
      OwedCount(D, i, status, d);
      MovesCounted(hs, p + 1, q, i, j, d);
    }
  }

  /**
   The whole way of a file.  When no process of the schedule is alive, everything that a process
   which ended with status 0 left in its workspace has been linked once into the incoming folder
   of every other destination: at the one move to it, each regular file that is neither private
   nor hidden is there afterwards, unless its name was taken or a call failed for it.
   */
  lemma {:induction false} FileArrives(cfg: Config, st: State, xs: seq<Input>, fs: Fs, hs: seq<Happening>, i: nat,
                                       j: nat, p: nat, d: nat)
    requires Initial(st) && At(st, i, j) && OpsOf(hs) == Run(cfg, st, xs).world.log && Plausible(fs, hs)
    requires p < |hs| && hs[p].Did? && hs[p].op == Reaped(i, j, 0)
    requires i < |Run(cfg, st, xs).schedules| && AtRest(Run(cfg, st, xs).schedules[i])
    requires forall k, l :: 0 <= k < l < |st.schedules[i].actions[j].cfg.destinations| ==>
               st.schedules[i].actions[j].cfg.destinations[k] != st.schedules[i].actions[j].cfg.destinations[l]
    requires Addressed(st, i, j, d) && d != i
    ensures exists q, k :: Window(hs, i, j, p, q) && Arrival(fs, hs, i, j, p, q, d, k)
  {
    hide Run, Plausible, OpsOf, DestsOf, LinksAll, Addressed;
    AddressedExactly(st, i, j, d);
    ExactlyOnce(cfg, st, xs, fs, hs, i, j, 0, p);
    var q :| Window(hs, i, j, p, q) && HandedOver(DestsOf(st, i, j), fs, hs, i, j, 0, p, q);
    var m := MovesTo(hs, p + 1, q, i, j, d);
    assert |m| == Handed(DestsOf(st, i, j), i, 0, d) == 1;
    var k := OnlyElement(m);
    assert k in m;
    ArrivalAt(fs, hs, i, j, p, q, d, k);
  }

  lemma OnlyElement(m: set<nat>) returns (k: nat)
    requires |m| == 1
    ensures m == {k}
  {
    k :| k in m;
    assert |m - {k}| == 0;
  }

  /** k is the one move to d between p and q, and the files that process j left arrive there. */
  ghost predicate Arrival(fs: Fs, hs: seq<Happening>, i: nat, j: nat, p: nat, q: nat, d: nat, k: nat) {
    && p < k < q <= |hs| && MovesTo(hs, p + 1, q, i, j, d) == {k} && hs[k].Did?
    && var results := Look(FsAfter(fs, hs[..p]), WorkOf(i, j));
       var before, after := Look(FsAfter(fs, hs[..k]), IncomingOf(d)), Look(FsAfter(fs, hs[..k + 1]), IncomingOf(d));
       && (forall n :: n in results && W.Movable(n, results[n]) && n !in before && n !in hs[k].skip
                       ==> n in after && after[n] == results[n])
       && (forall n :: n in before ==> n in after && after[n] == before[n])
  }

  lemma {:induction false} ArrivalAt(fs: Fs, hs: seq<Happening>, i: nat, j: nat, p: nat, q: nat, d: nat, k: nat)
    requires d != i && p < q <= |hs| && MovesTo(hs, p + 1, q, i, j, d) == {k}
    requires k < |hs| && hs[k].Did? && hs[k].op.ActionMoved?
    requires LinksAll(fs, hs, k, Look(FsAfter(fs, hs[..p]), WorkOf(i, j)))
    ensures Arrival(fs, hs, i, j, p, q, d, k)
  {
    hide FsAfter, Look;
    assert k in MovesTo(hs, p + 1, q, i, j, d);
  }

  /**
   Snapshot isolation: in a step taken while schedule i is RUNNING or DISABLED, its active queue
   gains files from its own actions only.  A one-shot schedule is DISABLED while its processes run.
   */
  lemma {:induction false} SnapshotIsolation(cfg: Config, st: State, xs: seq<Input>, x: Input, fs: Fs,
                                             hs: seq<Happening>, m: nat, k: nat, i: nat)
    requires Initial(st) && Plausible(fs, hs) && m <= k < |hs|
    requires OpsOf(hs[..m]) == Run(cfg, st, xs).world.log && OpsOf(hs) == Run(cfg, st, xs + [x]).world.log
    requires i < |Run(cfg, st, xs).schedules| && Busy(Run(cfg, st, xs).schedules[i])
    ensures var before, after := Look(FsAfter(fs, hs[..k]), ActiveOf(i)), Look(FsAfter(fs, hs[..k + 1]), ActiveOf(i));
            forall n :: n in after && n !in before ==>
              && hs[k].Did? && hs[k].op.ActionMoved? && hs[k].op.s == hs[k].op.dst == i
              && n in Look(FsAfter(fs, hs[..k]), WorkOf(i, hs[k].op.a))
  {
    var st1 := Run(cfg, st, xs);
    Reachable(cfg, st, xs);
    assert (xs + [x])[..|xs|] == xs;
    if hs[k].Shifted? {
      OpAt(hs, m, k);
      var l := |OpsOf(hs[..k])|;
      NoTakeOverWhileBusy(cfg, st1, x, i, l);
      assert hs[k].s != i;
    }
    var before, after := Look(FsAfter(fs, hs[..k]), ActiveOf(i)), Look(FsAfter(fs, hs[..k + 1]), ActiveOf(i));
    forall n | n in after && n !in before
      ensures hs[k].Did? && hs[k].op.ActionMoved? && hs[k].op.s == hs[k].op.dst == i
              && n in Look(FsAfter(fs, hs[..k]), WorkOf(i, hs[k].op.a))
    {
      ActiveGains(fs, hs, i, k, n);
    }
  }

  /** Where the operation of a happening stands in the log. */
  lemma OpAt(hs: seq<Happening>, m: nat, k: nat)
    requires m <= k < |hs| && hs[k].Shifted?
    ensures |OpsOf(hs[..m])| <= |OpsOf(hs[..k])| < |OpsOf(hs)| && OpsOf(hs)[|OpsOf(hs[..k])|] == ScheduleMoved(hs[k].s)
  {
    FsSnoc(map[], hs, k);
    assert [hs[k]][..0] == [] && OpsOf([]) == [];
    OpsPrefix(hs, k + 1);
    OpsPrefix(hs[..k], m);
    assert hs[..k][..m] == hs[..m];
  }
}

/**
 What an event does to a schedule that it starts: which actions it launches, what it records, and
 in which order it does so.  Everything is said about one step, its log and its result.
 */
module Firing {
  import opened Model
  import opened Invariants
  import opened Protocol
  import opened Isolation
  import opened Spoiling
  import opened Succession
  import opened Tasks
  import opened Theorems

  // ------------------------------------------------------------------ one visit

  /** The event starts schedule s: it is named and ENABLED, and the event is its start event. */
  predicate BegunBy(s: Schedule, e: Event) {
    s.cfg.name != "" && s.state == Enabled && s.cfg.start != "" && s.cfg.start == e.name
  }

  /** Events after which a schedule does not run again. */
  predicate Once(e: Event) { e.kind == OneOff || e.kind == Immediate || e.kind == Startup }

  /** All that is logged from log to log' concerns schedule i, signals apart. */
  lemma ExtendsSnoc(log: seq<Op>, log': seq<Op>, op: Op, i: nat)
    requires Extends(log, log', i) && About(op, i)
    ensures Extends(log, log' + [op], i)
  {
    assert (log' + [op])[..|log|] == log'[..|log|];
  }

  lemma {:induction false} CleanUpToAbout(st: State, i: nat, n: nat)
    ensures Extends(st.world.log, CleanUpTo(st, i, n).world.log, i)
  {
    if n > 0 {
      CleanUpToAbout(st, i, n - 1);
      ExtendsSnoc(st.world.log, CleanUpTo(st, i, n - 1).world.log, ActionCleaned(i, n - 1), i);
    }
  }

  lemma {:induction false} KillUpToAbout(st: State, i: nat, n: nat)
    requires i < |st.schedules| && n <= |st.schedules[i].actions|
    ensures Extends(st.world.log, KillUpTo(st, i, n).world.log, i)
    ensures OnlyKills(st.world.log, KillUpTo(st, i, n).world.log)
  {
    if n > 0 {
      KillUpToAbout(st, i, n - 1);
      var st1 := KillUpTo(st, i, n - 1);
      var op := Killed(st.schedules[i].actions[n - 1].pid);
      ExtendsSnoc(st.world.log, st1.world.log, op, i);
      KillsTrans(st.world.log, st1.world.log, st1.world.log + [op]);
      KillsTrans(st.world.log, st1.world.log, st1.world.log);
    }
  }

  /** Action j of schedule i was launched with pid p. */
  ghost predicate LaunchedIn(log: seq<Op>, log': seq<Op>, i: nat, j: nat, p: int) {
    exists k :: |log| <= k < |log'| && log'[k] == Launched(i, j, p)
  }

  /** From log to log' actions of schedule i were launched and nothing else happened. */
  ghost predicate OnlyLaunches(log: seq<Op>, log': seq<Op>, i: nat) {
    Grows(log, log') && forall k :: |log| <= k < |log'| ==> log'[k].Launched? && log'[k].s == i
  }

  /** What the start of action j leaves of it. */
  ghost predicate LaunchedAs(a: Action, b: Action, now: nat) {
    && b.cfg == a.cfg && b.pid > 0 && b.state == ActRunning && b.lastInvocation == now
       && b.invocations == a.invocations + 1
    && b.suppressions == a.suppressions && b.overlaps == a.overlaps && b.active == a.active && b.deferred == a.deferred
    && b.lastCompletion == a.lastCompletion && b.lastStatus == a.lastStatus && b.failures == a.failures
    && b.lastFailedCompletion == a.lastFailedCompletion && b.lastFailedStatus == a.lastFailedStatus
  }

  /** The task of the action is known and may run, and nothing forbids or prevents that it is looked at. */
  ghost predicate Eligible(a: Action) { a.cfg.name != "" && a.cfg.task.Some? && a.cfg.workspace }

  /** What an attempt that launches nothing leaves of an action: it counts a suppression or an overlap. */
  ghost function Passed(cfg: Config, a: Action): Action {
    var enabled := Eligible(a) && a.state != ActSuppressed && a.state != ActDisabled;
    a.(suppressions := a.suppressions + (if Eligible(a) && a.state == ActSuppressed then 1 else 0),
       overlaps := a.overlaps + (if enabled && Permitted(cfg, a.cfg) && Live(a) then 1 else 0))
  }

  ghost predicate PassedOver(cfg: Config, a: Action, b: Action) { b == Passed(cfg, a) }

  /** One attempt to start action j. */
  ghost predicate Attempted(cfg: Config, st: State, st': State, i: nat, j: nat, now: nat)
    requires At(st, i, j)
  {
    && |st'.schedules| == |st.schedules| && |st'.schedules[i].actions| == |st.schedules[i].actions|
    && (forall k :: 0 <= k < |st.schedules[i].actions| && k != j ==>
       st'.schedules[i].actions[k] == st.schedules[i].actions[k])
    && var a, b := st.schedules[i].actions[j], st'.schedules[i].actions[j];
    if Ready(cfg, a) && ForkPid(st.world) != 0 then
      && LaunchedAs(a, b, now) && b.pid == ForkPid(st.world)
      && st'.world.log == st.world.log + [Launched(i, j, b.pid)]
    else PassedOver(cfg, a, b) && st'.world.log == st.world.log
  }

  lemma ExecAttempts(cfg: Config, st: State, i: nat, j: nat, now: nat)
    requires At(st, i, j)
    ensures var r := ActionExec(cfg, st, i, j, now);
            && Attempted(cfg, st, r.st, i, j, now)
            && (r.rc == 1 <==> Ready(cfg, st.schedules[i].actions[j]) && ForkPid(st.world) != 0)
            && r.st.schedules[i].(actions := st.schedules[i].actions) == st.schedules[i]
  {
    hide Spawn, ArgsFit, Permitted, Attempted, PassedOver;
    var a := st.schedules[i].actions[j];
    SameAction(st, i, j);
    ReadySpawns(cfg, st, i, j, now);
    SpawnAttempts(cfg, st, i, j, now);
    if !Ready(cfg, a) {
      PassAttempts(cfg, st, i, j, now);
      assert ActionExec(cfg, st, i, j, now).st == SetAction(st, i, j, Passed(cfg, a));
    }
  }

  lemma PassAttempts(cfg: Config, st: State, i: nat, j: nat, now: nat)
    requires At(st, i, j) && !Ready(cfg, st.schedules[i].actions[j])
    ensures Attempted(cfg, st, SetAction(st, i, j, Passed(cfg, st.schedules[i].actions[j])), i, j, now)
  {
    hide Ready, Permitted;
  }

  lemma SpawnAttempts(cfg: Config, st: State, i: nat, j: nat, now: nat)
    requires At(st, i, j)
    ensures var r, a := Spawn(st, i, j, now), st.schedules[i].actions[j];
            && (Ready(cfg, a) ==> Attempted(cfg, st, r.st, i, j, now))
            && (r.rc == 1 <==> ForkPid(st.world) != 0)
            && |r.st.schedules| == |st.schedules|
            && r.st.schedules[i].(actions := st.schedules[i].actions) == st.schedules[i]
  {
    hide Permitted, ArgsFit;
  }

  /** The return code says why nothing was started: not meant to run, or an error. */
  lemma ExecReturns(cfg: Config, st: State, i: nat, j: nat, now: nat)
    requires At(st, i, j)
    ensures var a, rc := st.schedules[i].actions[j], ActionExec(cfg, st, i, j, now).rc;
            && (rc == 0 <==> !Eligible(a) || a.state == ActSuppressed || a.state == ActDisabled)
            && (rc == 1 <==> Ready(cfg, a) && ForkPid(st.world) != 0)
            && (rc == 0 || rc == 1 || rc == -1)
  {
  }

  /** Launching an action from schedule_exec makes its schedule RUNNING. */
  lemma LaunchAttempts(cfg: Config, st: State, i: nat, j: nat, now: nat)
    requires At(st, i, j)
    ensures var st' := LaunchAt(cfg, st, i, j, now);
            && Attempted(cfg, st, st', i, j, now)
            && st'.schedules[i].(actions := st.schedules[i].actions, state := st.schedules[i].state) == st.schedules[i]
            && st'.schedules[i].state ==
               if Ready(cfg, st.schedules[i].actions[j]) && ForkPid(st.world) != 0 then Running
               else st.schedules[i].state
  {
    hide ActionExec, Ready, PassedOver;
    ExecAttempts(cfg, st, i, j, now);
  }

  /** The first n actions have been tried. */
  ghost predicate Tried(cfg: Config, st: State, st': State, i: nat, n: nat, now: nat)
    requires i < |st.schedules| && n <= |st.schedules[i].actions|
  {
    && |st'.schedules| == |st.schedules|
    && var s, s' := st.schedules[i], st'.schedules[i];
    && |s'.actions| == |s.actions| && s'.(actions := s.actions, state := s.state) == s
    && OnlyLaunches(st.world.log, st'.world.log, i)
    && (forall k :: n <= k < |s.actions| ==> s'.actions[k] == s.actions[k])
    && (forall k :: 0 <= k < n ==> TriedAt(cfg, st, st', i, k, now))
    && (forall k :: |st.world.log| <= k < |st'.world.log| ==> st'.world.log[k].a < n)
    && s'.state == if |st'.world.log| > |st.world.log| then Running else s.state
  }

  /** Action k was launched, which its readiness allowed, or passed over. */
  ghost predicate TriedAt(cfg: Config, st: State, st': State, i: nat, k: nat, now: nat)
    requires At(st, i, k) && At(st', i, k)
  {
    var a, b := st.schedules[i].actions[k], st'.schedules[i].actions[k];
    || (Ready(cfg, a) && LaunchedAs(a, b, now) && LaunchedIn(st.world.log, st'.world.log, i, k, b.pid))
    || (PassedOver(cfg, a, b) && forall p :: !LaunchedIn(st.world.log, st'.world.log, i, k, p))
  }

  lemma LaunchedSnoc(log: seq<Op>, log': seq<Op>, i: nat, n: nat, q: int, k: nat, p: int)
    requires |log| <= |log'|
    ensures LaunchedIn(log, log' + [Launched(i, n, q)], i, k, p) <==>
            LaunchedIn(log, log', i, k, p) || (k == n && p == q)
  {
    var log2 := log' + [Launched(i, n, q)];
    assert log2[|log'|] == Launched(i, n, q);
    forall m | |log| <= m < |log'| ensures log2[m] == log'[m] {}
    if m :| |log| <= m < |log'| && log'[m] == Launched(i, k, p) { assert log2[m] == Launched(i, k, p); }
  }

  lemma TriedNext(cfg: Config, st0: State, st: State, i: nat, n: nat, now: nat)
    requires i < |st0.schedules| && n < |st0.schedules[i].actions| && Tried(cfg, st0, st, i, n, now)
    ensures Tried(cfg, st0, LaunchAt(cfg, st, i, n, now), i, n + 1, now)
  {
    hide LaunchAt, Ready, LaunchedAs, PassedOver, LaunchedIn;
    LaunchAttempts(cfg, st, i, n, now);
    var st' := LaunchAt(cfg, st, i, n, now);
    var log0, log, log' := st0.world.log, st.world.log, st'.world.log;
    var a, b := st.schedules[i].actions[n], st'.schedules[i].actions[n];
    NotLaunchedYet(log0, log, i, n);
    forall k: nat, p: int
      ensures LaunchedIn(log0, log', i, k, p) <==>
              LaunchedIn(log0, log, i, k, p) || (log' != log && k == n && p == b.pid)
    {
      if log' != log { LaunchedSnoc(log0, log, i, n, b.pid, k, p); }
    }
    forall k | 0 <= k < n + 1 ensures TriedAt(cfg, st0, st', i, k, now) {
      if k < n { assert TriedAt(cfg, st0, st, i, k, now); }
    }
  }

  lemma NotLaunchedYet(log0: seq<Op>, log: seq<Op>, i: nat, n: nat)
    requires |log0| <= |log| && forall k :: |log0| <= k < |log| ==> log[k].Launched? && log[k].a < n
    ensures forall p :: !LaunchedIn(log0, log, i, n, p)
  {
  }

  lemma {:induction false} LaunchUpToTries(cfg: Config, st: State, i: nat, now: nat, n: nat)
    requires i < |st.schedules| && n <= |st.schedules[i].actions|
    ensures Tried(cfg, st, LaunchUpTo(cfg, st, i, now, n), i, n, now)
  {
    hide LaunchAt, TriedAt;
    if n > 0 {
      LaunchUpToTries(cfg, st, i, now, n - 1);
      hide Tried;
      TriedNext(cfg, st, LaunchUpTo(cfg, st, i, now, n - 1), i, n - 1, now);
    }
  }

  // ------------------------------------------------------------------ what a start records

  /** The greatest multiple of the interval that is not after now, or 0 without an interval. */
  ghost predicate OnCycle(c: int, e: Event, now: nat) {
    if e.cycleInterval == 0 then c == 0
      else (exists k: nat :: c == k * e.cycleInterval) && c <= now < c + e.cycleInterval
  }

  /** The queue has been taken over, all workspaces cleaned, and the invocation recorded; actions are as they were. */
  ghost predicate Prelude(st: State, st1: State, e: Event, now: nat, i: nat)
    requires i < |st.schedules|
  {
    && |st1.schedules| == |st.schedules|
    && var s, t, n, b := st.schedules[i], st1.schedules[i], |st.schedules[i].actions|, |st.world.log|;
    && t == s.(cycleNumber := t.cycleNumber, lastInvocation := now, invocations := s.invocations + 1)
    && OnCycle(t.cycleNumber, e, now)
    && st1.world.(log := st.world.log) == st.world
    && |st1.world.log| == b + n + 2 && Grows(st.world.log, st1.world.log)
    && st1.world.log[b] == ScheduleMoved(i)
    && (forall j :: 0 <= j < n ==> st1.world.log[b + 1 + j] == ActionCleaned(i, j))
    && st1.world.log[b + 1 + n] == Invoked(i)
  }

  lemma {:induction false} CleanUpToExactly(st: State, i: nat, n: nat)
    ensures var log, log' := st.world.log, CleanUpTo(st, i, n).world.log;
            |log'| == |log| + n && Grows(log, log') && forall j :: 0 <= j < n ==> log'[|log| + j] == ActionCleaned(i, j)
  {
    if n > 0 { CleanUpToExactly(st, i, n - 1); }
  }

  lemma CycleOnGrid(e: Event, now: nat)
    ensures OnCycle(CycleNumber(e, now), e, now)
  {
    if e.cycleInterval != 0 {
      var n, q := e.cycleInterval, now / e.cycleInterval;
      assert now == q * n + now % n;
      assert CycleNumber(e, now) == q * n;
    }
  }

  function Prepared(st: State, e: Event, now: nat, i: nat): State
    requires i < |st.schedules|
  {
    CountInvocation(CleanUpTo(TakeOver(st, e, now, i), i, |st.schedules[i].actions|), i, now)
  }

  lemma PreludeRuns(st: State, e: Event, now: nat, i: nat)
    requires i < |st.schedules|
    ensures Prelude(st, Prepared(st, e, now, i), e, now, i)
  {
    hide CleanUpTo;
    CycleOnGrid(e, now);
    CleanUpToExactly(TakeOver(st, e, now, i), i, |st.schedules[i].actions|);
  }

  // ------------------------------------------------------------------ the start of one schedule

  /** What a start records besides launches, and the operations it logs before them. */
  ghost predicate Recorded(st: State, st': State, e: Event, now: nat, i: nat)
    requires i < |st.schedules|
  {
    && |st'.schedules| == |st.schedules|
    && var s, t, n, b := st.schedules[i], st'.schedules[i], |st.schedules[i].actions|, |st.world.log|;
    && t == s.(cycleNumber := t.cycleNumber, lastInvocation := now, invocations := s.invocations + 1,
               state := t.state, actions := t.actions)
    && |t.actions| == n && OnCycle(t.cycleNumber, e, now)
    && |st'.world.log| >= b + n + 2 && Grows(st.world.log, st'.world.log)
    && st'.world.log[b] == ScheduleMoved(i)
    && (forall j :: 0 <= j < n ==> st'.world.log[b + 1 + j] == ActionCleaned(i, j))
    && st'.world.log[b + 1 + n] == Invoked(i)
    && (forall k :: b + n + 2 <= k < |st'.world.log| ==> st'.world.log[k].Launched?)
  }

  /** Some action of schedule i was launched. */
  ghost predicate Launches(log: seq<Op>, log': seq<Op>, i: nat) { exists j, p :: LaunchedIn(log, log', i, j, p) }

  /** The state of a schedule that has been started. */
  function StateAfter(e: Event, launched: bool): ScheduleState {
    if Once(e) then Disabled else if launched then Running else Enabled
  }

  /**
   Each action was launched, which its readiness allowed, or passed over; where fork works, the ready
   ones were launched.
   */
  ghost predicate AllTried(cfg: Config, st: State, st': State, now: nat, i: nat)
    requires i < |st.schedules|
  {
    && i < |st'.schedules| && |st'.schedules[i].actions| == |st.schedules[i].actions|
    && (forall k :: 0 <= k < |st.schedules[i].actions| ==> TriedAt(cfg, st, st', i, k, now))
    && (ForksWork(st.world, |st.schedules[i].actions|) ==>
          forall k :: 0 <= k < |st.schedules[i].actions| && Ready(cfg, st.schedules[i].actions[k]) ==>
            Live(st'.schedules[i].actions[k]))
  }

  /** Only the first action was tried, and it was launched if it is ready and fork works. */
  ghost predicate FirstTried(cfg: Config, st: State, st': State, now: nat, i: nat)
    requires i < |st.schedules|
  {
    && i < |st'.schedules|
    && var acts, acts' := st.schedules[i].actions, st'.schedules[i].actions;
    && |acts'| == |acts| && (forall k :: 0 < k < |acts| ==> acts'[k] == acts[k])
    && (Launches(st.world.log, st'.world.log, i) <==> acts != [] && Ready(cfg, acts[0]) && ForkPid(st.world) != 0)
    && (acts != [] ==>
          if Ready(cfg, acts[0]) && ForkPid(st.world) != 0 then
            && LaunchedAs(acts[0], acts'[0], now) && acts'[0].pid == ForkPid(st.world)
            && LaunchedIn(st.world.log, st'.world.log, i, 0, ForkPid(st.world))
            && (forall a, p :: LaunchedIn(st.world.log, st'.world.log, i, a, p) ==> a == 0)
          else PassedOver(cfg, acts[0], acts'[0]))
  }

  /** Schedule i has been started. */
  ghost predicate RunBegins(cfg: Config, st: State, st': State, e: Event, now: nat, i: nat)
    requires i < |st.schedules|
  {
    match st.schedules[i].cfg.mode
    case Sequential =>
      && Recorded(st, st', e, now, i) && FirstTried(cfg, st, st', now, i)
      && st'.schedules[i].state == StateAfter(e, Launches(st.world.log, st'.world.log, i))
    case Parallel =>
      && Recorded(st, st', e, now, i) && AllTried(cfg, st, st', now, i)
      && st'.schedules[i].state == StateAfter(e, Launches(st.world.log, st'.world.log, i))
    case Pipelined => PipelineBegins(st, st', e, now, i)
  }

  /** A pipelined start cleans and disables, and that is all. */
  ghost predicate PipelineBegins(st: State, st': State, e: Event, now: nat, i: nat)
    requires i < |st.schedules|
  {
    && |st'.schedules| == |st.schedules|
    && var s, t, n, b := st.schedules[i], st'.schedules[i], |st.schedules[i].actions|, |st.world.log|;
    && t == s.(cycleNumber := t.cycleNumber, state := Disabled) && OnCycle(t.cycleNumber, e, now)
    && |st'.world.log| == b + n + 1 && Grows(st.world.log, st'.world.log) && st'.world.log[b] == ScheduleMoved(i)
    && (forall j :: 0 <= j < n ==> st'.world.log[b + 1 + j] == ActionCleaned(i, j))
  }

  /** The operations of the prelude launch nothing. */
  lemma PreludeLaunches(st: State, st1: State, log': seq<Op>, e: Event, now: nat, i: nat)
    requires i < |st.schedules| && Prelude(st, st1, e, now, i) && Grows(st1.world.log, log')
    ensures Grows(st.world.log, log')
    ensures forall j, p :: LaunchedIn(st.world.log, log', i, j, p) <==> LaunchedIn(st1.world.log, log', i, j, p)
  {
    var b, n := |st.world.log|, |st.schedules[i].actions|;
    assert log'[..b] == log'[..|st1.world.log|][..b];
    forall k | b <= k < |st1.world.log| ensures !log'[k].Launched? {
      assert log'[k] == log'[..|st1.world.log|][k] == st1.world.log[k];
      if b < k <= b + n { assert st1.world.log[b + 1 + (k - b - 1)] == ActionCleaned(i, k - b - 1); }
    }
  }

  lemma RecordedFrom(st: State, st1: State, st': State, e: Event, now: nat, i: nat)
    requires i < |st.schedules| && Prelude(st, st1, e, now, i) && OnlyLaunches(st1.world.log, st'.world.log, i)
    requires |st'.schedules| == |st.schedules| && |st'.schedules[i].actions| == |st.schedules[i].actions|
    requires var t1, t := st1.schedules[i], st'.schedules[i]; t.(actions := t1.actions, state := t1.state) == t1
    ensures Recorded(st, st', e, now, i)
  {
    var b, n := |st.world.log|, |st.schedules[i].actions|;
    assert st'.world.log[..b] == st'.world.log[..|st1.world.log|][..b];
    forall k | 0 <= k < |st1.world.log| ensures st'.world.log[k] == st1.world.log[k] {
      assert st'.world.log[k] == st'.world.log[..|st1.world.log|][k];
    }
  }

  lemma SequentialBegins(cfg: Config, st: State, e: Event, now: nat, i: nat)
    requires i < |st.schedules| && BegunBy(st.schedules[i], e) && st.schedules[i].cfg.mode == Sequential
    ensures RunBegins(cfg, st, Begin(cfg, st, e, now, i), e, now, i)
  {
    hide CleanUpTo, LaunchAt, Prelude, Prepared, Ready, LaunchedAs, PassedOver, Recorded, OnlyLaunches, LaunchedIn;
    var st1 := Prepared(st, e, now, i);
    PreludeRuns(st, e, now, i);
    PreludeFacts(st, st1, e, now, i);
    var st2 := if st.schedules[i].actions != [] then LaunchAt(cfg, st1, i, 0, now) else st1;
    var st' := Begin(cfg, st, e, now, i);
    BeginSequential(cfg, st, e, now, i);
    if st.schedules[i].actions != [] { LaunchAttempts(cfg, st1, i, 0, now); }
    OneLaunch(st1.world.log, st2.world.log, i, ForkPid(st.world));
    RecordedFrom(st, st1, st', e, now, i);
    PreludeLaunches(st, st1, st'.world.log, e, now, i);
    assert Recorded(st, st', e, now, i);
    var launched := st2.world.log != st1.world.log;
    assert forall a, p :: LaunchedIn(st.world.log, st'.world.log, i, a, p) <==>
           launched && a == 0 && p == ForkPid(st.world);
    assert Launches(st.world.log, st'.world.log, i) <==> launched by {
      if launched { assert LaunchedIn(st.world.log, st'.world.log, i, 0, ForkPid(st.world)); }
    }
    assert st'.schedules[i].state == StateAfter(e, launched);
    assert FirstTried(cfg, st, st', now, i);
  }

  /** At most one launch. */
  lemma OneLaunch(log: seq<Op>, log': seq<Op>, i: nat, p: int)
    requires log' == log || log' == log + [Launched(i, 0, p)]
    ensures OnlyLaunches(log, log', i) && Grows(log, log')
    ensures forall a, q :: LaunchedIn(log, log', i, a, q) <==> log' != log && a == 0 && q == p
  {
    if log' != log { assert log'[|log|] == Launched(i, 0, p); }
  }

  lemma PreludeFacts(st: State, st1: State, e: Event, now: nat, i: nat)
    requires i < |st.schedules| && Prelude(st, st1, e, now, i)
    ensures |st1.schedules| == |st.schedules| && st1.world.(log := st.world.log) == st.world
    ensures var s, t := st.schedules[i], st1.schedules[i];
            t.actions == s.actions && t.state == s.state && t.cfg == s.cfg
  {
  }

  lemma BeginSequential(cfg: Config, st: State, e: Event, now: nat, i: nat)
    requires i < |st.schedules| && BegunBy(st.schedules[i], e) && st.schedules[i].cfg.mode == Sequential
    requires |Prepared(st, e, now, i).schedules| == |st.schedules|
    requires Prepared(st, e, now, i).schedules[i].actions == st.schedules[i].actions
    ensures var st1, st' := Prepared(st, e, now, i), Begin(cfg, st, e, now, i);
            var st2 := if st.schedules[i].actions != [] then LaunchAt(cfg, st1, i, 0, now) else st1;
            && |st2.schedules| == |st'.schedules| && i < |st2.schedules| && st'.world == st2.world
            && st'.schedules[i] == st2.schedules[i].(state := if Once(e) then Disabled else st2.schedules[i].state)
  {
    hide CleanUpTo, LaunchAt;
    if st.schedules[i].actions != [] { LaunchAttempts(cfg, Prepared(st, e, now, i), i, 0, now); }
  }

  lemma BeginParallel(cfg: Config, st: State, e: Event, now: nat, i: nat)
    requires i < |st.schedules| && BegunBy(st.schedules[i], e) && st.schedules[i].cfg.mode == Parallel
    requires |Prepared(st, e, now, i).schedules| == |st.schedules|
    requires Prepared(st, e, now, i).schedules[i].actions == st.schedules[i].actions
    ensures var st2 := LaunchUpTo(cfg, Prepared(st, e, now, i), i, now, |st.schedules[i].actions|);
            var st' := Begin(cfg, st, e, now, i);
            && |st2.schedules| == |st'.schedules| && i < |st2.schedules| && st'.world == st2.world
            && st'.schedules[i] == st2.schedules[i].(state := if Once(e) then Disabled else st2.schedules[i].state)
  {
    hide CleanUpTo, LaunchAt, LaunchUpTo;
  }

  /** Something was launched exactly if the log has grown. */
  lemma SomeLaunch(log: seq<Op>, log': seq<Op>, i: nat)
    requires OnlyLaunches(log, log', i)
    ensures Launches(log, log', i) <==> |log'| > |log|
  {
    if |log'| > |log| {
      var op := log'[|log|];
      assert LaunchedIn(log, log', i, op.a, op.pid);
    }
  }

  lemma SameTries(cfg: Config, st: State, st1: State, st2: State, st': State, i: nat, k: nat, now: nat)
    requires At(st, i, k) && At(st1, i, k) && At(st2, i, k) && At(st', i, k)
    requires st1.schedules[i].actions == st.schedules[i].actions && st'.schedules[i].actions == st2.schedules[i].actions
    requires forall j, p :: LaunchedIn(st.world.log, st'.world.log, i, j, p) <==>
             LaunchedIn(st1.world.log, st2.world.log, i, j, p)
    requires TriedAt(cfg, st1, st2, i, k, now)
    ensures TriedAt(cfg, st, st', i, k, now)
  {
    hide Ready, LaunchedAs, PassedOver, LaunchedIn;
  }

  lemma ParallelBegins(cfg: Config, st: State, e: Event, now: nat, i: nat)
    requires i < |st.schedules| && BegunBy(st.schedules[i], e) && st.schedules[i].cfg.mode == Parallel
    ensures RunBegins(cfg, st, Begin(cfg, st, e, now, i), e, now, i)
  {
    hide CleanUpTo, LaunchUpTo, Prelude, Prepared, Ready, Recorded, OnlyLaunches, LaunchedIn, TriedAt, ForksWork, Begin;
    var st1, n := Prepared(st, e, now, i), |st.schedules[i].actions|;
    PreludeRuns(st, e, now, i);
    PreludeFacts(st, st1, e, now, i);
    BeginParallel(cfg, st, e, now, i);
    var st2, st' := LaunchUpTo(cfg, st1, i, now, n), Begin(cfg, st, e, now, i);
    LaunchUpToTries(cfg, st1, i, now, n);
    OnlyGrows(st1.world.log, st2.world.log, i);
    SomeLaunch(st1.world.log, st2.world.log, i);
    RecordedFrom(st, st1, st', e, now, i);
    PreludeLaunches(st, st1, st'.world.log, e, now, i);
    assert Launches(st.world.log, st'.world.log, i) <==> Launches(st1.world.log, st2.world.log, i);
    forall k | 0 <= k < n ensures TriedAt(cfg, st, st', i, k, now) {
      assert TriedAt(cfg, st1, st2, i, k, now);
      SameTries(cfg, st, st1, st2, st', i, k, now);
    }
    if ForksWork(st.world, n) { ReadyLive(cfg, st, st1, i, now); }
    assert AllTried(cfg, st, st', now, i);
  }

  lemma OnlyGrows(log: seq<Op>, log': seq<Op>, i: nat)
    requires OnlyLaunches(log, log', i)
    ensures Grows(log, log')
  {
  }

  lemma ReadyLive(cfg: Config, st: State, st1: State, i: nat, now: nat)
    requires i < |st.schedules| == |st1.schedules| && st1.schedules[i].actions == st.schedules[i].actions
    requires st1.world.(log := st.world.log) == st.world && ForksWork(st.world, |st.schedules[i].actions|)
    ensures var n := |st.schedules[i].actions|;
            forall k :: 0 <= k < n && Ready(cfg, st.schedules[i].actions[k]) ==>
              Live(LaunchUpTo(cfg, st1, i, now, n).schedules[i].actions[k])
  {
    hide Ready, LaunchUpTo;
    ParallelRunsAll(cfg, st1, i, now, |st.schedules[i].actions|);
  }

  lemma PipelinedBegins(cfg: Config, st: State, e: Event, now: nat, i: nat)
    requires i < |st.schedules| && BegunBy(st.schedules[i], e) && st.schedules[i].cfg.mode == Pipelined
    ensures RunBegins(cfg, st, Begin(cfg, st, e, now, i), e, now, i)
  {
    hide CleanUpTo;
    CycleOnGrid(e, now);
    CleanUpToExactly(TakeOver(st, e, now, i), i, |st.schedules[i].actions|);
  }

  lemma RunBegun(cfg: Config, st: State, e: Event, now: nat, i: nat)
    requires i < |st.schedules| && BegunBy(st.schedules[i], e)
    ensures RunBegins(cfg, st, Begin(cfg, st, e, now, i), e, now, i)
  {
    hide RunBegins, Begin;
    match st.schedules[i].cfg.mode {
      case Sequential => SequentialBegins(cfg, st, e, now, i);
      case Parallel => ParallelBegins(cfg, st, e, now, i);
      case Pipelined => PipelinedBegins(cfg, st, e, now, i);
    }
  }

  /** A schedule that the event does not start: it counts the firing, and nothing is logged. */
  ghost predicate Missed(s: Schedule, s': Schedule, e: Event) {
    var due := s.cfg.name != "" && s.cfg.start != "" && s.cfg.start == e.name;
    s' == s.(state := if s.cfg.name == "" then Disabled else s.state,
             suppressions := s.suppressions + (if due && s.state == Suppressed then 1 else 0),
             overlaps := s.overlaps + (if due && s.state == Running then 1 else 0))
  }

  lemma NotBegun(cfg: Config, st: State, e: Event, now: nat, i: nat)
    requires i < |st.schedules| && !BegunBy(st.schedules[i], e)
    ensures var st' := ExecuteStart(cfg, st, e, now, i);
            st'.world == st.world && |st'.schedules| == |st.schedules| && Missed(st.schedules[i], st'.schedules[i], e)
  {
    hide Begin;
  }

  // ------------------------------------------------------------------ one step

  lemma ScheduleExecAbout(cfg: Config, st: State, i: nat, now: nat)
    requires i < |st.schedules|
    ensures Extends(st.world.log, ScheduleExec(cfg, st, i, now).world.log, i)
  {
    hide CleanUpTo, LaunchAt, LaunchUpTo, Extends, Tried, Attempted;
    var s := st.schedules[i];
    var st1 := CleanUpTo(st, i, |s.actions|);
    var st2 := CountInvocation(st1, i, now);
    CleanUpToAbout(st, i, |s.actions|);
    NothingAbout(st.world.log, i);
    ExtendsSnoc(st.world.log, st1.world.log, Invoked(i), i);
    if s.actions != [] { LaunchAbout(cfg, st2, i, 0, now); }
    LaunchUpToAbout(cfg, st2, i, now, |s.actions|);
    ExtendsTrans(st.world.log, st2.world.log, LaunchUpTo(cfg, st2, i, now, |s.actions|).world.log, i);
    if s.actions != [] { ExtendsTrans(st.world.log, st2.world.log, LaunchAt(cfg, st2, i, 0, now).world.log, i); }
  }

  lemma NothingAbout(log: seq<Op>, i: nat)
    ensures Extends(log, log, i)
  {
  }

  lemma LaunchAbout(cfg: Config, st: State, i: nat, j: nat, now: nat)
    requires At(st, i, j)
    ensures Extends(st.world.log, LaunchAt(cfg, st, i, j, now).world.log, i)
  {
    hide LaunchAt, Ready, LaunchedAs, PassedOver;
    LaunchAttempts(cfg, st, i, j, now);
  }

  lemma LaunchUpToAbout(cfg: Config, st: State, i: nat, now: nat, n: nat)
    requires i < |st.schedules| && n <= |st.schedules[i].actions|
    ensures Extends(st.world.log, LaunchUpTo(cfg, st, i, now, n).world.log, i)
  {
    hide LaunchUpTo, TriedAt;
    LaunchUpToTries(cfg, st, i, now, n);
  }

  lemma ExecuteOneAbout(cfg: Config, st: State, e: Event, now: nat, i: nat)
    requires i < |st.schedules|
    ensures Extends(st.world.log, ExecuteOne(cfg, st, e, now, i).world.log, i)
  {
    hide ScheduleExec, KillUpTo, Extends;
    var log, st0 := st.world.log, TakeOver(st, e, now, i);
    NothingAbout(log, i);
    ExtendsSnoc(log, log, ScheduleMoved(i), i);
    ScheduleExecAbout(cfg, st0, i, now);
    ExtendsTrans(log, st0.world.log, ScheduleExec(cfg, st0, i, now).world.log, i);
    var st1 := ExecuteStart(cfg, st, e, now, i);
    KillUpToAbout(st1, i, |st1.schedules[i].actions|);
    ExtendsTrans(log, st1.world.log, KillUpTo(st1, i, |st1.schedules[i].actions|).world.log, i);
  }

  /** Nothing but signals is logged about schedule i from one log to the other. */
  ghost predicate SilentOn(log: seq<Op>, log': seq<Op>, i: nat) {
    Grows(log, log') && forall k :: |log| <= k < |log'| ==> log'[k].Killed? || log'[k].s != i
  }

  lemma SilentTrans(a: seq<Op>, b: seq<Op>, c: seq<Op>, i: nat)
    requires SilentOn(a, b, i) && SilentOn(b, c, i)
    ensures SilentOn(a, c, i)
  {
    assert c[..|a|] == c[..|b|][..|a|];
    forall k | |a| <= k < |c| ensures c[k].Killed? || c[k].s != i { if k < |b| { assert c[k] == c[..|b|][k]; } }
  }

  lemma OthersSilent(log: seq<Op>, log': seq<Op>, n: nat, i: nat)
    requires (Extends(log, log', n) && n != i) || OnlyKills(log, log')
    ensures SilentOn(log, log', i)
  {
  }

  /** Until schedule i is visited, and after that, nothing happens to it. */
  lemma {:induction false} VisitsSilent(cfg: Config, st: State, e: Event, now: nat, m: nat, n: nat, i: nat)
    requires Inv(st) && m <= n <= |st.schedules| && i < |st.schedules| && (n <= i || i < m)
    ensures |ExecuteCb(cfg, st, e, now, n).schedules| == |st.schedules| == |ExecuteCb(cfg, st, e, now, m).schedules|
    ensures ExecuteCb(cfg, st, e, now, n).schedules[i] == ExecuteCb(cfg, st, e, now, m).schedules[i]
    ensures SilentOn(ExecuteCb(cfg, st, e, now, m).world.log, ExecuteCb(cfg, st, e, now, n).world.log, i)
    decreases n
  {
    hide ExecuteOne, SilentOn, Inv;
    if m == n {
      OthersSilent(ExecuteCb(cfg, st, e, now, m).world.log, ExecuteCb(cfg, st, e, now, m).world.log, i + 1, i);
    } else {
      VisitsSilent(cfg, st, e, now, m, n - 1, i);
      var st1 := ExecuteCb(cfg, st, e, now, n - 1);
      ExecuteCbKeeps(cfg, st, e, now, n - 1);
      OneElsewhere(cfg, st1, e, now, n - 1, i);
      var log, log' := ExecuteCb(cfg, st, e, now, m).world.log, ExecuteOne(cfg, st1, e, now, n - 1).world.log;
      SilentTrans(log, st1.world.log, log', i);
    }
  }

  lemma OneElsewhere(cfg: Config, st: State, e: Event, now: nat, n: nat, i: nat)
    requires Inv(st) && n < |st.schedules| && i < |st.schedules| && i != n
    ensures |ExecuteOne(cfg, st, e, now, n).schedules| == |st.schedules|
    ensures ExecuteOne(cfg, st, e, now, n).schedules[i] == st.schedules[i]
    ensures SilentOn(st.world.log, ExecuteOne(cfg, st, e, now, n).world.log, i)
  {
    hide ExecuteOne;
    ExecuteOneKeeps(cfg, st, e, now, n);
    ExecuteOneAbout(cfg, st, e, now, n);
    OthersSilent(st.world.log, ExecuteOne(cfg, st, e, now, n).world.log, n, i);
  }

  /**
   The state in which the event comes to schedule i: suppressions have been told, and the schedules
   before it visited.
   */
  ghost function Visited(cfg: Config, st: State, e: Event, now: nat, i: nat): (r: State)
    requires i <= |SuppressCb(cfg, st, e, |st.supps|).schedules|
  {
    ExecuteCb(cfg, SuppressCb(cfg, st, e, |st.supps|), e, now, i)
  }

  /** One step, seen from schedule i: what was before its visit, the visit, and what came after. */
  lemma {:induction false} StepSplit(cfg: Config, st: State, e: Event, now: nat, i: nat)
    requires Inv(st) && i < |st.schedules|
    ensures var st1, st' := SuppressCb(cfg, st, e, |st.supps|), Step(cfg, st, Fire(e, now));
            && |st1.schedules| == |st.schedules| == |st'.schedules|
            && var pre := Visited(cfg, st, e, now, i);
            && |pre.schedules| == |st.schedules| && Inv(pre) && pre.schedules[i] == st1.schedules[i]
            && SilentOn(st.world.log, pre.world.log, i)
            && st'.schedules[i] == ExecuteOne(cfg, pre, e, now, i).schedules[i]
            && SilentOn(ExecuteOne(cfg, pre, e, now, i).world.log, st'.world.log, i)
  {
    hide ExecuteOne, SilentOn, Inv, SuppressCb;
    var st1 := SuppressCb(cfg, st, e, |st.supps|);
    SuppressCbCalm(cfg, st, e, |st.supps|);
    AllCalmKeeps(st, st1);
    SuppressCbHushes(cfg, st, e, |st.supps|);
    HushesSilent(st, st1, i);
    var n := |st1.schedules|;
    VisitsSilent(cfg, st1, e, now, 0, i, i);
    VisitsSilent(cfg, st1, e, now, i + 1, n, i);
    ExecuteCbKeeps(cfg, st1, e, now, i);
    ExecuteNone(cfg, st1, e, now);
    SilentTrans(st.world.log, st1.world.log, ExecuteCb(cfg, st1, e, now, i).world.log, i);
  }

  lemma HushesSilent(st: State, st1: State, i: nat)
    requires Hushes(st, st1)
    ensures SilentOn(st.world.log, st1.world.log, i) && |st1.schedules| == |st.schedules|
  {
    OthersSilent(st.world.log, st1.world.log, i + 1, i);
  }

  // ------------------------------------------------------------------ the theorems

  /**
   At position b the log takes over the queue of schedule i, then cleans its n workspaces, and then
   counts the invocation.
   */
  ghost predicate Opening(log: seq<Op>, b: nat, i: nat, n: nat, counted: bool) {
    && b + n + 1 + (if counted then 1 else 0) <= |log| && log[b] == ScheduleMoved(i)
    && (forall j :: 0 <= j < n ==> log[b + 1 + j] == ActionCleaned(i, j))
    && (counted ==> log[b + 1 + n] == Invoked(i))
  }

  lemma OpeningGrows(log: seq<Op>, log': seq<Op>, b: nat, i: nat, n: nat, counted: bool)
    requires Opening(log, b, i, n, counted) && Grows(log, log')
    ensures Opening(log', b, i, n, counted)
  {
    assert forall k :: 0 <= k < |log| ==> log'[k] == log'[..|log|][k];
  }

  lemma RecordedOpening(st: State, st': State, e: Event, now: nat, i: nat)
    requires i < |st.schedules| && Recorded(st, st', e, now, i)
    ensures Opening(st'.world.log, |st.world.log|, i, |st.schedules[i].actions|, true)
    ensures |st'.schedules| == |st.schedules| && Grows(st.world.log, st'.world.log)
    ensures var s, t := st.schedules[i], st'.schedules[i];
            && OnCycle(t.cycleNumber, e, now) && |t.actions| == |s.actions|
            && t == s.(cycleNumber := t.cycleNumber, lastInvocation := now, invocations := s.invocations + 1,
                       state := t.state, actions := t.actions)
  {
  }

  lemma LaunchedMore(a: seq<Op>, b: seq<Op>, c: seq<Op>, d: seq<Op>, i: nat)
    requires SilentOn(a, b, i) && Grows(b, c) && SilentOn(c, d, i)
    ensures Grows(a, d) && forall j, p :: LaunchedIn(a, d, i, j, p) <==> LaunchedIn(b, c, i, j, p)
  {
    assert d[..|a|] == d[..|c|][..|b|][..|a|];
    assert forall k :: 0 <= k < |b| ==> c[k] == c[..|b|][k];
    assert forall k :: 0 <= k < |c| ==> d[k] == d[..|c|][k];
    assert forall k :: |a| <= k < |d| && (k < |b| || |c| <= k) && d[k].Launched? ==> d[k].s != i;
    forall j, p ensures LaunchedIn(a, d, i, j, p) <==> LaunchedIn(b, c, i, j, p) {
      if LaunchedIn(b, c, i, j, p) {
        var k :| |b| <= k < |c| && c[k] == Launched(i, j, p);
        assert d[k] == Launched(i, j, p);
      }
      if LaunchedIn(a, d, i, j, p) {
        var k :| |a| <= k < |d| && d[k] == Launched(i, j, p);
        assert c[k] == Launched(i, j, p);
      }
    }
  }

  /**
   How a step that starts schedule i looks from there: its state when visited, right after its start,
   and at the end.
   */
  lemma {:induction false} StepBegins(cfg: Config, st: State, e: Event, now: nat, i: nat)
    requires Inv(st) && i < |st.schedules|
    requires BegunBy(SuppressCb(cfg, st, e, |st.supps|).schedules[i], e)
    ensures var pre := Visited(cfg, st, e, now, i);
            && |pre.schedules| == |st.schedules| && pre.schedules[i] == SuppressCb(cfg, st, e, |st.supps|).schedules[i]
            && var post, st' := Begin(cfg, pre, e, now, i), Step(cfg, st, Fire(e, now));
            && RunBegins(cfg, pre, post, e, now, i)
            && |st'.schedules| == |st.schedules| && st'.schedules[i] == post.schedules[i]
            && SilentOn(st.world.log, pre.world.log, i) && SilentOn(post.world.log, st'.world.log, i)
  {
    hide Begin, RunBegins, SilentOn, Inv, SuppressCb, Step;
    StepSplit(cfg, st, e, now, i);
    var pre := Visited(cfg, st, e, now, i);
    RunBegun(cfg, pre, e, now, i);
    VisitBegins(cfg, pre, e, now, i);
    var post := Begin(cfg, pre, e, now, i);
    SilentTrans(post.world.log, ExecuteOne(cfg, pre, e, now, i).world.log, Step(cfg, st, Fire(e, now)).world.log, i);
  }

  lemma VisitBegins(cfg: Config, st: State, e: Event, now: nat, i: nat)
    requires i < |st.schedules| && BegunBy(st.schedules[i], e)
    ensures var post, st' := Begin(cfg, st, e, now, i), ExecuteOne(cfg, st, e, now, i);
            st'.schedules[i] == post.schedules[i] && SilentOn(post.world.log, st'.world.log, i)
  {
    hide Begin, KillUpTo;
    var post := Begin(cfg, st, e, now, i);
    KillUpToAbout(post, i, |post.schedules[i].actions|);
    OthersSilent(post.world.log, post.world.log, i + 1, i);
    OthersSilent(post.world.log, KillUpTo(post, i, |post.schedules[i].actions|).world.log, i, i);
  }

  /**
   The start event of a sequential schedule that is ENABLED once the suppressions have been told:
   the step takes over the queue, cleans the workspaces, counts the invocation, and launches the
   first action if and only if it is ready and fork works when its turn comes; it launches nothing
   else.  The schedule is then RUNNING if something was launched, DISABLED after a one-shot event.
   */
  lemma {:induction false} SequentialStart(cfg: Config, st: State, e: Event, now: nat, i: nat)
    requires Inv(st) && i < |st.schedules|
    requires var s := SuppressCb(cfg, st, e, |st.supps|).schedules[i]; BegunBy(s, e) && s.cfg.mode == Sequential
    ensures var s, w := SuppressCb(cfg, st, e, |st.supps|).schedules[i], Visited(cfg, st, e, now, i).world;
            var st' := Step(cfg, st, Fire(e, now));
            var log, log' := st.world.log, st'.world.log;
            var starts := s.actions != [] && Ready(cfg, s.actions[0]) && ForkPid(w) != 0;
            && (Launches(log, log', i) <==> starts)
            && (starts ==> LaunchedIn(log, log', i, 0, ForkPid(w)))
            && (forall j, p :: LaunchedIn(log, log', i, j, p) ==> j == 0)
            && (exists b :: |log| <= b && Opening(log', b, i, |s.actions|, true))
            && |st'.schedules| == |st.schedules|
            && var t := st'.schedules[i];
            && |t.actions| == |s.actions| && (forall k :: 0 < k < |s.actions| ==> t.actions[k] == s.actions[k])
            && (starts ==> LaunchedAs(s.actions[0], t.actions[0], now) && t.actions[0].pid == ForkPid(w))
            && (!starts && s.actions != [] ==> PassedOver(cfg, s.actions[0], t.actions[0]))
            && t == s.(cycleNumber := t.cycleNumber, lastInvocation := now, invocations := s.invocations + 1,
                       state := StateAfter(e, starts), actions := t.actions)
            && OnCycle(t.cycleNumber, e, now)
  {
    hide Begin, SilentOn, Inv, SuppressCb, Step, Recorded, Ready, LaunchedAs, PassedOver, LaunchedIn, Opening;
    StepBegins(cfg, st, e, now, i);
    var pre := Visited(cfg, st, e, now, i);
    var post, st' := Begin(cfg, pre, e, now, i), Step(cfg, st, Fire(e, now));
    RecordedOpening(pre, post, e, now, i);
    SilentGrows(st.world.log, pre.world.log, i);
    SilentGrows(post.world.log, st'.world.log, i);
    LaunchedMore(st.world.log, pre.world.log, post.world.log, st'.world.log, i);
    OpeningGrows(post.world.log, st'.world.log, |pre.world.log|, i, |pre.schedules[i].actions|, true);
    assert Launches(st.world.log, st'.world.log, i) <==> Launches(pre.world.log, post.world.log, i);
  }

  lemma SilentGrows(log: seq<Op>, log': seq<Op>, i: nat)
    requires SilentOn(log, log', i)
    ensures |log| <= |log'| && Grows(log, log')
  {
  }

  /** Action k was launched in this step, which its readiness allowed, or it was passed over. */
  ghost predicate LaunchedOrPassed(cfg: Config, log: seq<Op>, log': seq<Op>, a: Action, b: Action, i: nat, k: nat,
                                   now: nat) {
    || (Ready(cfg, a) && LaunchedAs(a, b, now) && LaunchedIn(log, log', i, k, b.pid))
    || (PassedOver(cfg, a, b) && forall p :: !LaunchedIn(log, log', i, k, p))
  }

  /** The same for a parallel schedule: where fork works, exactly the ready actions are launched. */
  lemma {:induction false} ParallelStart(cfg: Config, st: State, e: Event, now: nat, i: nat)
    requires Inv(st) && i < |st.schedules|
    requires var s := SuppressCb(cfg, st, e, |st.supps|).schedules[i]; BegunBy(s, e) && s.cfg.mode == Parallel
    ensures var s, w := SuppressCb(cfg, st, e, |st.supps|).schedules[i], Visited(cfg, st, e, now, i).world;
            var st' := Step(cfg, st, Fire(e, now));
            var log, log' := st.world.log, st'.world.log;
            && |st'.schedules| == |st.schedules|
            && var t := st'.schedules[i];
            && |t.actions| == |s.actions|
            && (forall k :: 0 <= k < |s.actions| ==>
               LaunchedOrPassed(cfg, log, log', s.actions[k], t.actions[k], i, k, now))
            && (ForksWork(w, |s.actions|) ==>
                  forall k :: 0 <= k < |s.actions| && Ready(cfg, s.actions[k]) ==> Live(t.actions[k]))
            && (exists b :: |log| <= b && Opening(log', b, i, |s.actions|, true))
            && t == s.(cycleNumber := t.cycleNumber, lastInvocation := now, invocations := s.invocations + 1,
                       state := StateAfter(e, Launches(log, log', i)), actions := t.actions)
            && OnCycle(t.cycleNumber, e, now)
  {
    hide Begin, SilentOn, Inv, SuppressCb, Step, Recorded, Ready, LaunchedAs, PassedOver, LaunchedIn, Opening, TriedAt,
      ForksWork;
    StepBegins(cfg, st, e, now, i);
    var pre := Visited(cfg, st, e, now, i);
    var post, st' := Begin(cfg, pre, e, now, i), Step(cfg, st, Fire(e, now));
    RecordedOpening(pre, post, e, now, i);
    SilentGrows(st.world.log, pre.world.log, i);
    SilentGrows(post.world.log, st'.world.log, i);
    LaunchedMore(st.world.log, pre.world.log, post.world.log, st'.world.log, i);
    OpeningGrows(post.world.log, st'.world.log, |pre.world.log|, i, |pre.schedules[i].actions|, true);
    assert Launches(st.world.log, st'.world.log, i) <==> Launches(pre.world.log, post.world.log, i);
    var s, t := pre.schedules[i], st'.schedules[i];
    forall k | 0 <= k < |s.actions|
      ensures LaunchedOrPassed(cfg, st.world.log, st'.world.log, s.actions[k], t.actions[k], i, k, now)
    {
      assert TriedAt(cfg, pre, post, i, k, now);
      TriedMeans(cfg, pre, post, i, k, now);
    }
  }

  lemma TriedMeans(cfg: Config, st: State, st': State, i: nat, k: nat, now: nat)
    requires At(st, i, k) && At(st', i, k) && TriedAt(cfg, st, st', i, k, now)
    ensures LaunchedOrPassed(cfg, st.world.log, st'.world.log, st.schedules[i].actions[k], st'.schedules[i].actions[k],
            i, k, now)
  {
  }

  /** A pipelined schedule launches nothing and is DISABLED. */
  lemma {:induction false} PipelinedStart(cfg: Config, st: State, e: Event, now: nat, i: nat)
    requires Inv(st) && i < |st.schedules|
    requires var s := SuppressCb(cfg, st, e, |st.supps|).schedules[i]; BegunBy(s, e) && s.cfg.mode == Pipelined
    ensures var s, st' := SuppressCb(cfg, st, e, |st.supps|).schedules[i], Step(cfg, st, Fire(e, now));
            && |st'.schedules| == |st.schedules| && !Launches(st.world.log, st'.world.log, i)
            && (exists b :: |st.world.log| <= b && Opening(st'.world.log, b, i, |s.actions|, false))
            && var t := st'.schedules[i];
            t == s.(cycleNumber := t.cycleNumber, state := Disabled) && OnCycle(t.cycleNumber, e, now)
  {
    hide Begin, SilentOn, Inv, SuppressCb, Step, LaunchedIn, Opening, PipelineBegins;
    StepBegins(cfg, st, e, now, i);
    var pre := Visited(cfg, st, e, now, i);
    var post, st' := Begin(cfg, pre, e, now, i), Step(cfg, st, Fire(e, now));
    SilentGrows(st.world.log, pre.world.log, i);
    SilentGrows(post.world.log, st'.world.log, i);
    PipelineOpening(pre, post, e, now, i);
    LaunchedMore(st.world.log, pre.world.log, post.world.log, st'.world.log, i);
    OpeningGrows(post.world.log, st'.world.log, |pre.world.log|, i, |pre.schedules[i].actions|, false);
  }

  lemma PipelineOpening(st: State, st': State, e: Event, now: nat, i: nat)
    requires i < |st.schedules| && PipelineBegins(st, st', e, now, i)
    ensures Grows(st.world.log, st'.world.log)
            && Opening(st'.world.log, |st.world.log|, i, |st.schedules[i].actions|, false)
    ensures forall j, p :: !LaunchedIn(st.world.log, st'.world.log, i, j, p)
    ensures var s, t := st.schedules[i], st'.schedules[i];
            t == s.(cycleNumber := t.cycleNumber, state := Disabled) && OnCycle(t.cycleNumber, e, now)
  {
    var b := |st.world.log|;
    forall k | b <= k < |st'.world.log| ensures !st'.world.log[k].Launched? {
      if k > b { assert st'.world.log[b + 1 + (k - b - 1)] == ActionCleaned(i, k - b - 1); }
    }
  }

  /** A schedule that the event does not start has nothing but signals logged about it; it may count the firing. */
  lemma {:induction false} NoStart(cfg: Config, st: State, e: Event, now: nat, i: nat)
    requires Inv(st) && i < |st.schedules|
    requires !BegunBy(SuppressCb(cfg, st, e, |st.supps|).schedules[i], e)
    ensures var s, st' := SuppressCb(cfg, st, e, |st.supps|).schedules[i], Step(cfg, st, Fire(e, now));
            && SilentOn(st.world.log, st'.world.log, i)
            && |st'.schedules| == |st.schedules| && Missed(s, st'.schedules[i], e)
  {
    hide SilentOn, Inv, SuppressCb, Step, ExecuteStart, KillUpTo;
    StepSplit(cfg, st, e, now, i);
    var pre := Visited(cfg, st, e, now, i);
    NotBegun(cfg, pre, e, now, i);
    var st1 := ExecuteStart(cfg, pre, e, now, i);
    var post := ExecuteOne(cfg, pre, e, now, i);
    KillUpToAbout(st1, i, |st1.schedules[i].actions|);
    OthersSilent(st1.world.log, KillUpTo(st1, i, |st1.schedules[i].actions|).world.log, i, i);
    OthersSilent(st1.world.log, st1.world.log, i + 1, i);
    SilentTrans(st.world.log, pre.world.log, post.world.log, i);
    SilentTrans(st.world.log, post.world.log, Step(cfg, st, Fire(e, now)).world.log, i);
  }

  // ------------------------------------------------------------------ only what may run

  /** The action has a task whose program is a capability, and its arguments fit. */
  ghost predicate MayRun(cfg: Config, a: ActionCfg) {
    a.name != "" && a.workspace && exists k: nat :: RunsTask(cfg, a, k) && Fits(cfg, a, k)
  }

  lemma {:induction false} ReadyMayRun(cfg: Config, a: Action)
    requires Ready(cfg, a)
    ensures MayRun(cfg, a.cfg)
  {
    hide Permitted, ArgsFit, Fits;
    TaskExactly(cfg, a.cfg);
    var k: nat :| RunsTask(cfg, a.cfg, k);
    assert Fits(cfg, a.cfg, k);
  }

  /** Whatever the input is, a step launches only actions that may run. */
  lemma {:induction false} StepMayRun(cfg: Config, st: State, x: Input, i: nat, j: nat, p: int)
    requires Inv(st) && At(st, i, j) && LaunchedIn(st.world.log, Step(cfg, st, x).world.log, i, j, p)
    ensures MayRun(cfg, st.schedules[i].actions[j].cfg)
  {
    match x {
      case Fire(e, now) => FireMayRun(cfg, st, e, now, i, j, p);
      case Death(pid, status, now) => DeathMayRun(cfg, st, pid, status, now, i, j, p);
    }
  }

  lemma FireMayRun(cfg: Config, st: State, e: Event, now: nat, i: nat, j: nat, p: int)
    requires Inv(st) && At(st, i, j) && LaunchedIn(st.world.log, Step(cfg, st, Fire(e, now)).world.log, i, j, p)
    ensures MayRun(cfg, st.schedules[i].actions[j].cfg)
  {
    hide Inv, SuppressCb, Step, Ready, LaunchedAs, PassedOver, LaunchedIn, Opening, MayRun, Visited, ForksWork,
      SilentOn;
    SuppressCbHushes(cfg, st, e, |st.supps|);
    var log, log' := st.world.log, Step(cfg, st, Fire(e, now)).world.log;
    var s := SuppressCb(cfg, st, e, |st.supps|).schedules[i];
    assert SameProgress(st.schedules[i], s);
    assert Launches(log, log', i);
    if !BegunBy(s, e) {
      NoStart(cfg, st, e, now, i);
      SilentLaunchesNone(log, log', i);
    } else if s.cfg.mode == Sequential {
      SequentialStart(cfg, st, e, now, i);
      ReadyMayRun(cfg, s.actions[0]);
    } else if s.cfg.mode == Parallel {
      ParallelStart(cfg, st, e, now, i);
      var b := Step(cfg, st, Fire(e, now)).schedules[i].actions[j];
      assert LaunchedOrPassed(cfg, log, log', s.actions[j], b, i, j, now);
      ReadyMayRun(cfg, s.actions[j]);
    } else {
      PipelinedStart(cfg, st, e, now, i);
    }
  }

  lemma SilentLaunchesNone(log: seq<Op>, log': seq<Op>, i: nat)
    requires SilentOn(log, log', i)
    ensures !Launches(log, log', i)
  {
  }

  lemma DeathMayRun(cfg: Config, st: State, pid: int, status: WaitStatus, now: nat, i: nat, j: nat, p: int)
    requires Inv(st) && At(st, i, j) && LaunchedIn(st.world.log, Reap(cfg, st, pid, status, now).world.log, i, j, p)
    ensures MayRun(cfg, st.schedules[i].actions[j].cfg)
  {
    hide Inv, Reap, Ready, MayRun, ForkPid;
    var log, log' := st.world.log, Reap(cfg, st, pid, status, now).world.log;
    var k :| |log| <= k < |log'| && log'[k] == Launched(i, j, p);
    StopHalts(cfg, st, pid, status, now, k);
    var (n, m) := Locate(st, pid).value;
    LocatedLive(cfg, st, pid, status, now);
    SuccessorExactly(cfg, st, n, m, status, now);
    assert Launching(log, log');
    ReadyMayRun(cfg, st.schedules[i].actions[j]);
  }

  lemma LocatedLive(cfg: Config, st: State, pid: int, status: WaitStatus, now: nat)
    requires Locate(st, pid).Some? && |Reap(cfg, st, pid, status, now).world.log| > |st.world.log|
    ensures var (n, m) := Locate(st, pid).value; At(st, n, m) && PidAt(st, n, m) == pid != 0
  {
    hide ReapAt;
  }

  /** In every run, an action is launched only if its task is known, its program a capability, and its arguments fit. */
  lemma {:induction false} OnlyWhatMayRun(cfg: Config, st: State, xs: seq<Input>, i: nat, j: nat, k: nat)
    requires Initial(st) && At(st, i, j) && k < |Run(cfg, st, xs).world.log|
    requires var op := Run(cfg, st, xs).world.log[k]; op.Launched? && op.s == i && op.a == j
    ensures MayRun(cfg, st.schedules[i].actions[j].cfg)
  {
    hide Step, MayRun, Inv, LaunchedIn;
    if xs != [] {
      var ys, x := xs[..|xs| - 1], xs[|xs| - 1];
      var st1 := Run(cfg, st, ys);
      Reachable(cfg, st, ys);
      ReachableSound(cfg, st, ys);
      SignalsHitChildren(cfg, st1, x);
      var op := Run(cfg, st, xs).world.log[k];
      if k < |st1.world.log| {
        assert st1.world.log[k] == op;
        OnlyWhatMayRun(cfg, st, ys, i, j, k);
      } else {
        NewLaunch(st1.world.log, Run(cfg, st, xs).world.log, k);
        StepMayRun(cfg, st1, x, i, j, op.pid);
      }
    }
  }

  lemma NewLaunch(log: seq<Op>, log': seq<Op>, k: nat)
    requires |log| <= k < |log'| && log'[k].Launched?
    ensures LaunchedIn(log, log', log'[k].s, log'[k].a, log'[k].pid)
  {
  }
}

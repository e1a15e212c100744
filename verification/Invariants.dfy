/**
 What every reachable state of the scheduler satisfies: which processes may be live, which
 states a schedule and its actions may be in, where deferred results may wait, and that live
 pids are pairwise distinct children that are still to be reaped.
 */
module Invariants {
  import opened Common
  import opened Model

  ghost predicate Live(a: Action) { a.pid != 0 }
  ghost predicate SomeLive(s: Schedule) { exists j :: 0 <= j < |s.actions| && Live(s.actions[j]) }
  ghost predicate SomeDeferred(s: Schedule) { exists j :: 0 <= j < |s.actions| && s.actions[j].deferred }
  ghost predicate Busy(s: Schedule) { s.state == Running || s.state == Disabled }

  ghost predicate ActionCore(s: Schedule, a: Action) {
    && a.pid >= 0
    && (a.state == ActRunning ==> Live(a) && Busy(s))
    && (a.state == ActDisabled ==> !Live(a))
    && (a.deferred ==> !Live(a))
  }

  /** In a sequential schedule a live action is the only one, and no action behind it has run. */
  ghost predicate OnlyLive(s: Schedule, j: nat)
    requires j < |s.actions|
  {
    && Busy(s)
    && (forall k :: 0 <= k < |s.actions| && k != j ==> !Live(s.actions[k]))
    && (forall k :: j <= k < |s.actions| ==> !s.actions[k].deferred)
  }

  ghost predicate Core(s: Schedule) {
    && (forall j :: 0 <= j < |s.actions| ==> ActionCore(s, s.actions[j]))
    && (s.cfg.mode == Sequential ==> forall j :: 0 <= j < |s.actions| && Live(s.actions[j]) ==> OnlyLive(s, j))
  }

  ghost predicate ScheduleOk(s: Schedule) {
    && Core(s)
    && (s.state == Running ==> SomeLive(s))
    && (SomeDeferred(s) ==> Busy(s) && SomeLive(s))
  }

  function PidAt(st: State, i: nat, j: nat): int
    requires At(st, i, j)
  {
    st.schedules[i].actions[j].pid
  }

  ghost predicate PidsOk(st: State) {
    && (forall p :: p in st.world.children ==> p > 0)
    && (forall i, j :: At(st, i, j) && PidAt(st, i, j) != 0 ==> PidAt(st, i, j) in st.world.children)
    && (forall i, j, k, l :: At(st, i, j) && At(st, k, l) && PidAt(st, i, j) == PidAt(st, k, l) != 0 ==>
       i == k && j == l)
  }

  ghost predicate Inv(st: State) {
    PidsOk(st) && forall i :: 0 <= i < |st.schedules| ==> ScheduleOk(st.schedules[i])
  }

  /**
   st' differs from st in schedule i and in the world only; no configuration changes, and a stop is
   not taken back.
   */
  ghost predicate OnlyAt(st: State, st': State, i: nat)
    requires i < |st.schedules|
  {
    && |st'.schedules| == |st.schedules|
    && (forall k :: 0 <= k < |st.schedules| && k != i ==> st'.schedules[k] == st.schedules[k])
    && st'.supps == st.supps
    && st'.schedules[i].cfg == st.schedules[i].cfg && (st.schedules[i].stop ==> st'.schedules[i].stop)
    && |st'.schedules[i].actions| == |st.schedules[i].actions|
    && (forall j :: 0 <= j < |st.schedules[i].actions| ==>
       st'.schedules[i].actions[j].cfg == st.schedules[i].actions[j].cfg)
  }

  // ------------------------------------------------------------------ starting an action

  /** What action_exec does: a fresh pid for an action that was free to run, or at most a counter. */
  ghost predicate ExecFacts(st: State, r: Outcome, i: nat, j: nat, now: nat)
    requires At(st, i, j)
  {
    var st', a := r.st, st.schedules[i].actions[j];
    && OnlyAt(st, st', i)
    && st'.startupDone == st.startupDone
    && st'.schedules[i].(actions := st.schedules[i].actions) == st.schedules[i]
    && (forall k :: 0 <= k < |st.schedules[i].actions| && k != j ==>
       st'.schedules[i].actions[k] == st.schedules[i].actions[k])
    && var b := st'.schedules[i].actions[j];
    if r.rc == 1 then
      && a.state != ActSuppressed && a.state != ActDisabled && !Live(a)
      && b == Started(a, b.pid, now) && b.pid > 0 && b.pid !in st.world.children
      && st'.world.children == st.world.children + {b.pid}
      && st'.world.log == st.world.log + [Launched(i, j, b.pid)]
    else
      && b == a.(suppressions := b.suppressions, overlaps := b.overlaps)
      && st'.world.children == st.world.children && st'.world.log == st.world.log
  }

  lemma ActionExecFacts(cfg: Config, st: State, i: nat, j: nat, now: nat)
    requires At(st, i, j)
    ensures ExecFacts(st, ActionExec(cfg, st, i, j, now), i, j, now)
  {
    hide ExecFacts, RunTask;
    var a := st.schedules[i].actions[j];
    UnstartedFacts(st, i, j, now, a, 0);
    UnstartedFacts(st, i, j, now, a.(suppressions := a.suppressions + 1), 0);
    SameAction(st, i, j);
    RunTaskFacts(cfg, st, i, j, now);
  }

  lemma RunTaskFacts(cfg: Config, st: State, i: nat, j: nat, now: nat)
    requires At(st, i, j)
    ensures var a := st.schedules[i].actions[j];
            a.state != ActSuppressed && a.state != ActDisabled ==> ExecFacts(st, RunTask(cfg, st, i, j, now), i, j, now)
  {
    hide ExecFacts, Spawn, Permitted, ArgsFit;
    var a := st.schedules[i].actions[j];
    UnstartedFacts(st, i, j, now, a, -1);
    UnstartedFacts(st, i, j, now, a.(overlaps := a.overlaps + 1), -1);
    SameAction(st, i, j);
    SpawnFacts(st, i, j, now);
  }

  /** An action that is not started has at most a counter changed. */
  lemma UnstartedFacts(st: State, i: nat, j: nat, now: nat, b: Action, rc: int)
    requires At(st, i, j) && rc != 1
    requires var a := st.schedules[i].actions[j]; b == a.(suppressions := b.suppressions, overlaps := b.overlaps)
    ensures ExecFacts(st, Outcome(SetAction(st, i, j, b), rc), i, j, now)
  {
  }

  lemma SpawnFacts(st: State, i: nat, j: nat, now: nat)
    requires At(st, i, j)
    ensures var a := st.schedules[i].actions[j];
            a.state != ActSuppressed && a.state != ActDisabled && !Live(a) ==>
              ExecFacts(st, Spawn(st, i, j, now), i, j, now)
  {
  }

  /** One action of the schedule got a fresh pid, or none did. */
  lemma FreshPid(st: State, st': State, i: nat, j: nat)
    requires PidsOk(st) && At(st, i, j) && OnlyAt(st, st', i)
    requires forall k :: 0 <= k < |st.schedules[i].actions| && k != j ==>
             st'.schedules[i].actions[k].pid == st.schedules[i].actions[k].pid
    requires var p := st'.schedules[i].actions[j].pid;
             if p == st.schedules[i].actions[j].pid then st'.world.children == st.world.children
             else p > 0 && p !in st.world.children && st'.world.children == st.world.children + {p}
    ensures PidsOk(st')
  {
    forall k, l | At(st', k, l) && !(k == i && l == j) ensures PidAt(st', k, l) == PidAt(st, k, l) {}
  }

  lemma LaunchAtKeeps(cfg: Config, st: State, i: nat, j: nat, now: nat)
    requires At(st, i, j) && PidsOk(st) && ScheduleOk(st.schedules[i])
    requires st.schedules[i].state == Enabled || st.schedules[i].state == Running
    requires !SomeDeferred(st.schedules[i])
    requires st.schedules[i].cfg.mode == Sequential ==> !SomeLive(st.schedules[i])
    ensures var st' := LaunchAt(cfg, st, i, j, now);
            && PidsOk(st') && OnlyAt(st, st', i) && ScheduleOk(st'.schedules[i])
            && (st'.schedules[i].state == Enabled || st'.schedules[i].state == Running)
            && !SomeDeferred(st'.schedules[i])
  {
    hide ActionExec, ScheduleOk;
    ActionExecFacts(cfg, st, i, j, now);
    var Outcome(st1, rc) := ActionExec(cfg, st, i, j, now);
    FreshPid(st, st1, i, j);
    var st' := LaunchAt(cfg, st, i, j, now);
    SamePids(st1, st');
    LaunchedOk(st, Outcome(st1, rc), i, j, now);
  }

  /** The schedule after action_exec, RUNNING if the action was started. */
  lemma LaunchedOk(st: State, r: Outcome, i: nat, j: nat, now: nat)
    requires At(st, i, j) && ExecFacts(st, r, i, j, now) && ScheduleOk(st.schedules[i])
    requires st.schedules[i].state == Enabled || st.schedules[i].state == Running
    requires !SomeDeferred(st.schedules[i])
    requires st.schedules[i].cfg.mode == Sequential ==> !SomeLive(st.schedules[i])
    ensures ScheduleOk(MarkRunning(r, i).schedules[i]) && !SomeDeferred(MarkRunning(r, i).schedules[i])
  {
    var s, s' := st.schedules[i], MarkRunning(r, i).schedules[i];
    forall k | 0 <= k < |s'.actions| ensures !s'.actions[k].deferred { assert !s.actions[k].deferred; }
    forall k | 0 <= k < |s'.actions| ensures ActionCore(s', s'.actions[k]) { assert ActionCore(s, s.actions[k]); }
    if r.rc == 1 {
      assert Live(s'.actions[j]);
    } else {
      forall k | 0 <= k < |s'.actions| ensures s'.actions[k].pid == s.actions[k].pid {}
      if s.state == Running {
        var k :| 0 <= k < |s.actions| && Live(s.actions[k]);
        assert Live(s'.actions[k]);
      }
    }
  }

  /** Only the log and fields that PidsOk does not speak of changed. */
  lemma SamePids(st: State, st': State)
    requires PidsOk(st) && |st'.schedules| == |st.schedules| && st'.world.children == st.world.children
    requires forall i :: 0 <= i < |st.schedules| ==> |st'.schedules[i].actions| == |st.schedules[i].actions|
    requires forall i, j :: At(st, i, j) ==> PidAt(st', i, j) == PidAt(st, i, j)
    ensures PidsOk(st')
  {
    assert forall i, j :: At(st', i, j) ==> At(st, i, j);
  }

  // ------------------------------------------------------------------ schedule_exec, execute_cb

  /** A schedule in the middle of being started. */
  ghost predicate Starting(st: State, i: nat) {
    && i < |st.schedules| && PidsOk(st) && ScheduleOk(st.schedules[i])
    && (st.schedules[i].state == Enabled || st.schedules[i].state == Running)
    && !SomeDeferred(st.schedules[i])
  }

  /** Part of a start: st' is still being started, and came from st. */
  ghost predicate StartingFrom(st: State, st': State, i: nat) {
    i < |st.schedules| && OnlyAt(st, st', i) && Starting(st', i)
  }

  lemma LaunchStep(cfg: Config, st0: State, st: State, i: nat, j: nat, now: nat)
    requires StartingFrom(st0, st, i) && At(st, i, j) && st0.schedules[i].cfg.mode == Parallel
    ensures StartingFrom(st0, LaunchAt(cfg, st, i, j, now), i)
  {
    LaunchAtKeeps(cfg, st, i, j, now);
  }

  lemma {:induction false} LaunchUpToKeeps(cfg: Config, st: State, i: nat, now: nat, n: nat)
    requires Starting(st, i) && n <= |st.schedules[i].actions| && st.schedules[i].cfg.mode == Parallel
    ensures StartingFrom(st, LaunchUpTo(cfg, st, i, now, n), i)
  {
    hide LaunchAt;
    if n > 0 {
      LaunchUpToKeeps(cfg, st, i, now, n - 1);
      LaunchStep(cfg, st, LaunchUpTo(cfg, st, i, now, n - 1), i, n - 1, now);
    }
  }

  /** Nothing waits and nothing sequential is live in a schedule that may be started. */
  lemma IdleWhenEnabled(s: Schedule)
    requires ScheduleOk(s) && !Busy(s)
    ensures !SomeDeferred(s)
    ensures s.cfg.mode == Sequential ==> !SomeLive(s)
    ensures forall j :: 0 <= j < |s.actions| ==> s.actions[j].state != ActRunning
  {
    forall j | 0 <= j < |s.actions| ensures !s.actions[j].deferred && s.actions[j].state != ActRunning {
      assert ActionCore(s, s.actions[j]);
      assert s.actions[j].deferred ==> SomeDeferred(s);
    }
  }

  lemma FieldsKeepOk(s: Schedule, s': Schedule)
    requires ScheduleOk(s) && s'.cfg == s.cfg && s'.actions == s.actions
    requires s'.state == s.state || s'.state == Disabled
    ensures ScheduleOk(s')
  {
    assert forall j :: 0 <= j < |s.actions| && ActionCore(s, s.actions[j]) ==> ActionCore(s', s'.actions[j]);
    forall j | s.cfg.mode == Sequential && 0 <= j < |s.actions| && Live(s.actions[j])
      ensures OnlyLive(s', j)
    {
      assert OnlyLive(s, j);
    }
    if SomeLive(s) { var j :| 0 <= j < |s.actions| && Live(s.actions[j]); assert Live(s'.actions[j]); }
    if SomeDeferred(s') { var j :| 0 <= j < |s.actions| && s'.actions[j].deferred; assert s.actions[j].deferred; }
    if s'.state == Disabled && s.state != Disabled && SomeDeferred(s') { assert SomeLive(s'); }
  }

  lemma ScheduleExecKeeps(cfg: Config, st: State, i: nat, now: nat)
    requires i < |st.schedules| && PidsOk(st) && ScheduleOk(st.schedules[i]) && st.schedules[i].state == Enabled
    ensures var st' := ScheduleExec(cfg, st, i, now);
            PidsOk(st') && OnlyAt(st, st', i) && ScheduleOk(st'.schedules[i])
  {
    var s := st.schedules[i];
    IdleWhenEnabled(s);
    var st1 := CleanUpTo(st, i, |s.actions|);
    var st2 := CountInvocation(st1, i, now);
    FieldsKeepOk(s, st2.schedules[i]);
    SamePids(st, st2);
    assert SomeDeferred(st2.schedules[i]) ==> SomeDeferred(s);
    assert SomeLive(st2.schedules[i]) ==> SomeLive(s);
    match s.cfg.mode {
      case Sequential => if s.actions != [] { LaunchAtKeeps(cfg, st2, i, 0, now); }
      case Parallel => LaunchUpToKeeps(cfg, st2, i, now, |s.actions|);
      case Pipelined =>
        var st3 := SetSchedule(st1, i, s.(state := Disabled));
        FieldsKeepOk(s, st3.schedules[i]);
        SamePids(st, st3);
    }
  }

  lemma BeginKeeps(cfg: Config, st: State, e: Event, now: nat, i: nat)
    requires i < |st.schedules| && PidsOk(st) && ScheduleOk(st.schedules[i]) && st.schedules[i].state == Enabled
    ensures var st' := Begin(cfg, st, e, now, i);
            PidsOk(st') && OnlyAt(st, st', i) && ScheduleOk(st'.schedules[i])
  {
    hide ScheduleExec;
    var st0 := TakeOver(st, e, now, i);
    FieldsKeepOk(st.schedules[i], st0.schedules[i]);
    SamePids(st, st0);
    ScheduleExecKeeps(cfg, st0, i, now);
    var st2 := ScheduleExec(cfg, st0, i, now);
    var st' := Begin(cfg, st, e, now, i);
    FieldsKeepOk(st2.schedules[i], st'.schedules[i]);
    SamePids(st2, st');
  }

  lemma ExecuteOneKeeps(cfg: Config, st: State, e: Event, now: nat, i: nat)
    requires i < |st.schedules| && PidsOk(st) && ScheduleOk(st.schedules[i])
    ensures var st' := ExecuteOne(cfg, st, e, now, i);
            PidsOk(st') && OnlyAt(st, st', i) && ScheduleOk(st'.schedules[i])
  {
    hide ScheduleOk, PidsOk, KillUpTo;
    ExecuteStartKeeps(cfg, st, e, now, i);
    SamePids(ExecuteStart(cfg, st, e, now, i), ExecuteOne(cfg, st, e, now, i));
  }

  lemma ExecuteStartKeeps(cfg: Config, st: State, e: Event, now: nat, i: nat)
    requires i < |st.schedules| && PidsOk(st) && ScheduleOk(st.schedules[i])
    ensures var st' := ExecuteStart(cfg, st, e, now, i);
            PidsOk(st') && OnlyAt(st, st', i) && ScheduleOk(st'.schedules[i])
  {
    hide ScheduleOk, PidsOk, Begin;
    var s := st.schedules[i];
    if s.state == Enabled && s.cfg.name != "" && s.cfg.start != "" && s.cfg.start == e.name {
      BeginKeeps(cfg, st, e, now, i);
    } else {
      var st1 := ExecuteStart(cfg, st, e, now, i);
      FieldsKeepOk(s, st1.schedules[i]);
      SamePids(st, st1);
    }
  }

  lemma {:induction false} ExecuteCbKeeps(cfg: Config, st: State, e: Event, now: nat, n: nat)
    requires Inv(st) && n <= |st.schedules|
    ensures Inv(ExecuteCb(cfg, st, e, now, n))
  {
    if n > 0 {
      ExecuteCbKeeps(cfg, st, e, now, n - 1);
      ExecuteOneKeeps(cfg, ExecuteCb(cfg, st, e, now, n - 1), e, now, n - 1);
    }
  }

  // ------------------------------------------------------------------ suppressions

  /** The action states and schedule states a suppression may change, and nothing about processes. */
  ghost predicate CalmAction(a: Action, b: Action) {
    && b.cfg == a.cfg && b.pid == a.pid && b.deferred == a.deferred
    && (b.state == ActRunning ==> a.state == ActRunning)
    && (b.state == ActDisabled <==> a.state == ActDisabled)
  }

  ghost predicate Calm(s: Schedule, s': Schedule) {
    && s'.cfg == s.cfg && |s'.actions| == |s.actions| && (s.stop ==> s'.stop)
    && (s'.state == s.state || (!Busy(s) && !Busy(s')))
    && (forall j :: 0 <= j < |s.actions| ==> CalmAction(s.actions[j], s'.actions[j]))
  }

  ghost predicate AllCalm(st: State, st': State) {
    && |st'.schedules| == |st.schedules| && st'.world.children == st.world.children
    && (forall i :: 0 <= i < |st.schedules| ==> Calm(st.schedules[i], st'.schedules[i]))
  }

  lemma CalmKeepsOk(s: Schedule, s': Schedule)
    requires ScheduleOk(s) && Calm(s, s')
    ensures ScheduleOk(s')
  {
    forall j | 0 <= j < |s.actions|
      ensures ActionCore(s', s'.actions[j])
    {
      assert ActionCore(s, s.actions[j]) && CalmAction(s.actions[j], s'.actions[j]);
    }
    forall j | s.cfg.mode == Sequential && 0 <= j < |s.actions| && Live(s'.actions[j]) ensures OnlyLive(s', j) {
      assert CalmAction(s.actions[j], s'.actions[j]);
      assert OnlyLive(s, j);
    }
    if s'.state == Running || SomeDeferred(s') {
      if SomeDeferred(s') { var j :| 0 <= j < |s.actions| && s'.actions[j].deferred; assert s.actions[j].deferred; }
      var j :| 0 <= j < |s.actions| && Live(s.actions[j]);
      assert Live(s'.actions[j]);
    }
  }

  lemma AllCalmKeeps(st: State, st': State)
    requires Inv(st) && AllCalm(st, st')
    ensures Inv(st')
  {
    forall i | 0 <= i < |st.schedules|
      ensures ScheduleOk(st'.schedules[i])
    {
      CalmKeepsOk(st.schedules[i], st'.schedules[i]);
    }
    forall i: nat, j: nat | At(st, i, j) ensures PidAt(st', i, j) == PidAt(st, i, j) {
      assert Calm(st.schedules[i], st'.schedules[i])
             && CalmAction(st.schedules[i].actions[j], st'.schedules[i].actions[j]);
    }
    SamePids(st, st');
  }

  lemma AllCalmTrans(a: State, b: State, c: State)
    requires AllCalm(a, b) && AllCalm(b, c)
    ensures AllCalm(a, c)
  {
    forall i | 0 <= i < |a.schedules| ensures Calm(a.schedules[i], c.schedules[i]) {
      assert Calm(a.schedules[i], b.schedules[i]) && Calm(b.schedules[i], c.schedules[i]);
    }
  }

  /** suppression_start and suppression_end act on each schedule by itself. */
  ghost predicate Suppressing(cfg: Config, sup: SuppCfg, s: Schedule, s': Schedule) {
    if s.state == Disabled then s' == s
    else
      var t := SuppressSchedule(cfg, s, sup);
      && s' == t.(actions := s'.actions) && |s'.actions| == |s.actions|
      && forall j :: 0 <= j < |s.actions| ==> s'.actions[j] == SuppressedAction(cfg, t.stop, s.actions[j], sup)
  }

  ghost predicate Releasing(cfg: Config, sup: SuppCfg, s: Schedule, s': Schedule) {
    if s.state == Disabled then s' == s
    else
      var t := ReleaseSchedule(cfg, s, sup);
      && s' == t.(actions := s'.actions) && |s'.actions| == |s.actions|
      && forall j :: 0 <= j < |s.actions| ==> s'.actions[j] == ReleasedAction(cfg, s.actions[j], sup)
  }

  lemma SuppressAtFacts(cfg: Config, st: State, sup: SuppCfg, i: nat, j: nat)
    requires At(st, i, j)
    ensures var st' := SuppressAt(cfg, st, sup, i, j);
            var s := st.schedules[i];
            && st'.world.(log := st.world.log) == st.world
            && st' == st.(world := st'.world, schedules := st.schedules[i :=
                 s.(actions := s.actions[j := SuppressedAction(cfg, s.stop, s.actions[j], sup)])])
  {
    var s := st.schedules[i];
    if s.actions[j].state == ActDisabled {
      assert s.actions[j := s.actions[j]] == s.actions;
      assert st.schedules[i := s] == st.schedules;
    }
  }

  lemma {:induction false} SuppressActionsFacts(cfg: Config, st: State, sup: SuppCfg, i: nat, n: nat)
    requires i < |st.schedules| && n <= |st.schedules[i].actions|
    ensures var st' := SuppressActions(cfg, st, sup, i, n);
            var s, s' := st.schedules[i], st'.schedules[i];
            && OnlyAt(st, st', i) && st'.startupDone == st.startupDone
            && st'.world.(log := st.world.log) == st.world && s' == s.(actions := s'.actions)
            && (forall j :: 0 <= j < n ==> s'.actions[j] == SuppressedAction(cfg, s.stop, s.actions[j], sup))
            && (forall j :: n <= j < |s.actions| ==> s'.actions[j] == s.actions[j])
  {
    hide SuppressAt, SuppressedAction;
    if n > 0 {
      SuppressActionsFacts(cfg, st, sup, i, n - 1);
      SuppressAtFacts(cfg, SuppressActions(cfg, st, sup, i, n - 1), sup, i, n - 1);
    }
  }

  lemma {:induction false} ReleaseActionsFacts(cfg: Config, st: State, sup: SuppCfg, i: nat, n: nat)
    requires i < |st.schedules| && n <= |st.schedules[i].actions|
    ensures var st' := ReleaseActions(cfg, st, sup, i, n);
            var s, s' := st.schedules[i], st'.schedules[i];
            && OnlyAt(st, st', i) && st'.startupDone == st.startupDone
            && st'.world == st.world && s' == s.(actions := s'.actions)
            && (forall j :: 0 <= j < n ==> s'.actions[j] == ReleasedAction(cfg, s.actions[j], sup))
            && (forall j :: n <= j < |s.actions| ==> s'.actions[j] == s.actions[j])
  {
    hide ReleasedAction;
    if n > 0 { ReleaseActionsFacts(cfg, st, sup, i, n - 1); }
  }

  lemma SuppressOneFacts(cfg: Config, st: State, sup: SuppCfg, i: nat)
    requires i < |st.schedules|
    ensures var st' := SuppressOne(cfg, st, sup, i);
            && OnlyAt(st, st', i) && st'.startupDone == st.startupDone && st'.world.(log := st.world.log) == st.world
            && Suppressing(cfg, sup, st.schedules[i], st'.schedules[i])
  {
    var s := st.schedules[i];
    SuppressActionsFacts(cfg, SetSchedule(st, i, SuppressSchedule(cfg, s, sup)), sup, i, |s.actions|);
  }

  lemma {:induction false} SuppressUpToFacts(cfg: Config, st: State, sup: SuppCfg, n: nat)
    requires n <= |st.schedules|
    ensures var st' := SuppressUpTo(cfg, st, sup, n);
            && st'.supps == st.supps && st'.startupDone == st.startupDone && st'.world.(log := st.world.log) == st.world
            && (forall i :: 0 <= i < n ==> Suppressing(cfg, sup, st.schedules[i], st'.schedules[i]))
            && (forall i :: n <= i < |st.schedules| ==> st'.schedules[i] == st.schedules[i])
  {
    hide SuppressOne, Suppressing;
    if n > 0 {
      SuppressUpToFacts(cfg, st, sup, n - 1);
      SuppressOneFacts(cfg, SuppressUpTo(cfg, st, sup, n - 1), sup, n - 1);
    }
  }

  lemma ReleaseOneFacts(cfg: Config, st: State, sup: SuppCfg, i: nat)
    requires i < |st.schedules|
    ensures var st' := ReleaseOne(cfg, st, sup, i);
            && OnlyAt(st, st', i) && st'.startupDone == st.startupDone && st'.world == st.world
            && Releasing(cfg, sup, st.schedules[i], st'.schedules[i])
  {
    var s := st.schedules[i];
    ReleaseActionsFacts(cfg, SetSchedule(st, i, ReleaseSchedule(cfg, s, sup)), sup, i, |s.actions|);
  }

  lemma {:induction false} ReleaseUpToFacts(cfg: Config, st: State, sup: SuppCfg, n: nat)
    requires n <= |st.schedules|
    ensures var st' := ReleaseUpTo(cfg, st, sup, n);
            && st'.supps == st.supps && st'.startupDone == st.startupDone && st'.world == st.world
            && (forall i :: 0 <= i < n ==> Releasing(cfg, sup, st.schedules[i], st'.schedules[i]))
            && (forall i :: n <= i < |st.schedules| ==> st'.schedules[i] == st.schedules[i])
  {
    hide ReleaseOne, Releasing;
    if n > 0 {
      ReleaseUpToFacts(cfg, st, sup, n - 1);
      ReleaseOneFacts(cfg, ReleaseUpTo(cfg, st, sup, n - 1), sup, n - 1);
    }
  }

  lemma SuppressingCalm(cfg: Config, sup: SuppCfg, s: Schedule, s': Schedule)
    requires Suppressing(cfg, sup, s, s') || Releasing(cfg, sup, s, s')
    ensures Calm(s, s')
  {
  }

  lemma SuppressionStartCalm(cfg: Config, st: State, k: nat)
    requires k < |st.supps|
    ensures AllCalm(st, SuppressionStart(cfg, st, k))
  {
    SuppressUpToFacts(cfg, SetSupp(st, k, SuppActive), st.supps[k].cfg, |st.schedules|);
    var st' := SuppressionStart(cfg, st, k);
    forall i | 0 <= i < |st.schedules| ensures Calm(st.schedules[i], st'.schedules[i]) {
      if st' != st { SuppressingCalm(cfg, st.supps[k].cfg, st.schedules[i], st'.schedules[i]); }
    }
  }

  lemma SuppressionEndCalm(cfg: Config, st: State, k: nat)
    requires k < |st.supps|
    ensures AllCalm(st, SuppressionEnd(cfg, st, k))
  {
    ReleaseUpToFacts(cfg, SetSupp(st, k, SuppEnabled), st.supps[k].cfg, |st.schedules|);
    var st' := SuppressionEnd(cfg, st, k);
    forall i | 0 <= i < |st.schedules| ensures Calm(st.schedules[i], st'.schedules[i]) {
      if st' != st { SuppressingCalm(cfg, st.supps[k].cfg, st.schedules[i], st'.schedules[i]); }
    }
  }

  lemma SuppressCbOneCalm(cfg: Config, st: State, e: Event, k: nat)
    requires k < |st.supps|
    ensures AllCalm(st, SuppressCbOne(cfg, st, e, k))
  {
    if st.supps[k].state != SuppDisabled && st.supps[k].cfg.name != "" {
      var st1 := SuppressCbStart(cfg, st, e, k);
      SuppressionStartCalm(cfg, st, k);
      SuppressionEndCalm(cfg, st1, k);
      AllCalmTrans(st, st1, SuppressCbEnd(cfg, st1, e, k));
    }
  }

  lemma {:induction false} SuppressCbCalm(cfg: Config, st: State, e: Event, n: nat)
    requires n <= |st.supps|
    ensures AllCalm(st, SuppressCb(cfg, st, e, n))
  {
    if n > 0 {
      SuppressCbCalm(cfg, st, e, n - 1);
      SuppressCbOneCalm(cfg, SuppressCb(cfg, st, e, n - 1), e, n - 1);
      AllCalmTrans(st, SuppressCb(cfg, st, e, n - 1), SuppressCb(cfg, st, e, n));
    }
  }

  // ------------------------------------------------------------------ lmapd_cleanup

  ghost predicate SomeOther(dests: seq<nat>, i: nat) { exists d :: d in dests && d != i }

  lemma SomeOtherSnoc(dests: seq<nat>, n: nat, i: nat)
    requires 0 < n <= |dests|
    ensures SomeOther(dests[..n], i) <==> SomeOther(dests[..n - 1], i) || dests[n - 1] != i
  {
    assert dests[..n] == dests[..n - 1] + [dests[n - 1]];
    if SomeOther(dests[..n], i) { var d :| d in dests[..n] && d != i; assert d in dests[..n - 1] || d == dests[n - 1]; }
    if SomeOther(dests[..n - 1], i) { var d :| d in dests[..n - 1] && d != i; assert d in dests[..n]; }
    assert dests[n - 1] in dests[..n];
  }

  lemma SameAction(st: State, i: nat, j: nat)
    requires At(st, i, j)
    ensures SetAction(st, i, j, st.schedules[i].actions[j]) == st
  {
    var s := st.schedules[i];
    assert s.actions[j := s.actions[j]] == s.actions;
    assert st.schedules[i := s] == st.schedules;
  }

  lemma SetTwice(st: State, i: nat, j: nat, a: Action, b: Action)
    requires At(st, i, j)
    ensures SetAction(SetAction(st, i, j, a), i, j, b) == SetAction(st, i, j, b)
  {
    var s := st.schedules[i];
    assert s.actions[j := a][j := b] == s.actions[j := b];
    var s1, s2 := s.(actions := s.actions[j := a]), s.(actions := s.actions[j := b]);
    assert st.schedules[i := s1][i := s2] == st.schedules[i := s2];
  }

  lemma {:induction false} MoveOwnFacts(st: State, i: nat, j: nat, dests: seq<nat>, n: nat)
    requires At(st, i, j) && n <= |dests|
    ensures var st' := MoveOwnUpTo(st, i, j, dests, n);
            var a := st.schedules[i].actions[j];
            && st'.(world := st.world) == SetAction(st, i, j, a.(deferred := a.deferred || SomeOther(dests[..n], i)))
            && st'.world.(log := st.world.log) == st.world
  {
    SameAction(st, i, j);
    if n > 0 {
      MoveOwnFacts(st, i, j, dests, n - 1);
      SomeOtherSnoc(dests, n, i);
      var a := st.schedules[i].actions[j];
      SetTwice(st, i, j, a.(deferred := a.deferred || SomeOther(dests[..n - 1], i)), a.(deferred := true));
    }
  }

  /** The action after its process has been collected. */
  ghost function Collected(st: State, i: nat, j: nat, status: int, now: nat): Action
    requires At(st, i, j)
  {
    var a := st.schedules[i].actions[j];
    Completed(a, status, now).(deferred := a.deferred || (status == 0 && SomeOther(DestsOf(st, i, j), i)))
  }

  lemma CollectFacts(st: State, i: nat, j: nat, status: int, now: nat)
    requires At(st, i, j)
    ensures var st' := Collect(st, i, j, status, now);
            && st'.(world := st.world) == SetAction(st, i, j, Collected(st, i, j, status, now))
            && st'.world.(log := st.world.log) == st.world
  {
    var dests := DestsOf(st, i, j);
    var st1 := SetAction(st, i, j, Completed(st.schedules[i].actions[j], status, now));
    var st2 := Log(Log(st1, Reaped(i, j, status)), MetaEnded(i, j));
    MoveOwnFacts(st2, i, j, dests, |dests|);
    assert dests[..|dests|] == dests;
    SetTwice(st, i, j, st1.schedules[i].actions[j], Collected(st, i, j, status, now));
  }

  /** The first n actions with their deferral flag reset. */
  ghost function Flushed(acts: seq<Action>, n: nat): (r: seq<Action>)
    requires n <= |acts|
    ensures |r| == |acts|
  {
    seq(|acts|, k requires 0 <= k < |acts| => if k < n then acts[k].(deferred := false) else acts[k])
  }

  lemma FlushedSnoc(acts: seq<Action>, n: nat)
    requires 0 < n <= |acts|
    ensures Flushed(acts, n) == Flushed(acts, n - 1)[n - 1 := acts[n - 1].(deferred := false)]
  {
  }

  lemma FlushAtFacts(st: State, i: nat, j: nat)
    requires At(st, i, j)
    ensures var st' := FlushAt(st, i, j);
            && st'.(world := st.world) == SetAction(st, i, j, st.schedules[i].actions[j].(deferred := false))
            && st'.world.(log := st.world.log) == st.world
  {
  }

  lemma {:induction false} FlushUpToFacts(st: State, i: nat, n: nat)
    requires i < |st.schedules| && n <= |st.schedules[i].actions|
    ensures var st' := FlushUpTo(st, i, n);
            && st'.(world := st.world) == SetSchedule(st, i,
               st.schedules[i].(actions := Flushed(st.schedules[i].actions, n)))
            && st'.world.(log := st.world.log) == st.world
  {
    if n == 0 {
      assert Flushed(st.schedules[i].actions, 0) == st.schedules[i].actions;
      assert st.schedules[i := st.schedules[i]] == st.schedules;
    } else {
      FlushUpToFacts(st, i, n - 1);
      FlushedSnoc(st.schedules[i].actions, n);
      FlushAtFacts(FlushUpTo(st, i, n - 1), i, n - 1);
    }
  }

  ghost function Concluded(s: Schedule): Schedule {
    s.(state := if s.state == Running then (if s.active > 0 then Suppressed else Enabled) else s.state,
       failures := if SomeSuccess(s) then s.failures else s.failures + 1,
       actions := Flushed(s.actions, |s.actions|))
  }

  lemma SetScheduleTwice(st: State, i: nat, s1: Schedule, s2: Schedule)
    requires i < |st.schedules|
    ensures SetSchedule(SetSchedule(st, i, s1), i, s2) == SetSchedule(st, i, s2)
  {
    assert st.schedules[i := s1][i := s2] == st.schedules[i := s2];
  }

  lemma ConcludeFacts(st: State, i: nat)
    requires i < |st.schedules|
    ensures var st' := Conclude(st, i);
            && st'.(world := st.world) == SetSchedule(st, i, Concluded(st.schedules[i]))
            && st'.world.(log := st.world.log) == st.world
  {
    var s := st.schedules[i];
    var s1 := Settle(s);
    var s2 := s1.(actions := Flushed(s.actions, |s.actions|));
    FlushUpToFacts(SetSchedule(st, i, s1), i, |s.actions|);
    SetScheduleTwice(st, i, s1, s2);
    SetScheduleTwice(st, i, s2, Concluded(s));
  }

  /** The state between the collection of a process and the conclusion of its schedule. */
  ghost predicate Collecting(st: State, i: nat) {
    && i < |st.schedules| && PidsOk(st) && Core(st.schedules[i])
    && (st.schedules[i].cfg.mode == Sequential ==>
          forall j :: 0 <= j < |st.schedules[i].actions| && Live(st.schedules[i].actions[j]) ==>
            st.schedules[i].actions[j].state == ActRunning)
  }

  /** In a sequential schedule: nobody is live, and nobody behind j waits to be delivered. */
  ghost predicate Settled(s: Schedule, j: nat) {
    s.cfg.mode == Sequential ==>
      Busy(s) && forall k :: 0 <= k < |s.actions| ==> !Live(s.actions[k]) && (j < k ==> !s.actions[k].deferred)
  }

  lemma CollectKeeps(st0: State, st: State, i: nat, j: nat, status: int, now: nat)
    requires PidsOk(st0) && At(st0, i, j) && ScheduleOk(st0.schedules[i]) && Live(st0.schedules[i].actions[j])
    requires st == st0.(world := st0.world.(children := st0.world.children - {PidAt(st0, i, j)}))
    ensures var st' := Collect(st, i, j, status, now);
            OnlyAt(st0, st', i) && Collecting(st', i) && Settled(st'.schedules[i], j)
  {
    hide Collect;
    CollectFacts(st, i, j, status, now);
    CollectPids(st0, Collect(st, i, j, status, now), i, j, Collected(st, i, j, status, now));
    CollectCore(st.schedules[i], j, Collected(st, i, j, status, now));
  }

  /** Action j has lost its process, which was the only one with its pid. */
  lemma CollectPids(st: State, st': State, i: nat, j: nat, b: Action)
    requires PidsOk(st) && At(st, i, j) && Live(st.schedules[i].actions[j]) && b.pid == 0
    requires st'.schedules == SetAction(st, i, j, b).schedules
    requires st'.world.children == st.world.children - {PidAt(st, i, j)}
    ensures PidsOk(st')
  {
    forall k: nat, l: nat | At(st, k, l) && !(k == i && l == j) ensures PidAt(st', k, l) == PidAt(st, k, l) {}
  }

  lemma CollectCore(s: Schedule, j: nat, b: Action)
    requires j < |s.actions| && ScheduleOk(s) && Live(s.actions[j])
    requires b.pid == 0 && b.state == ActEnabled
    ensures var s' := s.(actions := s.actions[j := b]); Core(s') && Settled(s', j)
  {
    var s' := s.(actions := s.actions[j := b]);
    forall k | 0 <= k < |s.actions| ensures ActionCore(s', s'.actions[k]) { assert ActionCore(s, s.actions[k]); }
    if s.cfg.mode == Sequential { assert OnlyLive(s, j); }
  }

  lemma ContinueKeeps(cfg: Config, st: State, i: nat, j: nat, now: nat)
    requires Collecting(st, i) && At(st, i, j) && Settled(st.schedules[i], j)
    ensures OnlyAt(st, Continue(cfg, st, i, j, now), i) && Collecting(Continue(cfg, st, i, j, now), i)
  {
    var s := st.schedules[i];
    if j + 1 < |s.actions| && s.cfg.mode == Sequential && s.state != Suppressed && !s.stop {
      ActionExecFacts(cfg, st, i, j + 1, now);
      var Outcome(st', rc) := ActionExec(cfg, st, i, j + 1, now);
      FreshPid(st, st', i, j + 1);
      var s' := st'.schedules[i];
      forall k | 0 <= k < |s.actions| ensures ActionCore(s', s'.actions[k]) { assert ActionCore(s, s.actions[k]); }
      forall k | 0 <= k < |s.actions| && Live(s'.actions[k])
        ensures OnlyLive(s', k) && s'.actions[k].state == ActRunning
      {
        assert k == j + 1 && rc == 1;
      }
    }
  }

  lemma ConcludedOk(s: Schedule)
    requires Core(s) && !StillRunning(s)
    requires s.cfg.mode == Sequential ==> forall j :: 0 <= j < |s.actions| && Live(s.actions[j]) ==>
             s.actions[j].state == ActRunning
    ensures ScheduleOk(Concluded(s))
  {
    var s' := Concluded(s);
    forall j | 0 <= j < |s.actions|
      ensures ActionCore(s', s'.actions[j]) && s.actions[j].state != ActRunning && !s'.actions[j].deferred
    {
      assert ActionCore(s, s.actions[j]);
      assert s.actions[j] in s.actions;
    }
    if s.cfg.mode == Sequential {
      forall j | 0 <= j < |s.actions| ensures !Live(s'.actions[j]) { assert s.actions[j].pid == s'.actions[j].pid; }
    }
  }

  lemma RunningOk(s: Schedule)
    requires Core(s) && StillRunning(s)
    ensures ScheduleOk(s)
  {
    var a :| a in s.actions && a.state == ActRunning;
    var j :| 0 <= j < |s.actions| && s.actions[j] == a;
    assert ActionCore(s, s.actions[j]);
  }

  lemma ReapKeeps(cfg: Config, st: State, pid: int, status: WaitStatus, now: nat)
    requires Inv(st)
    ensures Inv(Reap(cfg, st, pid, status, now))
  {
    if pid > 0 && pid in st.world.children {
      var st0 := st.(world := st.world.(children := st.world.children - {pid}));
      var at := Locate(st, pid);
      if at.Some? {
        var (i, j) := at.value;
        ReapAtKeeps(cfg, st, st0, i, j, StatusOf(status), now);
      } else {
        forall k: nat, l: nat | At(st0, k, l) ensures PidAt(st0, k, l) == PidAt(st, k, l) != pid {}
      }
    }
  }

  /** What concerns one schedule only keeps the invariant if that schedule is in order. */
  lemma OnlyAtKeeps(st: State, st': State, i: nat)
    requires Inv(st) && i < |st.schedules| && OnlyAt(st, st', i) && PidsOk(st') && ScheduleOk(st'.schedules[i])
    ensures Inv(st')
  {
    hide ScheduleOk, PidsOk;
  }

  lemma ConcludeKeeps(st: State, i: nat)
    requires Collecting(st, i) && !StillRunning(st.schedules[i])
    ensures var st' := Conclude(st, i); OnlyAt(st, st', i) && PidsOk(st') && ScheduleOk(st'.schedules[i])
  {
    ConcludeFacts(st, i);
    ConcludedOk(st.schedules[i]);
    hide Conclude, ScheduleOk, StillRunning, Core;
    SamePids(st, Conclude(st, i));
  }

  lemma OnlyAtTrans(a: State, b: State, c: State, i: nat)
    requires i < |a.schedules| && OnlyAt(a, b, i) && OnlyAt(b, c, i)
    ensures OnlyAt(a, c, i)
  {
  }

  lemma ReapAtKeeps(cfg: Config, st0: State, st: State, i: nat, j: nat, status: int, now: nat)
    requires Inv(st0) && At(st0, i, j) && Live(st0.schedules[i].actions[j])
    requires st == st0.(world := st0.world.(children := st0.world.children - {PidAt(st0, i, j)}))
    ensures Inv(ReapAt(cfg, st, i, j, status, now)) && OnlyAt(st0, ReapAt(cfg, st, i, j, status, now), i)
  {
    hide Collect, Continue, Conclude, OnlyAt, ScheduleOk, PidsOk, StillRunning, Core;
    CollectKeeps(st0, st, i, j, status, now);
    var st1 := Collect(st, i, j, status, now);
    ContinueKeeps(cfg, st1, i, j, now);
    var st2 := Continue(cfg, st1, i, j, now);
    OnlyAtTrans(st0, st1, st2, i);
    if StillRunning(st2.schedules[i]) {
      RunningOk(st2.schedules[i]);
      OnlyAtKeeps(st0, st2, i);
    } else {
      ConcludeKeeps(st2, i);
      OnlyAtTrans(st0, st2, Conclude(st2, i), i);
      OnlyAtKeeps(st0, Conclude(st2, i), i);
    }
  }

  /** The death of a process concerns the schedule it ran for only. */
  lemma ReapAtElsewhere(cfg: Config, st0: State, st: State, i: nat, j: nat, status: int, now: nat)
    requires Inv(st0) && At(st0, i, j) && Live(st0.schedules[i].actions[j])
    requires st == st0.(world := st0.world.(children := st0.world.children - {PidAt(st0, i, j)}))
    ensures OnlyAt(st0, ReapAt(cfg, st, i, j, status, now), i)
  {
    ReapAtKeeps(cfg, st0, st, i, j, status, now);
  }

  /** A live pid belongs to an unreaped child and is found where it is. */
  lemma LocateLive(st: State, i: nat, j: nat)
    requires Inv(st) && At(st, i, j) && PidAt(st, i, j) != 0
    ensures PidAt(st, i, j) > 0 && PidAt(st, i, j) in st.world.children && Locate(st, PidAt(st, i, j)) == Some((i, j))
  {
    var at := Locate(st, PidAt(st, i, j));
    assert At(st, at.value.0, at.value.1) && PidAt(st, at.value.0, at.value.1) == PidAt(st, i, j);
  }

  // ------------------------------------------------------------------ all runs

  lemma StepKeeps(cfg: Config, st: State, x: Input)
    requires Inv(st)
    ensures Inv(Step(cfg, st, x))
  {
    match x {
      case Fire(e, now) =>
        SuppressCbCalm(cfg, st, e, |st.supps|);
        var st1 := SuppressCb(cfg, st, e, |st.supps|);
        AllCalmKeeps(st, st1);
        ExecuteCbKeeps(cfg, st1, e, now, |st1.schedules|);
      case Death(pid, status, now) => ReapKeeps(cfg, st, pid, status, now);
    }
  }

  lemma InitialInv(st: State)
    requires Initial(st)
    ensures Inv(st)
  {
    forall i | 0 <= i < |st.schedules|
      ensures ScheduleOk(st.schedules[i]) && forall j :: 0 <= j < |st.schedules[i].actions| ==>
              !Live(st.schedules[i].actions[j])
    {
      var s := st.schedules[i];
      assert InitialSchedule(s);
      forall j | 0 <= j < |s.actions|
        ensures ActionCore(s, s.actions[j]) && !Live(s.actions[j]) && !s.actions[j].deferred
      {
        assert InitialAction(s.actions[j]);
      }
    }
  }

  /** Every state that a run reaches from a freshly loaded configuration satisfies the invariant. */
  lemma {:induction false} Reachable(cfg: Config, st: State, xs: seq<Input>)
    requires Initial(st)
    ensures Inv(Run(cfg, st, xs))
  {
    if xs == [] {
      InitialInv(st);
    } else {
      Reachable(cfg, st, xs[..|xs| - 1]);
      StepKeeps(cfg, Run(cfg, st, xs[..|xs| - 1]), xs[|xs| - 1]);
    }
  }
}

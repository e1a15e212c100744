/**
 What a step may do to the world: signals go to unreaped children only, a running schedule does
 not take over its incoming queue, and results leave for other schedules only when nothing of
 their schedule is RUNNING any more.
 */
module Isolation {
  import opened Common
  import opened Model
  import opened Invariants
  import opened Protocol

  /** An action of the configuration runs in this process, which has not been reaped. */
  ghost predicate Runs(st: State, pid: int) {
    pid in st.world.children && exists i: nat, j: nat :: At(st, i, j) && PidAt(st, i, j) == pid != 0
  }

  /** No live action loses its process, and the schedules keep their modes. */
  ghost predicate Persists(st: State, st': State) {
    && st.world.children <= st'.world.children && |st.schedules| == |st'.schedules|
    && (forall i :: 0 <= i < |st.schedules| ==> st'.schedules[i].cfg.mode == st.schedules[i].cfg.mode)
    && forall i: nat, j: nat :: At(st, i, j) && PidAt(st, i, j) != 0 ==>
       At(st', i, j) && PidAt(st', i, j) == PidAt(st, i, j)
  }

  /** An operation that belongs to the end of a process or of a run. */
  ghost predicate Collects(op: Op) { op.Reaped? || op.MetaEnded? || op.ActionMoved? || op.ScheduleCleaned? }

  /** What an event may do: signal processes of actions, and start a sequential schedule with its first action. */
  ghost predicate Allowed(st: State, op: Op) {
    && !Collects(op) && (op.Killed? ==> Runs(st, op.pid))
    && (op.Launched? ==> op.s < |st.schedules| && (st.schedules[op.s].cfg.mode == Sequential ==> op.a == 0))
  }

  /** From st to st' no banned operation is logged, and only allowed ones are. */
  ghost predicate Fine(st: State, st': State, banned: set<Op>) {
    && st.world.log <= st'.world.log && Persists(st, st')
    && forall k :: |st.world.log| <= k < |st'.world.log| ==>
         var op := st'.world.log[k];
         op !in banned && Allowed(st', op)
  }

  lemma RunsOn(st: State, st': State, pid: int)
    requires Persists(st, st') && Runs(st, pid)
    ensures Runs(st', pid)
  {
    var i: nat, j: nat :| At(st, i, j) && PidAt(st, i, j) == pid != 0;
    assert At(st', i, j) && PidAt(st', i, j) == pid;
  }

  lemma FineTrans(a: State, b: State, c: State, banned: set<Op>)
    requires Fine(a, b, banned) && Fine(b, c, banned)
    ensures Fine(a, c, banned)
  {
    forall k | |a.world.log| <= k < |c.world.log|
      ensures var op := c.world.log[k]; op !in banned && Allowed(c, op)
    {
      if k < |b.world.log| {
        assert c.world.log[k] == b.world.log[k];
        if c.world.log[k].Killed? { RunsOn(b, c, c.world.log[k].pid); }
      }
    }
  }

  /** A step that changes no pid and logs at most one harmless operation. */
  lemma Silent(st: State, st': State, banned: set<Op>)
    requires |st'.schedules| == |st.schedules| && st'.world.children == st.world.children
    requires forall i :: 0 <= i < |st.schedules| ==>
               |st'.schedules[i].actions| == |st.schedules[i].actions|
                 && st'.schedules[i].cfg.mode == st.schedules[i].cfg.mode
    requires forall i: nat, j: nat :: At(st, i, j) ==> PidAt(st', i, j) == PidAt(st, i, j)
    requires st'.world.log == st.world.log
             || exists op ::
                  st'.world.log == st.world.log + [op] && op !in banned && !Collects(op) && !op.Killed? && !op.Launched?
    ensures Fine(st, st', banned)
  {
    assert forall i: nat, j: nat :: At(st, i, j) ==> At(st', i, j);
  }

  /** Nothing that may be banned here is a signal, a start or a cleaning. */
  ghost predicate Bans(banned: set<Op>) { forall op :: op in banned ==> op.ScheduleMoved? }

  // ------------------------------------------------------------------ signals

  lemma KillActionFine(st: State, i: nat, j: nat, banned: set<Op>)
    requires At(st, i, j) && PidsOk(st) && Bans(banned)
    ensures Fine(st, KillAction(st, i, j), banned)
  {
    assert PidAt(st, i, j) != 0 ==> PidAt(st, i, j) in st.world.children;
  }

  lemma {:induction false} KillUpToFine(st: State, i: nat, n: nat, banned: set<Op>)
    requires i < |st.schedules| && n <= |st.schedules[i].actions| && PidsOk(st) && Bans(banned)
    ensures Fine(st, KillUpTo(st, i, n), banned)
  {
    hide KillAction, Fine;
    if n == 0 {
      FineRefl(st, banned);
    } else {
      var st1 := KillUpTo(st, i, n - 1);
      KillUpToFine(st, i, n - 1, banned);
      SamePids(st, st1);
      KillActionFine(st1, i, n - 1, banned);
      FineTrans(st, st1, KillUpTo(st, i, n), banned);
    }
  }

  lemma FineRefl(st: State, banned: set<Op>)
    ensures Fine(st, st, banned)
  {
  }

  /** One action is told of a suppression: pids stay, and at most its own process is signalled. */
  lemma SuppressAtFine(cfg: Config, st: State, sup: SuppCfg, i: nat, j: nat, banned: set<Op>)
    requires At(st, i, j) && PidsOk(st) && Bans(banned)
    ensures Fine(st, SuppressAt(cfg, st, sup, i, j), banned) && PidsOk(SuppressAt(cfg, st, sup, i, j))
  {
    KillActionFine(st, i, j, banned);
    SuppressAtFacts(cfg, st, sup, i, j);
    SamePids(st, SuppressAt(cfg, st, sup, i, j));
  }

  lemma {:induction false} SuppressActionsFine(cfg: Config, st: State, sup: SuppCfg, i: nat, n: nat, banned: set<Op>)
    requires i < |st.schedules| && n <= |st.schedules[i].actions| && PidsOk(st) && Bans(banned)
    ensures Fine(st, SuppressActions(cfg, st, sup, i, n), banned) && PidsOk(SuppressActions(cfg, st, sup, i, n))
  {
    hide SuppressAt, Fine;
    if n == 0 {
      FineRefl(st, banned);
    } else {
      var st1 := SuppressActions(cfg, st, sup, i, n - 1);
      SuppressActionsFine(cfg, st, sup, i, n - 1, banned);
      SuppressAtFine(cfg, st1, sup, i, n - 1, banned);
      FineTrans(st, st1, SuppressActions(cfg, st, sup, i, n), banned);
    }
  }

  lemma {:induction false} SuppressUpToFine(cfg: Config, st: State, sup: SuppCfg, n: nat, banned: set<Op>)
    requires n <= |st.schedules| && PidsOk(st) && Bans(banned)
    ensures Fine(st, SuppressUpTo(cfg, st, sup, n), banned) && PidsOk(SuppressUpTo(cfg, st, sup, n))
  {
    if n > 0 {
      var st1 := SuppressUpTo(cfg, st, sup, n - 1);
      SuppressUpToFine(cfg, st, sup, n - 1, banned);
      SuppressOneFine(cfg, st1, sup, n - 1, banned);
      FineTrans(st, st1, SuppressOne(cfg, st1, sup, n - 1), banned);
    }
  }

  lemma SuppressOneFine(cfg: Config, st: State, sup: SuppCfg, i: nat, banned: set<Op>)
    requires i < |st.schedules| && PidsOk(st) && Bans(banned)
    ensures Fine(st, SuppressOne(cfg, st, sup, i), banned) && PidsOk(SuppressOne(cfg, st, sup, i))
  {
    hide SuppressActions;
    var s := st.schedules[i];
    if s.state != Disabled {
      var st1 := SetSchedule(st, i, SuppressSchedule(cfg, s, sup));
      SamePids(st, st1);
      SuppressActionsFine(cfg, st1, sup, i, |s.actions|, banned);
    }
  }

  lemma SuppressCbOneFine(cfg: Config, st: State, e: Event, k: nat, banned: set<Op>)
    requires k < |st.supps| && PidsOk(st) && Bans(banned)
    ensures Fine(st, SuppressCbOne(cfg, st, e, k), banned)
  {
    hide SuppressUpTo, ReleaseUpTo, Fine;
    var st0 := SetSupp(st, k, SuppActive);
    SamePids(st, st0);
    FineRefl(st, banned);
    Silent(st, st0, banned);
    SuppressUpToFine(cfg, st0, st.supps[k].cfg, |st.schedules|, banned);
    var st1 := SuppressCbStart(cfg, st, e, k);
    if st1 != st { FineTrans(st, st0, st1, banned); }
    EndFine(cfg, st1, e, k, banned);
    FineTrans(st, st1, SuppressCbEnd(cfg, st1, e, k), banned);
    Silent(st, SetSupp(st, k, SuppDisabled), banned);
  }

  lemma EndFine(cfg: Config, st: State, e: Event, k: nat, banned: set<Op>)
    requires k < |st.supps|
    ensures Fine(st, SuppressCbEnd(cfg, st, e, k), banned)
  {
    hide ReleaseUpTo, Fine;
    FineRefl(st, banned);
    var sup := st.supps[k].cfg;
    ReleaseUpToFacts(cfg, SetSupp(st, k, SuppEnabled), sup, |st.schedules|);
    var st' := SuppressionEnd(cfg, st, k);
    if st' != st {
      forall i: nat, j: nat | At(st, i, j) ensures PidAt(st', i, j) == PidAt(st, i, j) {
        assert Releasing(cfg, sup, st.schedules[i], st'.schedules[i]);
      }
      Silent(st, st', banned);
    }
  }

  lemma {:induction false} SuppressCbFine(cfg: Config, st: State, e: Event, n: nat, banned: set<Op>)
    requires n <= |st.supps| && Inv(st) && Bans(banned)
    ensures Fine(st, SuppressCb(cfg, st, e, n), banned)
  {
    if n > 0 {
      var st1 := SuppressCb(cfg, st, e, n - 1);
      SuppressCbFine(cfg, st, e, n - 1, banned);
      SuppressCbCalm(cfg, st, e, n - 1);
      AllCalmKeeps(st, st1);
      SuppressCbOneFine(cfg, st1, e, n - 1, banned);
      FineTrans(st, st1, SuppressCb(cfg, st, e, n), banned);
    }
  }

  // ------------------------------------------------------------------ starts

  lemma {:induction false} CleanUpToFine(st: State, i: nat, n: nat, banned: set<Op>)
    requires Bans(banned)
    ensures Fine(st, CleanUpTo(st, i, n), banned)
  {
    if n > 0 {
      CleanUpToFine(st, i, n - 1, banned);
      var st1 := CleanUpTo(st, i, n - 1);
      FineTrans(st, st1, Model.Log(st1, ActionCleaned(i, n - 1)), banned);
    }
  }

  lemma FineModes(st: State, st': State, banned: set<Op>)
    requires Fine(st, st', banned)
    ensures |st'.schedules| == |st.schedules|
    ensures forall i :: 0 <= i < |st.schedules| ==> st'.schedules[i].cfg.mode == st.schedules[i].cfg.mode
  {
  }

  lemma LaunchAtFine(cfg: Config, st: State, i: nat, j: nat, now: nat, banned: set<Op>)
    requires At(st, i, j) && Bans(banned) && (st.schedules[i].cfg.mode == Sequential ==> j == 0)
    ensures Fine(st, LaunchAt(cfg, st, i, j, now), banned)
  {
    hide ActionExec;
    ActionExecFacts(cfg, st, i, j, now);
  }

  lemma {:induction false} LaunchUpToFine(cfg: Config, st: State, i: nat, now: nat, n: nat, banned: set<Op>)
    requires i < |st.schedules| && n <= |st.schedules[i].actions| && Bans(banned)
    requires st.schedules[i].cfg.mode == Parallel
    ensures Fine(st, LaunchUpTo(cfg, st, i, now, n), banned)
  {
    hide LaunchAt, Fine;
    if n == 0 {
      FineRefl(st, banned);
    } else {
      var st1 := LaunchUpTo(cfg, st, i, now, n - 1);
      LaunchUpToFine(cfg, st, i, now, n - 1, banned);
      FineModes(st, st1, banned);
      LaunchAtFine(cfg, st1, i, n - 1, now, banned);
      FineTrans(st, st1, LaunchAt(cfg, st1, i, n - 1, now), banned);
    }
  }

  lemma ScheduleExecFine(cfg: Config, st: State, i: nat, now: nat, banned: set<Op>)
    requires i < |st.schedules| && Bans(banned)
    ensures Fine(st, ScheduleExec(cfg, st, i, now), banned)
  {
    hide LaunchAt, LaunchUpTo, CleanUpTo;
    var s := st.schedules[i];
    var st1 := CleanUpTo(st, i, |s.actions|);
    var st2 := CountInvocation(st1, i, now);
    CleanUpToFine(st, i, |s.actions|, banned);
    assert st2.world.log == st1.world.log + [Invoked(i)];
    Silent(st1, st2, banned);
    FineTrans(st, st1, st2, banned);
    Silent(st1, SetSchedule(st1, i, s.(state := Disabled)), banned);
    FineTrans(st, st1, SetSchedule(st1, i, s.(state := Disabled)), banned);
    if s.actions != [] {
      LaunchAtFine(cfg, st2, i, 0, now, banned);
      FineTrans(st, st2, LaunchAt(cfg, st2, i, 0, now), banned);
    }
    if s.cfg.mode == Parallel {
      LaunchUpToFine(cfg, st2, i, now, |s.actions|, banned);
      FineTrans(st, st2, LaunchUpTo(cfg, st2, i, now, |s.actions|), banned);
    }
  }

  lemma BeginFine(cfg: Config, st: State, e: Event, now: nat, i: nat, banned: set<Op>)
    requires i < |st.schedules| && Bans(banned) && ScheduleMoved(i) !in banned
    ensures Fine(st, Begin(cfg, st, e, now, i), banned)
  {
    hide ScheduleExec;
    var st0 := TakeOver(st, e, now, i);
    assert st0.world.log == st.world.log + [ScheduleMoved(i)];
    Silent(st, st0, banned);
    ScheduleExecFine(cfg, st0, i, now, banned);
    var st2 := ScheduleExec(cfg, st0, i, now);
    FineTrans(st, st0, st2, banned);
    Silent(st2, Begin(cfg, st, e, now, i), banned);
    FineTrans(st, st2, Begin(cfg, st, e, now, i), banned);
  }

  lemma ExecuteOneFine(cfg: Config, st: State, e: Event, now: nat, i: nat, banned: set<Op>)
    requires i < |st.schedules| && PidsOk(st) && ScheduleOk(st.schedules[i]) && Bans(banned)
    requires Busy(st.schedules[i]) || ScheduleMoved(i) !in banned
    ensures Fine(st, ExecuteOne(cfg, st, e, now, i), banned)
  {
    hide Begin, KillUpTo;
    var s := st.schedules[i];
    var st1 := ExecuteStart(cfg, st, e, now, i);
    if s.state == Enabled && s.cfg.name != "" && s.cfg.start != "" && s.cfg.start == e.name {
      BeginFine(cfg, st, e, now, i, banned);
      BeginKeeps(cfg, st, e, now, i);
    } else {
      SamePids(st, st1);
    }
    KillUpToFine(st1, i, |st1.schedules[i].actions|, banned);
    FineTrans(st, st1, KillUpTo(st1, i, |st1.schedules[i].actions|), banned);
  }

  /** schedules not yet visited keep their state. */
  lemma {:induction false} ExecuteCbFine(cfg: Config, st: State, e: Event, now: nat, n: nat, i: nat, banned: set<Op>)
    requires n <= |st.schedules| && Inv(st) && i < |st.schedules|
    requires (banned == {} || (banned == {ScheduleMoved(i)} && Busy(st.schedules[i])))
    ensures Fine(st, ExecuteCb(cfg, st, e, now, n), banned)
    ensures n <= i ==> ExecuteCb(cfg, st, e, now, n).schedules[i] == st.schedules[i]
  {
    hide ExecuteOne, ScheduleOk;
    if n == 0 {
      FineRefl(st, banned);
    } else {
      var st1 := ExecuteCb(cfg, st, e, now, n - 1);
      ExecuteCbFine(cfg, st, e, now, n - 1, i, banned);
      ExecuteCbKeeps(cfg, st, e, now, n - 1);
      ExecuteOneKeeps(cfg, st1, e, now, n - 1);
      ExecuteOneFine(cfg, st1, e, now, n - 1, banned);
      FineTrans(st, st1, ExecuteOne(cfg, st1, e, now, n - 1), banned);
    }
  }

  // ------------------------------------------------------------------ deaths

  ghost predicate Outward(op: Op) { op.ActionMoved? && op.dst != op.s }

  /**
   A harmless operation of the cleanup: outward says which schedule results may leave, next which
   action may be started.
   */
  ghost predicate Harmless(op: Op, outward: Option<nat>, next: Option<(nat, nat)>) {
    && !op.ScheduleMoved? && !op.Killed? && !op.Invoked?
    && (Outward(op) ==> outward == Some(op.s)) && (op.Launched? ==> next == Some((op.s, op.a)))
  }

  ghost predicate Tidy(log: seq<Op>, log': seq<Op>, outward: Option<nat>, next: Option<(nat, nat)>) {
    log <= log' && forall k :: |log| <= k < |log'| ==> Harmless(log'[k], outward, next)
  }

  lemma TidyTrans(a: seq<Op>, b: seq<Op>, c: seq<Op>, outward: Option<nat>, next: Option<(nat, nat)>)
    requires Tidy(a, b, outward, next) && Tidy(b, c, outward, next)
    ensures Tidy(a, c, outward, next)
  {
    forall k | |a| <= k < |c| ensures Harmless(c[k], outward, next) {
      if k < |b| { assert c[k] == b[k]; }
    }
  }

  lemma {:induction false} MoveOwnTidy(st: State, i: nat, j: nat, dests: seq<nat>, n: nat)
    requires At(st, i, j) && n <= |dests|
    ensures Tidy(st.world.log, MoveOwnUpTo(st, i, j, dests, n).world.log, None, None)
  {
    if n > 0 {
      MoveOwnTidy(st, i, j, dests, n - 1);
      var st1 := MoveOwnUpTo(st, i, j, dests, n - 1);
      TidyTrans(st.world.log, st1.world.log, MoveOwnUpTo(st, i, j, dests, n).world.log, None, None);
    }
  }

  lemma {:induction false} MoveAllTidy(st: State, i: nat, j: nat, dests: seq<nat>, n: nat)
    requires n <= |dests|
    ensures Tidy(st.world.log, MoveAllUpTo(st, i, j, dests, n).world.log, Some(i), None)
  {
    if n > 0 {
      MoveAllTidy(st, i, j, dests, n - 1);
      var st1 := MoveAllUpTo(st, i, j, dests, n - 1);
      TidyTrans(st.world.log, st1.world.log, MoveAllUpTo(st, i, j, dests, n).world.log, Some(i), None);
    }
  }

  lemma CollectTidy(st: State, i: nat, j: nat, status: int, now: nat)
    requires At(st, i, j)
    ensures Tidy(st.world.log, Collect(st, i, j, status, now).world.log, None, None)
  {
    hide MoveOwnUpTo;
    var dests := DestsOf(st, i, j);
    var st1 := SetAction(st, i, j, Completed(st.schedules[i].actions[j], status, now));
    var st2 := Model.Log(Model.Log(st1, Reaped(i, j, status)), MetaEnded(i, j));
    MoveOwnTidy(st2, i, j, dests, |dests|);
    var st3 := Gather(st, i, j, status, now);
    TidyTrans(st.world.log, st2.world.log, st3.world.log, None, None);
    TidyTrans(st.world.log, st3.world.log, Collect(st, i, j, status, now).world.log, None, None);
  }

  lemma {:induction false} FlushUpToTidy(st: State, i: nat, n: nat)
    requires i < |st.schedules| && n <= |st.schedules[i].actions|
    ensures Tidy(st.world.log, FlushUpTo(st, i, n).world.log, Some(i), None)
  {
    if n > 0 {
      FlushUpToTidy(st, i, n - 1);
      var st1 := FlushUpTo(st, i, n - 1);
      FlushAtTidy(st1, i, n - 1);
      TidyTrans(st.world.log, st1.world.log, FlushAt(st1, i, n - 1).world.log, Some(i), None);
    }
  }

  lemma FlushAtTidy(st: State, i: nat, j: nat)
    requires At(st, i, j)
    ensures Tidy(st.world.log, FlushAt(st, i, j).world.log, Some(i), None)
  {
    hide MoveAllUpTo;
    var dests := DestsOf(st, i, j);
    MoveAllTidy(st, i, j, dests, |dests|);
    var st1 := Deliver(st, i, j);
    TidyTrans(st.world.log, st1.world.log, st1.world.log + [ActionCleaned(i, j)], Some(i), None);
  }

  /**
   The action that may be started after action j of schedule i: its successor, in a sequential
   schedule that was not told to stop.
   */
  ghost function NextOf(st: State, i: nat, j: nat): Option<(nat, nat)>
    requires At(st, i, j)
  {
    var s := st.schedules[i];
    if j + 1 < |s.actions| && s.cfg.mode == Sequential && s.state != Suppressed && !s.stop then Some((i, j + 1))
      else None
  }

  lemma ReapAtTidy(cfg: Config, st: State, i: nat, j: nat, status: int, now: nat)
    requires At(st, i, j)
    ensures Tidy(st.world.log, ReapAt(cfg, st, i, j, status, now).world.log,
                 (if StillRunning(ReapAt(cfg, st, i, j, status, now).schedules[i]) then None else Some(i)),
                   NextOf(st, i, j))
  {
    hide Collect, ActionExec, FlushUpTo;
    var next := NextOf(st, i, j);
    CollectTidy(st, i, j, status, now);
    CollectFacts(st, i, j, status, now);
    var st1 := Collect(st, i, j, status, now);
    assert Tidy(st.world.log, st1.world.log, None, next);
    var st2 := Continue(cfg, st1, i, j, now);
    if j + 1 < |st1.schedules[i].actions| { ActionExecFacts(cfg, st1, i, j + 1, now); }
    TidyTrans(st.world.log, st1.world.log, st2.world.log, None, next);
    if !StillRunning(st2.schedules[i]) { ConcludeTidy(st, st2, i, next); }
  }

  lemma ConcludeTidy(st: State, st2: State, i: nat, next: Option<(nat, nat)>)
    requires i < |st2.schedules| && Tidy(st.world.log, st2.world.log, None, next) && !StillRunning(st2.schedules[i])
    ensures Tidy(st.world.log, Conclude(st2, i).world.log, Some(i), next)
            && !StillRunning(Conclude(st2, i).schedules[i])
  {
    hide FlushUpTo, SomeSuccess;
    var s := st2.schedules[i];
    var st3 := SetSchedule(st2, i, Settle(s));
    FlushUpToTidy(st3, i, |s.actions|);
    var st4 := FlushUpTo(st3, i, |s.actions|);
    assert Tidy(st2.world.log, st4.world.log, Some(i), next) && Tidy(st.world.log, st2.world.log, Some(i), next);
    TidyTrans(st.world.log, st2.world.log, st4.world.log, Some(i), next);
    TidyTrans(st.world.log, st4.world.log, Conclude(st2, i).world.log, Some(i), next);
    ConcludeFacts(st2, i);
    var s' := Conclude(st2, i).schedules[i];
    forall a | a in s'.actions ensures a.state != ActRunning {
      var k :| 0 <= k < |s'.actions| && s'.actions[k] == a;
      assert s.actions[k] in s.actions && a.state == s.actions[k].state;
    }
  }

  ghost predicate CleansQueue(log: seq<Op>, log': seq<Op>, i: nat) {
    exists k :: |log| <= k < |log'| && log'[k] == ScheduleCleaned(i)
  }

  lemma QueueKeptTrans(a: seq<Op>, b: seq<Op>, c: seq<Op>, i: nat)
    requires a <= b <= c && !CleansQueue(a, b, i) && !CleansQueue(b, c, i)
    ensures a <= c && !CleansQueue(a, c, i)
  {
    forall k | |a| <= k < |c| ensures c[k] != ScheduleCleaned(i) { if k < |b| { assert c[k] == b[k]; } }
  }

  lemma {:induction false} FlushKeepsQueue(st: State, i: nat, n: nat)
    requires i < |st.schedules| && n <= |st.schedules[i].actions|
    ensures st.world.log <= FlushUpTo(st, i, n).world.log
            && !CleansQueue(st.world.log, FlushUpTo(st, i, n).world.log, i)
  {
    if n > 0 {
      hide FlushAt;
      FlushKeepsQueue(st, i, n - 1);
      var st1 := FlushUpTo(st, i, n - 1);
      FlushAtKeepsQueue(st1, i, n - 1);
      QueueKeptTrans(st.world.log, st1.world.log, FlushAt(st1, i, n - 1).world.log, i);
    }
  }

  lemma FlushAtKeepsQueue(st: State, i: nat, j: nat)
    requires At(st, i, j)
    ensures st.world.log <= FlushAt(st, i, j).world.log && !CleansQueue(st.world.log, FlushAt(st, i, j).world.log, i)
  {
    hide FlushAt, MoveAllUpTo;
    FlushAtLog(st, i, j);
    MovesKeepQueue(st, i, j, DestsOf(st, i, j), |DestsOf(st, i, j)|);
    var log1 := Deliver(st, i, j).world.log;
    QueueKeptTrans(st.world.log, log1, log1 + [ActionCleaned(i, j)], i);
  }

  lemma {:induction false} MovesKeepQueue(st: State, i: nat, j: nat, dests: seq<nat>, n: nat)
    requires n <= |dests|
    ensures st.world.log <= MoveAllUpTo(st, i, j, dests, n).world.log
    ensures !CleansQueue(st.world.log, MoveAllUpTo(st, i, j, dests, n).world.log, i)
  {
    if n > 0 { MovesKeepQueue(st, i, j, dests, n - 1); }
  }

  /** The end of a run cleans the input queue exactly when some action last ended well; the others may have failed. */
  lemma ConcludeCleansQueue(st: State, i: nat)
    requires i < |st.schedules|
    ensures CleansQueue(st.world.log, Conclude(st, i).world.log, i) <==> SomeSuccess(st.schedules[i])
  {
    hide SomeSuccess, FlushUpTo;
    var s := st.schedules[i];
    var st1 := SetSchedule(st, i, Settle(s));
    FlushKeepsQueue(st1, i, |s.actions|);
    var log, log1, log' := st.world.log, FlushUpTo(st1, i, |s.actions|).world.log, Conclude(st, i).world.log;
    if SomeSuccess(s) {
      assert log' == log1 + [ScheduleCleaned(i)];
      assert log'[|log1|] == ScheduleCleaned(i);
    } else {
      assert log' == log1;
    }
  }

  // ------------------------------------------------------------------ steps

  /** Whatever happens, a signal goes to a process that an action runs in and that has not been reaped. */
  lemma {:induction false} SignalsHitChildren(cfg: Config, st: State, x: Input)
    requires Inv(st)
    ensures var st' := Step(cfg, st, x);
            && st.world.log <= st'.world.log
            && forall k :: |st.world.log| <= k < |st'.world.log| && st'.world.log[k].Killed? ==>
               Runs(st', st'.world.log[k].pid)
  {
    match x {
      case Fire(e, now) => FireFine(cfg, st, e, now, 0, {});
      case Death(pid, status, now) => DeathTidy(cfg, st, pid, status, now);
    }
  }

  lemma FireFine(cfg: Config, st: State, e: Event, now: nat, i: nat, banned: set<Op>)
    requires Inv(st) && (banned == {} || (i < |st.schedules| && banned == {ScheduleMoved(i)} && Busy(st.schedules[i])))
    ensures Fine(st, Step(cfg, st, Fire(e, now)), banned)
  {
    hide ExecuteCb;
    var st1 := SuppressCb(cfg, st, e, |st.supps|);
    SuppressCbFine(cfg, st, e, |st.supps|, banned);
    SuppressCbCalm(cfg, st, e, |st.supps|);
    AllCalmKeeps(st, st1);
    if st1.schedules == [] {
      assert ExecuteCb(cfg, st1, e, now, 0) == st1 by { ExecuteNone(cfg, st1, e, now); }
    } else {
      var k := if i < |st1.schedules| then i else 0;
      if banned != {} { assert Calm(st.schedules[i], st1.schedules[i]); }
      ExecuteCbFine(cfg, st1, e, now, |st1.schedules|, k, banned);
      FineTrans(st, st1, ExecuteCb(cfg, st1, e, now, |st1.schedules|), banned);
    }
  }

  /** An event hands no results on: workspaces lose theirs to a queue only after a death. */
  lemma FireMovesNone(cfg: Config, st: State, e: Event, now: nat, k: nat)
    requires Inv(st) && |st.world.log| <= k < |Step(cfg, st, Fire(e, now)).world.log|
    ensures var op := Step(cfg, st, Fire(e, now)).world.log[k];
            !op.ActionMoved? && !op.ScheduleCleaned? && !op.Reaped? && !op.MetaEnded?
  {
    FireFine(cfg, st, e, now, 0, {});
  }

  lemma ExecuteNone(cfg: Config, st: State, e: Event, now: nat)
    ensures ExecuteCb(cfg, st, e, now, 0) == st
  {
  }

  lemma DeathTidy(cfg: Config, st: State, pid: int, status: WaitStatus, now: nat)
    ensures var st', at := Reap(cfg, st, pid, status, now), Locate(st, pid);
            Tidy(st.world.log, st'.world.log,
                 if at.Some? && !StillRunning(st'.schedules[at.value.0]) then Some(at.value.0) else None,
                 if at.Some? then NextOf(st, at.value.0, at.value.1) else None)
    ensures Locate(st, pid).Some? ==> Locate(st, pid).value.0 < |Reap(cfg, st, pid, status, now).schedules|
  {
    hide ReapAt, StillRunning;
    if pid > 0 && pid in st.world.children && Locate(st, pid).Some? {
      var (i, j) := Locate(st, pid).value;
      var st0 := st.(world := st.world.(children := st.world.children - {pid}));
      ReapAtTidy(cfg, st0, i, j, StatusOf(status), now);
      ReapAtLength(cfg, st0, i, j, StatusOf(status), now);
    }
  }

  lemma ReapAtLength(cfg: Config, st: State, i: nat, j: nat, status: int, now: nat)
    requires At(st, i, j)
    ensures |ReapAt(cfg, st, i, j, status, now).schedules| == |st.schedules|
  {
    var st1 := Collect(st, i, j, status, now);
    CollectFacts(st, i, j, status, now);
    if j + 1 < |st1.schedules[i].actions| { ActionExecFacts(cfg, st1, i, j + 1, now); }
    ConcludeFacts(Continue(cfg, st1, i, j, now), i);
  }

  /**
   The death of a process starts at most its successor in the list, and only in a sequential
   schedule that is not SUPPRESSED and has not been told to stop.
   */
  lemma {:induction false} StopHalts(cfg: Config, st: State, pid: int, status: WaitStatus, now: nat, k: nat)
    requires Inv(st) && |st.world.log| <= k < |Reap(cfg, st, pid, status, now).world.log|
    ensures var op, at := Reap(cfg, st, pid, status, now).world.log[k], Locate(st, pid);
            op.Launched? ==>
              && at == Some((op.s, op.a - 1)) && op.a > 0
              && var s := st.schedules[op.s]; s.cfg.mode == Sequential && s.state != Suppressed && !s.stop
  {
    hide Reap, Inv;
    DeathTidy(cfg, st, pid, status, now);
  }

  // ------------------------------------------------------------------ stopping for good

  lemma {:induction false} ExecuteCbStop(cfg: Config, st: State, e: Event, now: nat, n: nat, i: nat)
    requires Inv(st) && n <= |st.schedules| && i < |st.schedules| && st.schedules[i].stop
    ensures ExecuteCb(cfg, st, e, now, n).schedules[i].stop
  {
    hide ExecuteOne;
    if n > 0 {
      ExecuteCbStop(cfg, st, e, now, n - 1, i);
      ExecuteCbKeeps(cfg, st, e, now, n - 1);
      ExecuteOneKeeps(cfg, ExecuteCb(cfg, st, e, now, n - 1), e, now, n - 1);
    }
  }

  /** The stop flag of a schedule is never cleared, and schedules keep their modes. */
  lemma StopStays(cfg: Config, st: State, x: Input, i: nat)
    requires Inv(st) && i < |st.schedules|
    ensures var st' := Step(cfg, st, x);
            && i < |st'.schedules| && st'.schedules[i].cfg.mode == st.schedules[i].cfg.mode
            && (st.schedules[i].stop ==> st'.schedules[i].stop)
  {
    match x {
      case Fire(e, now) =>
        var st1 := SuppressCb(cfg, st, e, |st.supps|);
        SuppressCbCalm(cfg, st, e, |st.supps|);
        AllCalmKeeps(st, st1);
        assert Calm(st.schedules[i], st1.schedules[i]);
        if st1.schedules[i].stop { ExecuteCbStop(cfg, st1, e, now, |st1.schedules|, i); }
        FireFine(cfg, st, e, now, 0, {});
        FineModes(st, Step(cfg, st, x), {});
      case Death(pid, status, now) =>
        if pid > 0 && pid in st.world.children && Locate(st, pid).Some? {
          var (n, j) := Locate(st, pid).value;
          var st0 := st.(world := st.world.(children := st.world.children - {pid}));
          hide ReapAt;
          assert At(st, n, j) && PidAt(st, n, j) == pid;
          ReapAtElsewhere(cfg, st, st0, n, j, StatusOf(status), now);
        }
    }
  }

  /** A step launches only the first action of a sequential schedule that has been told to stop. */
  lemma StoppedStep(cfg: Config, st: State, x: Input, i: nat, k: nat)
    requires Inv(st) && i < |st.schedules| && st.schedules[i].cfg.mode == Sequential && st.schedules[i].stop
    requires |st.world.log| <= k < |Step(cfg, st, x).world.log|
    ensures st.world.log <= Step(cfg, st, x).world.log
    ensures var op := Step(cfg, st, x).world.log[k]; op.Launched? && op.s == i ==> op.a == 0
  {
    match x {
      case Fire(e, now) =>
        FireFine(cfg, st, e, now, 0, {});
        FineModes(st, Step(cfg, st, x), {});
      case Death(pid, status, now) =>
        DeathTidy(cfg, st, pid, status, now);
        StopHalts(cfg, st, pid, status, now, k);
    }
  }

  lemma {:induction false} StopInRun(cfg: Config, st: State, xs: seq<Input>, ys: seq<Input>, i: nat)
    requires Initial(st) && i < |Run(cfg, st, xs).schedules|
    ensures var st1, st' := Run(cfg, st, xs), Run(cfg, st, xs + ys);
            && i < |st'.schedules| && st'.schedules[i].cfg.mode == st1.schedules[i].cfg.mode
            && (st1.schedules[i].stop ==> st'.schedules[i].stop)
    decreases |ys|
  {
    if ys == [] {
      assert xs + ys == xs;
    } else {
      hide Step;
      var zs, y := ys[..|ys| - 1], ys[|ys| - 1];
      assert xs + ys == xs + zs + [y];
      assert (xs + zs + [y])[..|xs + zs|] == xs + zs;
      StopInRun(cfg, st, xs, zs, i);
      Reachable(cfg, st, xs + zs);
      StopStays(cfg, Run(cfg, st, xs + zs), y, i);
    }
  }

  /**
   For good: once a suppression has told a sequential schedule to stop, whatever happens later,
   no run of that schedule gets beyond its first action, even when no suppression is in force.
   */
  lemma {:induction false} StopForGood(cfg: Config, st: State, xs: seq<Input>, ys: seq<Input>, i: nat)
    requires Initial(st) && i < |Run(cfg, st, xs).schedules|
    requires Run(cfg, st, xs).schedules[i].stop && Run(cfg, st, xs).schedules[i].cfg.mode == Sequential
    ensures FirstOnly(Run(cfg, st, xs).world.log, Run(cfg, st, xs + ys).world.log, i)
    decreases |ys|
  {
    if ys == [] {
      assert xs + ys == xs;
    } else {
      hide Step, Initial;
      var zs, y := ys[..|ys| - 1], ys[|ys| - 1];
      assert xs + ys == xs + zs + [y];
      assert (xs + zs + [y])[..|xs + zs|] == xs + zs;
      var st1 := Run(cfg, st, xs + zs);
      StopInRun(cfg, st, xs, zs, i);
      Reachable(cfg, st, xs + zs);
      StopForGood(cfg, st, xs, zs, i);
      SignalsHitChildren(cfg, st1, y);
      var log, log1, log' := Run(cfg, st, xs).world.log, st1.world.log, Step(cfg, st1, y).world.log;
      forall k | |log| <= k < |log'| ensures log'[k].Launched? && log'[k].s == i ==> log'[k].a == 0 {
        if k < |log1| { assert log'[k] == log1[k]; } else { StoppedStep(cfg, st1, y, i, k); }
      }
    }
  }

  /** Of schedule i only the first action is launched. */
  ghost predicate FirstOnly(log: seq<Op>, log': seq<Op>, i: nat) {
    log <= log' && forall k :: |log| <= k < |log'| && log'[k].Launched? && log'[k].s == i ==> log'[k].a == 0
  }

  /** A RUNNING or DISABLED schedule does not take over its incoming queue. */
  lemma NoTakeOverWhileBusy(cfg: Config, st: State, x: Input, i: nat, k: nat)
    requires Inv(st) && i < |st.schedules| && Busy(st.schedules[i])
    requires |st.world.log| <= k < |Step(cfg, st, x).world.log|
    ensures st.world.log <= Step(cfg, st, x).world.log && Step(cfg, st, x).world.log[k] != ScheduleMoved(i)
  {
    match x {
      case Fire(e, now) => FireFine(cfg, st, e, now, i, {ScheduleMoved(i)});
      case Death(pid, status, now) => DeathTidy(cfg, st, pid, status, now);
    }
  }
}

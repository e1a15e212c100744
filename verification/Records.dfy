/**
 What the death of a process records: in the action that ran it, in its schedule, and in the log.
 Everything is said about one step and its result.
 */
module Records {
  import opened Model
  import opened Invariants
  import opened Isolation
  import opened Succession
  import opened Theorems
  import opened Firing

  /** What an action records of the end of its process; its results wait if there is another destination. */
  ghost predicate Ended(a: Action, b: Action, code: int, now: nat, waits: bool) {
    && b.cfg == a.cfg && b.pid == 0 && b.state == ActEnabled && b.deferred == waits
    && b.lastCompletion == now && b.lastStatus == code && b.lastInvocation == a.lastInvocation
    && b.invocations == a.invocations && b.suppressions == a.suppressions && b.overlaps == a.overlaps
       && b.active == a.active
    && if code == 0 then
         b.failures == a.failures && b.lastFailedCompletion == a.lastFailedCompletion
           && b.lastFailedStatus == a.lastFailedStatus
       else b.failures == a.failures + 1 && b.lastFailedCompletion == now && b.lastFailedStatus == code
  }

  /** The run of the schedule is over: nothing else is RUNNING, and nothing is started. */
  ghost predicate RunEnds(cfg: Config, s: Schedule, j: nat, w: World) {
    (forall k :: 0 <= k < |s.actions| && k != j ==> s.actions[k].state != ActRunning) && !GoesOn(cfg, s, j, w)
  }

  /** Some destination of the action other than its own schedule i. */
  ghost predicate Elsewhere(st: State, i: nat, j: nat)
    requires At(st, i, j)
  {
    exists d :: d != i && Addressed(st, i, j, d)
  }

  /** What a schedule records of the death of the process of its action j. */
  ghost predicate Counted(s: Schedule, t: Schedule, ended: bool, succeeded: bool) {
    && t == s.(state := t.state, failures := t.failures, actions := t.actions) && |t.actions| == |s.actions|
    && t.state == (if ended && s.state == Running then (if s.active == 0 then Enabled else Suppressed) else s.state)
    && t.failures == s.failures + (if ended && !succeeded then 1 else 0)
  }

  /** What happens to the action after j as j ends: it is launched, or passed over if its turn has come. */
  ghost predicate Succeeds(cfg: Config, s: Schedule, j: nat, w: World, a: Action, b: Action, now: nat) {
    if GoesOn(cfg, s, j, w) then LaunchedAs(a, b, now) && b.pid == ForkPid(w)
    else if s.cfg.mode == Sequential && !s.stop then PassedOver(cfg, a, b)
    else b == a
  }

  // ------------------------------------------------------------------ the log

  /** The log goes on with the end of action j, and does not clean the queue of the schedule. */
  ghost predicate EndLogged(log: seq<Op>, log': seq<Op>, i: nat, j: nat, code: int) {
    log + [Reaped(i, j, code), MetaEnded(i, j)] <= log' && !CleansQueue(log, log', i)
  }

  lemma {:induction false} MoveOwnKeepsQueue(st: State, i: nat, j: nat, dests: seq<nat>, n: nat)
    requires At(st, i, j) && n <= |dests|
    ensures st.world.log <= MoveOwnUpTo(st, i, j, dests, n).world.log
    ensures !CleansQueue(st.world.log, MoveOwnUpTo(st, i, j, dests, n).world.log, i)
  {
    if n > 0 { MoveOwnKeepsQueue(st, i, j, dests, n - 1); }
  }

  lemma CollectLogs(st: State, i: nat, j: nat, code: int, now: nat)
    requires At(st, i, j)
    ensures EndLogged(st.world.log, Collect(st, i, j, code, now).world.log, i, j, code)
  {
    hide MoveOwnUpTo, DestsOf;
    var dests := DestsOf(st, i, j);
    var log := st.world.log;
    var st1 := SetAction(st, i, j, Completed(st.schedules[i].actions[j], code, now));
    var st2 := Log(Log(st1, Reaped(i, j, code)), MetaEnded(i, j));
    MoveOwnKeepsQueue(st2, i, j, dests, |dests|);
    assert log + [Reaped(i, j, code), MetaEnded(i, j)] == st2.world.log;
    KeptMore(log, st2.world.log, Gather(st, i, j, code, now).world.log, i);
    KeptMore(log, Gather(st, i, j, code, now).world.log, Collect(st, i, j, code, now).world.log, i);
  }

  lemma KeptMore(a: seq<Op>, b: seq<Op>, c: seq<Op>, i: nat)
    requires a <= b <= c && !CleansQueue(a, b, i) && !CleansQueue(b, c, i)
    ensures !CleansQueue(a, c, i)
  {
    QueueKeptTrans(a, b, c, i);
  }

  lemma CleansJoin(a: seq<Op>, b: seq<Op>, c: seq<Op>, i: nat)
    requires a <= b <= c && !CleansQueue(a, b, i)
    ensures CleansQueue(a, c, i) <==> CleansQueue(b, c, i)
  {
    if !CleansQueue(b, c, i) { QueueKeptTrans(a, b, c, i); }
  }

  lemma ConcludeGrows(st: State, i: nat)
    requires i < |st.schedules|
    ensures st.world.log <= Conclude(st, i).world.log
  {
    ConcludeLaunchesNone(st, i);
  }

  // ------------------------------------------------------------------ the steps of a death

  /** The schedule between the collection of j and the conclusion. */
  ghost predicate Between(cfg: Config, s: Schedule, t: Schedule, j: nat, w: World, code: int, now: nat, waits: bool) {
    && j < |s.actions| && t == s.(actions := t.actions) && |t.actions| == |s.actions|
    && Ended(s.actions[j], t.actions[j], code, now, waits)
    && (j + 1 < |s.actions| ==> Succeeds(cfg, s, j, w, s.actions[j + 1], t.actions[j + 1], now))
    && (forall k :: 0 <= k < |s.actions| && k != j && k != j + 1 ==> t.actions[k] == s.actions[k])
  }

  lemma CollectEnds(st: State, i: nat, j: nat, code: int, now: nat)
    requires At(st, i, j) && !st.schedules[i].actions[j].deferred
    ensures var a, b := st.schedules[i].actions[j], Collected(st, i, j, code, now);
            Ended(a, b, code, now, code == 0 && Elsewhere(st, i, j))
  {
    hide Addressed, DestsOf;
    forall d: nat ensures d in DestsOf(st, i, j) <==> Addressed(st, i, j, d) { AddressedExactly(st, i, j, d); }
  }

  lemma DeathIdle(st: State, i: nat, j: nat)
    requires Inv(st) && At(st, i, j) && Live(st.schedules[i].actions[j])
    ensures !st.schedules[i].actions[j].deferred && (st.schedules[i].cfg.mode == Sequential ==> Busy(st.schedules[i]))
  {
    assert ScheduleOk(st.schedules[i]) && ActionCore(st.schedules[i], st.schedules[i].actions[j]);
    if st.schedules[i].cfg.mode == Sequential { assert OnlyLive(st.schedules[i], j); }
  }

  lemma BetweenFacts(cfg: Config, st0: State, st: State, i: nat, j: nat, code: int, now: nat)
    requires Inv(st0) && At(st0, i, j) && Live(st0.schedules[i].actions[j])
    requires st == st0.(world := Waited(st0.world, PidAt(st0, i, j)))
    ensures var s, st2 := st.schedules[i], Continue(cfg, Collect(st, i, j, code, now), i, j, now);
            && |st2.schedules| == |st.schedules|
            && Between(cfg, s, st2.schedules[i], j, st.world, code, now, code == 0 && Elsewhere(st, i, j))
            && EndLogged(st.world.log, st2.world.log, i, j, code)
  {
    hide Collect, ActionExec, Elsewhere, Collected, Ended, Ready, LaunchedAs, PassedOver, EndLogged;
    var s := st.schedules[i];
    DeathIdle(st0, i, j);
    CollectFacts(st, i, j, code, now);
    CollectEnds(st, i, j, code, now);
    CollectLogs(st, i, j, code, now);
    var st1 := Collect(st, i, j, code, now);
    var st2 := Continue(cfg, st1, i, j, now);
    if j + 1 < |s.actions| {
      ExecAttempts(cfg, st1, i, j + 1, now);
      MoreLogged(st.world.log, st1.world.log, st2.world.log, i, j, code);
    }
  }

  lemma MoreLogged(log: seq<Op>, log1: seq<Op>, log2: seq<Op>, i: nat, j: nat, code: int)
    requires EndLogged(log, log1, i, j, code)
    requires log2 == log1 || (exists a, p :: log2 == log1 + [Launched(i, a, p)])
    ensures EndLogged(log, log2, i, j, code)
  {
  }

  /** Something of the schedule runs on exactly if its run is not over. */
  lemma StillRunningExactly(cfg: Config, s: Schedule, t: Schedule, j: nat, w: World, code: int, now: nat, waits: bool)
    requires Between(cfg, s, t, j, w, code, now, waits)
    ensures StillRunning(t) <==> !RunEnds(cfg, s, j, w)
  {
    hide Ready, ForkPid;
    assert forall k :: 0 <= k < |t.actions| && k != j && k != j + 1 ==> t.actions[k] == s.actions[k];
    if k :| 0 <= k < |s.actions| && k != j && s.actions[k].state == ActRunning { assert t.actions[k] in t.actions; }
    if GoesOn(cfg, s, j, w) { assert t.actions[j + 1] in t.actions; }
    if StillRunning(t) {
      var b :| b in t.actions && b.state == ActRunning;
      var k :| 0 <= k < |t.actions| && t.actions[k] == b;
    }
  }

  /** What the actions of the schedule record; no deferral flag outlives the run. */
  ghost predicate AllRecorded(cfg: Config, s: Schedule, t: Schedule, j: nat, w: World, code: int, now: nat, waits: bool)
    requires j < |s.actions| == |t.actions|
  {
    var ended := RunEnds(cfg, s, j, w);
    && Ended(s.actions[j], t.actions[j], code, now, !ended && waits)
    && (j + 1 < |s.actions| ==>
          Succeeds(cfg, s, j, w, Kept(s.actions[j + 1], ended), t.actions[j + 1], now))
    && (forall k :: 0 <= k < |s.actions| && k != j && k != j + 1 ==> t.actions[k] == Kept(s.actions[k], ended))
  }

  function Kept(a: Action, ended: bool): Action { a.(deferred := !ended && a.deferred) }

  /** Some action of the schedule last ended with status 0. */
  ghost predicate SomeSucceeded(t: Schedule) { exists k :: 0 <= k < |t.actions| && t.actions[k].lastStatus == 0 }

  lemma SucceededExactly(t: Schedule)
    ensures SomeSuccess(t) <==> SomeSucceeded(t)
    ensures SomeSucceeded(t) <==> SomeSucceeded(Concluded(t))
  {
    var u := Concluded(t);
    assert forall k :: 0 <= k < |t.actions| ==> u.actions[k].lastStatus == t.actions[k].lastStatus;
    if SomeSuccess(t) {
      var a :| a in t.actions && a.lastStatus == 0;
      var k :| 0 <= k < |t.actions| && t.actions[k] == a;
    }
  }

  lemma GoingOn(cfg: Config, s: Schedule, t: Schedule, j: nat, w: World, code: int, now: nat, waits: bool)
    requires Between(cfg, s, t, j, w, code, now, waits) && !RunEnds(cfg, s, j, w)
    ensures Counted(s, t, false, SomeSucceeded(t)) && AllRecorded(cfg, s, t, j, w, code, now, waits)
  {
    hide Succeeds, RunEnds;
    forall k | 0 <= k < |s.actions| ensures Kept(s.actions[k], false) == s.actions[k] {}
  }

  lemma EndingRun(cfg: Config, s: Schedule, t: Schedule, j: nat, w: World, code: int, now: nat, waits: bool)
    requires Between(cfg, s, t, j, w, code, now, waits) && RunEnds(cfg, s, j, w)
    ensures var u := Concluded(t);
            Counted(s, u, true, SomeSucceeded(u)) && AllRecorded(cfg, s, u, j, w, code, now, waits)
  {
    hide Ready, Permitted, SomeSuccess, SomeSucceeded;
    SucceededExactly(t);
    var u := Concluded(t);
    assert forall k :: 0 <= k < |t.actions| ==> u.actions[k] == Kept(t.actions[k], true);
  }

  // ------------------------------------------------------------------ one step

  /**
   The death of the process of action j: the exit code, or the signal negated, is recorded and
   logged; a failure is counted unless the code is 0; the results of a success wait if some
   destination is another schedule and something else runs on.  When nothing does, the schedule is
   no longer RUNNING, and either its queue is cleaned, which is if some action last ended with 0,
   or it counts a failure.
   */
  lemma {:induction false} DeathRecords(cfg: Config, st: State, i: nat, j: nat, status: WaitStatus, now: nat)
    requires Inv(st) && At(st, i, j) && Live(st.schedules[i].actions[j])
    ensures var s, pid := st.schedules[i], PidAt(st, i, j);
            var w, st' := Waited(st.world, pid), Step(cfg, st, Death(pid, status, now));
            var code := match status case Exited(c) => c case Signaled(g) => -(g as int);
            var log, log', ended := st.world.log, st'.world.log, RunEnds(cfg, s, j, w);
            && OnlyAt(st, st', i)
            && var t := st'.schedules[i];
            && |t.actions| == |s.actions|
            && Counted(s, t, ended, SomeSucceeded(t))
            && AllRecorded(cfg, s, t, j, w, code, now, code == 0 && Elsewhere(st, i, j))
            && log + [Reaped(i, j, code), MetaEnded(i, j)] <= log'
            && (CleansQueue(log, log', i) <==> ended && SomeSucceeded(t))
  {
    hide ReapAt, Inv, Collect, Continue, Conclude, OnlyAt, RunEnds, Elsewhere, AllRecorded, Counted, CleansQueue,
      SomeSucceeded;
    var pid, code := PidAt(st, i, j), StatusOf(status);
    var st0 := st.(world := Waited(st.world, pid));
    LocateLive(st, i, j);
    ReapAtElsewhere(cfg, st, st0, i, j, code, now);
    ReapAtRecords(cfg, st, st0, i, j, code, now);
    SameElsewhere(st, st0, i, j);
  }

  lemma SameElsewhere(st: State, st': State, i: nat, j: nat)
    requires st'.schedules == st.schedules && At(st, i, j)
    ensures Elsewhere(st, i, j) == Elsewhere(st', i, j)
  {
    assert forall d :: Addressed(st, i, j, d) <==> Addressed(st', i, j, d);
  }

  lemma ReapAtRecords(cfg: Config, st0: State, st: State, i: nat, j: nat, code: int, now: nat)
    requires Inv(st0) && At(st0, i, j) && Live(st0.schedules[i].actions[j])
    requires st == st0.(world := Waited(st0.world, PidAt(st0, i, j)))
    ensures var s, st' := st.schedules[i], ReapAt(cfg, st, i, j, code, now);
            var w, log, log' := st.world, st.world.log, st'.world.log;
            && |st'.schedules| == |st.schedules| && |st'.schedules[i].actions| == |s.actions|
            && var t := st'.schedules[i];
            && Counted(s, t, RunEnds(cfg, s, j, w), SomeSucceeded(t))
            && AllRecorded(cfg, s, t, j, w, code, now, code == 0 && Elsewhere(st, i, j))
            && log + [Reaped(i, j, code), MetaEnded(i, j)] <= log'
            && (CleansQueue(log, log', i) <==> RunEnds(cfg, s, j, w) && SomeSucceeded(t))
  {
    hide Inv, Collect, Continue, Conclude, RunEnds, Elsewhere, AllRecorded, CleansQueue, SomeSucceeded, StillRunning,
      Between, Ended, SomeSuccess;
    var s, w, waits := st.schedules[i], st.world, code == 0 && Elsewhere(st, i, j);
    BetweenFacts(cfg, st0, st, i, j, code, now);
    var st2 := Continue(cfg, Collect(st, i, j, code, now), i, j, now);
    var t := st2.schedules[i];
    StillRunningExactly(cfg, s, t, j, w, code, now, waits);
    if StillRunning(t) {
      GoingOn(cfg, s, t, j, w, code, now, waits);
    } else {
      EndingRun(cfg, s, t, j, w, code, now, waits);
      ConcludeFacts(st2, i);
      ConcludeGrows(st2, i);
      ConcludeCleansQueue(st2, i);
      SucceededExactly(t);
      CleansJoin(st.world.log, st2.world.log, Conclude(st2, i).world.log, i);
    }
  }

  /**
   The death of a child that is no process of any action changes nothing else; without such a child
   nothing happens.
   */
  lemma {:induction false} StrangerDies(cfg: Config, st: State, pid: int, status: WaitStatus, now: nat)
    requires Inv(st) && forall i: nat, j: nat :: At(st, i, j) && Live(st.schedules[i].actions[j]) ==>
             PidAt(st, i, j) != pid
    ensures Step(cfg, st, Death(pid, status, now)) == st.(world := st.world.(children := st.world.children - {pid}))
  {
    hide ReapAt;
    if pid !in st.world.children { assert st.world.children - {pid} == st.world.children; }
    var at := Locate(st, pid);
    assert at.Some? ==> At(st, at.value.0, at.value.1) && PidAt(st, at.value.0, at.value.1) == pid;
  }
}

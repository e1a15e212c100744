/**
 The counters of the schedules: every firing of a start event is accounted for, one-shot
 schedules run at most once, and a failed run was an invocation.
 */
module Accounting {
  import opened Model
  import opened Invariants
  import opened Spoiling

  ghost function Total(s: Schedule): nat { s.invocations + s.suppressions + s.overlaps }

  ghost predicate SameCounters(s: Schedule, s': Schedule) {
    s'.cfg == s.cfg && s'.invocations == s.invocations && s'.suppressions == s.suppressions
    && s'.overlaps == s.overlaps && s'.failures == s.failures && s'.stop == s.stop
  }

  // ------------------------------------------------------------------ one event

  lemma LaunchAtCounters(cfg: Config, st: State, i: nat, j: nat, now: nat)
    requires At(st, i, j)
    ensures SameCounters(st.schedules[i], LaunchAt(cfg, st, i, j, now).schedules[i])
    ensures SameCounters(st.schedules[i], ActionExec(cfg, st, i, j, now).st.schedules[i])
    ensures ActionExec(cfg, st, i, j, now).st.schedules[i].state == st.schedules[i].state
    ensures LaunchAt(cfg, st, i, j, now).schedules[i].state in {st.schedules[i].state, Running}
  {
    ActionExecFacts(cfg, st, i, j, now);
  }

  lemma {:induction false} LaunchUpToCounters(cfg: Config, st: State, i: nat, now: nat, n: nat)
    requires i < |st.schedules| && n <= |st.schedules[i].actions|
    ensures SameCounters(st.schedules[i], LaunchUpTo(cfg, st, i, now, n).schedules[i])
    ensures LaunchUpTo(cfg, st, i, now, n).schedules[i].state in {st.schedules[i].state, Running}
  {
    hide LaunchAt;
    if n > 0 {
      LaunchUpToCounters(cfg, st, i, now, n - 1);
      LaunchAtCounters(cfg, LaunchUpTo(cfg, st, i, now, n - 1), i, n - 1, now);
    }
  }

  ghost predicate Starts(s: Schedule, e: Event) {
    s.state != Disabled && s.cfg.name != "" && s.cfg.start != "" && s.cfg.start == e.name
  }

  lemma BeginCounters(cfg: Config, st: State, e: Event, now: nat, i: nat)
    requires i < |st.schedules| && st.schedules[i].state == Enabled && st.schedules[i].cfg.name != ""
    ensures var s, s' := st.schedules[i], Begin(cfg, st, e, now, i).schedules[i];
            && SameCounters(s.(invocations := s'.invocations), s')
            && s'.invocations == s.invocations + (if s.cfg.mode == Pipelined then 0 else 1)
            && (OneShot(e.kind) || s.cfg.mode == Pipelined ==> s'.state == Disabled)
            && (s'.state == Disabled ==> OneShot(e.kind) || s.cfg.mode == Pipelined)
  {
    hide LaunchAt, LaunchUpTo, ActionExec, CleanUpTo;
    var s := st.schedules[i];
    var st0 := TakeOver(st, e, now, i);
    var st1 := CountInvocation(CleanUpTo(st0, i, |s.actions|), i, now);
    if s.actions != [] { LaunchAtCounters(cfg, st1, i, 0, now); }
    LaunchUpToCounters(cfg, st1, i, now, |s.actions|);
  }

  /** What an event does to the counters of schedule i. */
  ghost predicate Accounts(s: Schedule, s': Schedule, e: Event) {
    && s'.cfg == s.cfg && s'.failures == s.failures && s'.stop == s.stop
    && (s.state == Disabled ==> s'.state == Disabled)
    && (s.cfg.mode == Pipelined && s.cfg.name != "" ==>
          (s'.state == Disabled <==> s.state == Disabled || (s.state == Enabled && Starts(s, e))))
    && Total(s') == Total(s) + (if Starts(s, e) && !(s.state == Enabled && s.cfg.mode == Pipelined) then 1 else 0)
    && s'.invocations == s.invocations
       + (if Starts(s, e) && s.state == Enabled && s.cfg.mode != Pipelined then 1 else 0)
    && s'.suppressions == s.suppressions + (if Starts(s, e) && s.state == Suppressed then 1 else 0)
    && (s'.invocations > s.invocations && OneShot(e.kind) ==> s'.state == Disabled)
    && (s'.actions != s.actions ==> Starts(s, e) && s.state == Enabled && s.cfg.mode != Pipelined)
  }

  lemma ExecuteStartAccounts(cfg: Config, st: State, e: Event, now: nat, i: nat)
    requires i < |st.schedules|
    ensures Accounts(st.schedules[i], ExecuteStart(cfg, st, e, now, i).schedules[i], e)
  {
    hide Begin;
    var s := st.schedules[i];
    if s.state == Enabled && s.cfg.name != "" {
      BeginCounters(cfg, st, e, now, i);
      if s.cfg.mode == Pipelined { BeginPipelined(cfg, st, e, now, i); }
    }
  }

  /** A pipelined start runs nothing. */
  lemma BeginPipelined(cfg: Config, st: State, e: Event, now: nat, i: nat)
    requires i < |st.schedules| && st.schedules[i].cfg.mode == Pipelined
    ensures Begin(cfg, st, e, now, i).schedules[i].actions == st.schedules[i].actions
  {
  }

  lemma ExecuteOneAccounts(cfg: Config, st: State, e: Event, now: nat, i: nat)
    requires i < |st.schedules|
    ensures Accounts(st.schedules[i], ExecuteOne(cfg, st, e, now, i).schedules[i], e)
  {
    hide ExecuteStart, Accounts;
    ExecuteStartAccounts(cfg, st, e, now, i);
    assert ExecuteOne(cfg, st, e, now, i).schedules == ExecuteStart(cfg, st, e, now, i).schedules;
  }

  /** Each schedule is visited exactly once while an event is executed. */
  lemma {:induction false} ExecuteCbAccounts(cfg: Config, st: State, e: Event, now: nat, n: nat, i: nat)
    requires Inv(st) && i < |st.schedules| && n <= |st.schedules|
    ensures var s' := ExecuteCb(cfg, st, e, now, n).schedules[i];
            if n <= i then s' == st.schedules[i] else Accounts(st.schedules[i], s', e)
  {
    hide ExecuteOne, Accounts, ScheduleOk, PidsOk;
    if n > 0 {
      ExecuteCbAccounts(cfg, st, e, now, n - 1, i);
      ExecuteCbKeeps(cfg, st, e, now, n - 1);
      var st1 := ExecuteCb(cfg, st, e, now, n - 1);
      ExecuteOneKeeps(cfg, st1, e, now, n - 1);
      ExecuteOneAccounts(cfg, st1, e, now, n - 1);
    }
  }

  /** Suppressions leave the counters alone. */
  ghost predicate Untouched(s: Schedule, s': Schedule) {
    && SameCounters(s.(stop := s'.stop), s')
    && (s'.state == Disabled <==> s.state == Disabled) && (SomeLive(s') <==> SomeLive(s))
  }

  lemma SuppressionUntouched(cfg: Config, sup: SuppCfg, s: Schedule, s': Schedule)
    requires Suppressing(cfg, sup, s, s') || Releasing(cfg, sup, s, s')
    ensures Untouched(s, s')
  {
    if s.state != Disabled {
      forall j | 0 <= j < |s.actions| ensures s'.actions[j].pid == s.actions[j].pid {}
      if SomeLive(s) { var j :| 0 <= j < |s.actions| && Live(s.actions[j]); assert Live(s'.actions[j]); }
    }
  }

  lemma {:induction false} SuppressCbCounters(cfg: Config, st: State, e: Event, n: nat, i: nat)
    requires n <= |st.supps| && i < |st.schedules|
    ensures |SuppressCb(cfg, st, e, n).schedules| == |st.schedules|
    ensures Untouched(st.schedules[i], SuppressCb(cfg, st, e, n).schedules[i])
  {
    if n > 0 {
      SuppressCbCounters(cfg, st, e, n - 1, i);
      SuppressCbOneCounters(cfg, SuppressCb(cfg, st, e, n - 1), e, n - 1, i);
    }
  }

  lemma SuppressCbOneCounters(cfg: Config, st: State, e: Event, k: nat, i: nat)
    requires k < |st.supps| && i < |st.schedules|
    ensures |SuppressCbOne(cfg, st, e, k).schedules| == |st.schedules|
    ensures Untouched(st.schedules[i], SuppressCbOne(cfg, st, e, k).schedules[i])
  {
    var sup := st.supps[k].cfg;
    SuppressUpToFacts(cfg, SetSupp(st, k, SuppActive), sup, |st.schedules|);
    var st1 := SuppressCbStart(cfg, st, e, k);
    ReleaseUpToFacts(cfg, SetSupp(st1, k, SuppEnabled), st1.supps[k].cfg, |st1.schedules|);
    if st1 != st { SuppressionUntouched(cfg, sup, st.schedules[i], st1.schedules[i]); }
    var st2 := SuppressCbEnd(cfg, st1, e, k);
    if st2 != st1 { SuppressionUntouched(cfg, st1.supps[k].cfg, st1.schedules[i], st2.schedules[i]); }
  }

  lemma FireAccounts(cfg: Config, st: State, e: Event, now: nat, i: nat)
    requires Inv(st) && i < |st.schedules|
    ensures |Step(cfg, st, Fire(e, now)).schedules| == |st.schedules|
    ensures var s, s' := st.schedules[i], Step(cfg, st, Fire(e, now)).schedules[i];
            exists s1 :: Untouched(s, s1) && Accounts(s1, s', e)
  {
    var st1 := SuppressCb(cfg, st, e, |st.supps|);
    SuppressCbCounters(cfg, st, e, |st.supps|, i);
    SuppressCbCalm(cfg, st, e, |st.supps|);
    AllCalmKeeps(st, st1);
    ExecuteCbAccounts(cfg, st1, e, now, |st1.schedules|, i);
    assert Untouched(st.schedules[i], st1.schedules[i]);
  }

  // ------------------------------------------------------------------ one death

  lemma ConcludedCounters(s: Schedule)
    requires !StillRunning(s)
    ensures var s' := Concluded(s);
            && SameCounters(s.(failures := s'.failures), s') && s.failures <= s'.failures <= s.failures + 1
            && (s'.state == Disabled <==> s.state == Disabled) && !StillRunning(s')
  {
    forall a | a in Concluded(s).actions ensures a.state != ActRunning {
      var k :| 0 <= k < |s.actions| && Concluded(s).actions[k] == a;
      assert s.actions[k] in s.actions;
    }
  }

  lemma ReapAtCounters(cfg: Config, st: State, i: nat, j: nat, status: int, now: nat)
    requires At(st, i, j)
    ensures var s, s' := st.schedules[i], ReapAt(cfg, st, i, j, status, now).schedules[i];
            && SameCounters(s.(failures := s'.failures), s') && s.failures <= s'.failures <= s.failures + 1
            && (s'.state == Disabled <==> s.state == Disabled)
            && (s'.failures > s.failures ==> !StillRunning(s'))
  {
    CollectFacts(st, i, j, status, now);
    var st1 := Collect(st, i, j, status, now);
    if j + 1 < |st1.schedules[i].actions| { LaunchAtCounters(cfg, st1, i, j + 1, now); }
    var st2 := Continue(cfg, st1, i, j, now);
    assert SameCounters(st.schedules[i], st2.schedules[i]);
    if !StillRunning(st2.schedules[i]) {
      ConcludeFacts(st2, i);
      ConcludedCounters(st2.schedules[i]);
    }
  }

  /** No process of the schedule can outlive its run. */
  ghost predicate Tight(s: Schedule) { s.cfg.mode == Sequential || Unstopped(s) }

  /** After a failed run no process is left. */
  lemma FailedRunOver(cfg: Config, st0: State, st: State, i: nat, j: nat, status: int, now: nat)
    requires Inv(st0) && At(st0, i, j) && Live(st0.schedules[i].actions[j]) && Tight(st0.schedules[i])
    requires st == st0.(world := st0.world.(children := st0.world.children - {PidAt(st0, i, j)}))
    requires ReapAt(cfg, st, i, j, status, now).schedules[i].failures > st.schedules[i].failures
    ensures !SomeLive(ReapAt(cfg, st, i, j, status, now).schedules[i])
  {
    CollectKeeps(st0, st, i, j, status, now);
    CollectFacts(st, i, j, status, now);
    var st1 := Collect(st, i, j, status, now);
    assert st.schedules[i].cfg.mode != Sequential ==> Unstopped(st1.schedules[i]);
    hide Collect, ActionExec, Conclude;
    ContinueKeeps(cfg, st1, i, j, now);
    if j + 1 < |st1.schedules[i].actions| { LaunchAtCounters(cfg, st1, i, j + 1, now); }
    var st2 := Continue(cfg, st1, i, j, now);
    assert st.schedules[i].cfg.mode != Sequential ==> st2 == st1;
    hide Continue, Unstopped;
    assert st2.schedules[i].failures == st.schedules[i].failures;
    ConcludeFacts(st2, i);
    AllOver(st2, i);
  }

  /** When nothing of such a schedule is RUNNING, no process of it is alive. */
  lemma AllOver(st: State, i: nat)
    requires Collecting(st, i) && Tight(st.schedules[i])
    ensures StillRunning(st.schedules[i]) || !SomeLive(Concluded(st.schedules[i]))
  {
    forall l | 0 <= l < |st.schedules[i].actions| && !StillRunning(st.schedules[i])
      ensures !Live(st.schedules[i].actions[l])
    {
      assert st.schedules[i].actions[l] in st.schedules[i].actions;
    }
  }

  lemma DeathCounters(cfg: Config, st: State, pid: int, status: WaitStatus, now: nat, i: nat)
    requires Inv(st) && i < |st.schedules|
    ensures |Reap(cfg, st, pid, status, now).schedules| == |st.schedules|
    ensures var s, s' := st.schedules[i], Reap(cfg, st, pid, status, now).schedules[i];
            && SameCounters(s.(failures := s'.failures), s') && (s'.state == Disabled <==> s.state == Disabled)
            && s.failures <= s'.failures <= s.failures + 1
            && (s'.failures > s.failures && Tight(s) ==> !SomeLive(s'))
            && (!SomeLive(s) ==> s' == s)
  {
    hide Tight;
    if pid > 0 && pid in st.world.children {
      var st0 := st.(world := st.world.(children := st.world.children - {pid}));
      var at := Locate(st, pid);
      if at.Some? {
        var (k, j) := at.value;
        ReapAtElsewhere(cfg, st, st0, k, j, StatusOf(status), now);
        if k == i {
          assert Live(st.schedules[i].actions[j]);
          ReapAtCounters(cfg, st0, i, j, StatusOf(status), now);
          var st' := ReapAt(cfg, st0, i, j, StatusOf(status), now);
          if st'.schedules[i].failures > st0.schedules[i].failures && Tight(st.schedules[i]) {
            FailedRunOver(cfg, st, st0, i, j, StatusOf(status), now);
          }
        }
      }
    }
  }

  // ------------------------------------------------------------------ runs

  /** How often the start event of schedule i fired while the schedule was not DISABLED. */
  ghost function Firings(cfg: Config, st: State, xs: seq<Input>, i: nat): nat
    requires i < |st.schedules|
  {
    if xs == [] then 0
    else
      var prev, x := xs[..|xs| - 1], xs[|xs| - 1];
      var st1 := Run(cfg, st, prev);
      Firings(cfg, st, prev, i) +
      (if x.Fire? && i < |st1.schedules| && st1.schedules[i].state != Disabled
          && x.e.name == st.schedules[i].cfg.start then 1 else 0)
  }

  /** The start that disables a pipelined schedule is not counted. */
  ghost function Uncounted(s: Schedule, s': Schedule): nat {
    if s.cfg.mode == Pipelined && s.state != Disabled && s'.state == Disabled then 1 else 0
  }

  /**
   Every firing is an invocation, a suppression or an overlap, and nothing else is; the one
   exception is the firing that disables a pipelined schedule.
   */
  lemma {:induction false} FiringsConserved(cfg: Config, st: State, xs: seq<Input>, i: nat)
    requires Initial(st) && i < |st.schedules|
    requires st.schedules[i].cfg.name != "" && st.schedules[i].cfg.start != ""
    ensures var st' := Run(cfg, st, xs);
            |st'.schedules| == |st.schedules| && st'.schedules[i].cfg == st.schedules[i].cfg
            && (st.schedules[i].state == Disabled ==> st'.schedules[i].state == Disabled)
            && Total(st'.schedules[i]) + Uncounted(st.schedules[i], st'.schedules[i]) == Firings(cfg, st, xs, i)
  {
    if xs == [] {
      assert InitialSchedule(st.schedules[i]);
    } else {
      var prev, x := xs[..|xs| - 1], xs[|xs| - 1];
      FiringsConserved(cfg, st, prev, i);
      Reachable(cfg, st, prev);
      var st1 := Run(cfg, st, prev);
      match x {
        case Fire(e, now) => FireAccounts(cfg, st1, e, now, i);
        case Death(pid, status, now) => DeathCounters(cfg, st1, pid, status, now, i);
      }
    }
  }

  /** DISABLED is absorbing. */
  lemma DisabledStays(cfg: Config, st: State, x: Input, i: nat)
    requires Inv(st) && i < |st.schedules| && st.schedules[i].state == Disabled
    ensures |Step(cfg, st, x).schedules| == |st.schedules|
    ensures var s, s' := st.schedules[i], Step(cfg, st, x).schedules[i];
            s'.state == Disabled && s'.invocations == s.invocations && Total(s') == Total(s)
  {
    match x {
      case Fire(e, now) => FireAccounts(cfg, st, e, now, i);
      case Death(pid, status, now) => DeathCounters(cfg, st, pid, status, now, i);
    }
  }

  /** A schedule whose start event is one-off, immediate or startup runs at most once. */
  lemma {:induction false} OneShotOnce(cfg: Config, st: State, xs: seq<Input>, i: nat)
    requires Initial(st) && i < |st.schedules| && st.schedules[i].cfg.name != ""
    requires forall x :: x in xs && x.Fire? && x.e.name == st.schedules[i].cfg.start ==> OneShot(x.e.kind)
    ensures var st' := Run(cfg, st, xs);
            |st'.schedules| == |st.schedules| && st'.schedules[i].cfg == st.schedules[i].cfg
            && st'.schedules[i].invocations <= 1
               && (st'.schedules[i].invocations == 1 ==> st'.schedules[i].state == Disabled)
  {
    if xs == [] {
      assert InitialSchedule(st.schedules[i]);
    } else {
      var prev, x := xs[..|xs| - 1], xs[|xs| - 1];
      OneShotOnce(cfg, st, prev, i);
      Reachable(cfg, st, prev);
      assert x in xs;
      var st1 := Run(cfg, st, prev);
      match x {
        case Fire(e, now) => FireAccounts(cfg, st1, e, now, i);
        case Death(pid, status, now) => DeathCounters(cfg, st1, pid, status, now, i);
      }
    }
  }

  /**
   A failed run and a run in progress were each an invocation: in a sequential schedule, in a
   pipelined one, and in one for which no suppression stops an action behind its back.
   */
  lemma {:induction false} FailuresBounded(cfg: Config, st: State, xs: seq<Input>, i: nat)
    requires Initial(st) && i < |st.schedules|
    requires st.schedules[i].cfg.mode == Parallel ==> QuietAt(cfg, st, i)
    ensures var st' := Run(cfg, st, xs);
            && |st'.schedules| == |st.schedules| && st'.schedules[i].cfg == st.schedules[i].cfg
            && Bounded(st'.schedules[i])
  {
    if xs == [] {
      assert InitialSchedule(st.schedules[i]);
      forall j | 0 <= j < |st.schedules[i].actions|
        ensures !Live(st.schedules[i].actions[j])
      {
        assert InitialAction(st.schedules[i].actions[j]);
      }
    } else {
      hide Step, Inv, Bounded, QuietAt, Unstopped;
      var prev, x := xs[..|xs| - 1], xs[|xs| - 1];
      FailuresBounded(cfg, st, prev, i);
      Reachable(cfg, st, prev);
      var st1 := Run(cfg, st, prev);
      if st.schedules[i].cfg.mode == Parallel { ReachableUnstopped(cfg, st, prev, i); }
      StepBounded(cfg, st1, x, i);
    }
  }

  /** Failed runs and a run in progress; a pipelined schedule never runs at all. */
  ghost predicate Bounded(s: Schedule) {
    && s.failures + (if SomeLive(s) then 1 else 0) <= s.invocations
    && (s.cfg.mode == Pipelined ==> !SomeLive(s))
  }

  lemma StepBounded(cfg: Config, st: State, x: Input, i: nat)
    requires Inv(st) && i < |st.schedules| && Bounded(st.schedules[i])
    requires st.schedules[i].cfg.mode == Pipelined || Tight(st.schedules[i])
    ensures var st' := Step(cfg, st, x);
            |st'.schedules| == |st.schedules| && st'.schedules[i].cfg == st.schedules[i].cfg
              && Bounded(st'.schedules[i])
  {
    match x {
      case Fire(e, now) =>
        var st1 := SuppressCb(cfg, st, e, |st.supps|);
        SuppressCbCounters(cfg, st, e, |st.supps|, i);
        SuppressCbCalm(cfg, st, e, |st.supps|);
        AllCalmKeeps(st, st1);
        ExecuteCbAccounts(cfg, st1, e, now, |st1.schedules|, i);
        StartBounded(st.schedules[i], st1.schedules[i], ExecuteCb(cfg, st1, e, now, |st1.schedules|).schedules[i], e);
      case Death(pid, status, now) => DeathCounters(cfg, st, pid, status, now, i);
    }
  }

  lemma StartBounded(s: Schedule, s1: Schedule, s': Schedule, e: Event)
    requires ScheduleOk(s) && Bounded(s) && (s.cfg.mode == Pipelined || Tight(s))
    requires Untouched(s, s1) && Accounts(s1, s', e) && (s1.state == s.state || (!Busy(s) && !Busy(s1)))
    ensures Bounded(s')
  {
    if s1.state == Enabled {
      IdleWhenEnabled(s);
      if s.cfg.mode != Pipelined {
        forall j | 0 <= j < |s.actions| ensures !Live(s.actions[j]) { assert Tight(s); }
      }
    } else {
      assert s'.actions == s1.actions;
    }
  }
}

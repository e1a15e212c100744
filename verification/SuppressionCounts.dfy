/**
 The counters of active suppressions: in every reachable state they are the number of ACTIVE
 suppressions that match, for schedules and for actions.
 */
module SuppressionCounts {
  import opened Common
  import opened Model
  import opened Invariants

  ghost predicate Counts(cfg: Config, x: Supp, tags: seq<string>) {
    x.state == SuppActive && BigTagMatch(cfg.fnmatch, x.cfg.match_, tags)
  }

  /** How many suppressions are in force for these tags. */
  ghost function InForce(cfg: Config, supps: seq<Supp>, tags: seq<string>): nat {
    if supps == [] then 0
    else InForce(cfg, supps[..|supps| - 1], tags) + (if Counts(cfg, supps[|supps| - 1], tags) then 1 else 0)
  }

  ghost predicate ActionCounted(cfg: Config, supps: seq<Supp>, a: Action) {
    a.state != ActDisabled ==>
      a.active == InForce(cfg, supps, a.cfg.suppressionTags) && (a.state == ActSuppressed ==> a.active > 0)
  }

  ghost predicate ScheduleCounted(cfg: Config, supps: seq<Supp>, s: Schedule) {
    s.state != Disabled ==>
      && s.active == InForce(cfg, supps, s.cfg.suppressionTags)
      && (s.state == Enabled ==> s.active == 0) && (s.state == Suppressed ==> s.active > 0)
      && forall j :: 0 <= j < |s.actions| ==> ActionCounted(cfg, supps, s.actions[j])
  }

  ghost predicate SuppsNamed(supps: seq<Supp>) {
    forall k :: 0 <= k < |supps| && supps[k].state == SuppActive ==>
      supps[k].cfg.name != "" && supps[k].cfg.match_ != []
  }

  ghost predicate Counted(cfg: Config, st: State) {
    SuppsNamed(st.supps) && forall i :: 0 <= i < |st.schedules| ==> ScheduleCounted(cfg, st.supps, st.schedules[i])
  }

  /** Changing one suppression changes the number in force by at most one. */
  lemma {:induction false} InForceUpdate(cfg: Config, supps: seq<Supp>, k: nat, y: Supp, tags: seq<string>)
    requires k < |supps|
    ensures InForce(cfg, supps[k := y], tags) + (if Counts(cfg, supps[k], tags) then 1 else 0)
            == InForce(cfg, supps, tags) + (if Counts(cfg, y, tags) then 1 else 0)
  {
    var n := |supps| - 1;
    if k < n {
      InForceUpdate(cfg, supps[..n], k, y, tags);
      assert supps[k := y][..n] == supps[..n][k := y];
    } else {
      assert supps[k := y][..n] == supps[..n];
    }
  }

  /** An ACTIVE suppression that matches is counted, so no counter is decremented at zero. */
  lemma {:induction false} InForcePositive(cfg: Config, supps: seq<Supp>, k: nat, tags: seq<string>)
    requires k < |supps| && Counts(cfg, supps[k], tags)
    ensures InForce(cfg, supps, tags) > 0
  {
    if k < |supps| - 1 { InForcePositive(cfg, supps[..|supps| - 1], k, tags); }
  }

  lemma ActionStart(cfg: Config, supps: seq<Supp>, k: nat, stop: bool, a: Action)
    requires k < |supps| && supps[k].state == SuppEnabled && ActionCounted(cfg, supps, a)
    ensures ActionCounted(cfg, supps[k := supps[k].(state := SuppActive)], SuppressedAction(cfg, stop, a, supps[k].cfg))
  {
    InForceUpdate(cfg, supps, k, supps[k].(state := SuppActive), a.cfg.suppressionTags);
  }

  lemma ActionEnd(cfg: Config, supps: seq<Supp>, k: nat, a: Action)
    requires k < |supps| && supps[k].state == SuppActive && ActionCounted(cfg, supps, a)
    ensures ActionCounted(cfg, supps[k := supps[k].(state := SuppEnabled)], ReleasedAction(cfg, a, supps[k].cfg))
  {
    InForceUpdate(cfg, supps, k, supps[k].(state := SuppEnabled), a.cfg.suppressionTags);
  }

  lemma ScheduleStart(cfg: Config, supps: seq<Supp>, k: nat, s: Schedule, s': Schedule)
    requires k < |supps| && supps[k].state == SuppEnabled && ScheduleCounted(cfg, supps, s)
    requires Suppressing(cfg, supps[k].cfg, s, s')
    ensures ScheduleCounted(cfg, supps[k := supps[k].(state := SuppActive)], s')
  {
    if s.state != Disabled {
      InForceUpdate(cfg, supps, k, supps[k].(state := SuppActive), s.cfg.suppressionTags);
      forall j | 0 <= j < |s.actions|
        ensures ActionCounted(cfg, supps[k := supps[k].(state := SuppActive)], s'.actions[j])
      {
        ActionStart(cfg, supps, k, s'.stop, s.actions[j]);
      }
    }
  }

  lemma ScheduleEnd(cfg: Config, supps: seq<Supp>, k: nat, s: Schedule, s': Schedule)
    requires k < |supps| && supps[k].state == SuppActive && ScheduleCounted(cfg, supps, s)
    requires Releasing(cfg, supps[k].cfg, s, s')
    ensures ScheduleCounted(cfg, supps[k := supps[k].(state := SuppEnabled)], s')
  {
    if s.state != Disabled {
      InForceUpdate(cfg, supps, k, supps[k].(state := SuppEnabled), s.cfg.suppressionTags);
      forall j | 0 <= j < |s.actions|
        ensures ActionCounted(cfg, supps[k := supps[k].(state := SuppEnabled)], s'.actions[j])
      {
        ActionEnd(cfg, supps, k, s.actions[j]);
      }
    }
  }

  lemma SuppressionStartCounted(cfg: Config, st: State, k: nat)
    requires k < |st.supps| && st.supps[k].state == SuppEnabled && Counted(cfg, st)
    ensures Counted(cfg, SuppressionStart(cfg, st, k))
  {
    var st' := SuppressionStart(cfg, st, k);
    SuppressUpToFacts(cfg, SetSupp(st, k, SuppActive), st.supps[k].cfg, |st.schedules|);
    if st' != st {
      forall i | 0 <= i < |st.schedules| ensures ScheduleCounted(cfg, st'.supps, st'.schedules[i]) {
        ScheduleStart(cfg, st.supps, k, st.schedules[i], st'.schedules[i]);
      }
    }
  }

  lemma SuppressionEndCounted(cfg: Config, st: State, k: nat)
    requires k < |st.supps| && st.supps[k].state == SuppActive && Counted(cfg, st)
    ensures Counted(cfg, SuppressionEnd(cfg, st, k))
  {
    var st' := SuppressionEnd(cfg, st, k);
    ReleaseUpToFacts(cfg, SetSupp(st, k, SuppEnabled), st.supps[k].cfg, |st.schedules|);
    if st' != st {
      forall i | 0 <= i < |st.schedules| ensures ScheduleCounted(cfg, st'.supps, st'.schedules[i]) {
        ScheduleEnd(cfg, st.supps, k, st.schedules[i], st'.schedules[i]);
      }
    }
  }

  lemma DisableUnnamed(cfg: Config, st: State, k: nat)
    requires k < |st.supps| && st.supps[k].cfg.name == "" && Counted(cfg, st)
    ensures Counted(cfg, SetSupp(st, k, SuppDisabled))
  {
    var st' := SetSupp(st, k, SuppDisabled);
    forall tags ensures InForce(cfg, st'.supps, tags) == InForce(cfg, st.supps, tags) {
      InForceUpdate(cfg, st.supps, k, st.supps[k].(state := SuppDisabled), tags);
    }
    forall i | 0 <= i < |st.schedules| ensures ScheduleCounted(cfg, st'.supps, st'.schedules[i]) {
      assert ScheduleCounted(cfg, st.supps, st.schedules[i]);
      forall j | 0 <= j < |st.schedules[i].actions| && st.schedules[i].state != Disabled
        ensures ActionCounted(cfg, st'.supps, st.schedules[i].actions[j])
      {
        assert ActionCounted(cfg, st.supps, st.schedules[i].actions[j]);
      }
    }
  }

  lemma {:induction false} SuppressCbCounted(cfg: Config, st: State, e: Event, n: nat)
    requires n <= |st.supps| && Counted(cfg, st)
    ensures Counted(cfg, SuppressCb(cfg, st, e, n))
  {
    if n > 0 {
      SuppressCbCounted(cfg, st, e, n - 1);
      var st1, k := SuppressCb(cfg, st, e, n - 1), n - 1;
      if st1.supps[k].state != SuppDisabled {
        if st1.supps[k].cfg.name == "" {
          DisableUnnamed(cfg, st1, k);
        } else {
          if st1.supps[k].state == SuppEnabled { SuppressionStartCounted(cfg, st1, k); }
          var st2 := SuppressCbStart(cfg, st1, e, k);
          if st2.supps[k].state == SuppActive { SuppressionEndCounted(cfg, st2, k); }
        }
      }
    }
  }

  // ------------------------------------------------------------------ all other steps

  /** A step that has nothing to do with suppressions. */
  ghost predicate KeepsCounts(s: Schedule, s': Schedule, i: nat, reaped: Option<(nat, nat)>) {
    && s'.cfg == s.cfg && s'.active == s.active && |s'.actions| == |s.actions|
    && (s'.state != Disabled ==> s.state != Disabled)
    && (s'.state == Enabled ==> s.state == Enabled || s.active == 0)
    && (s'.state == Suppressed ==> s.state == Suppressed || s.active > 0)
    && forall j :: 0 <= j < |s.actions| ==> ActionKeepsCounts(s.actions[j], s'.actions[j], reaped == Some((i, j)))
  }

  ghost predicate ActionKeepsCounts(a: Action, b: Action, reaped: bool) {
    && b.cfg == a.cfg && b.active == a.active
    && (b.state == ActSuppressed ==> a.state == ActSuppressed)
    && (b.state == ActDisabled <==> a.state == ActDisabled)
    && (b.state == ActEnabled ==> a.state == ActEnabled || reaped)
  }

  /** reaped: the action whose process has been collected, if there is one. */
  ghost predicate AllKeepCounts(st: State, st': State, reaped: Option<(nat, nat)>) {
    && |st'.schedules| == |st.schedules| && st'.supps == st.supps
    && forall i :: 0 <= i < |st.schedules| ==> KeepsCounts(st.schedules[i], st'.schedules[i], i, reaped)
  }

  lemma StillCounted(cfg: Config, st: State, st': State, reaped: Option<(nat, nat)>)
    requires Counted(cfg, st) && AllKeepCounts(st, st', reaped)
    ensures Counted(cfg, st')
  {
    forall i | 0 <= i < |st.schedules| ensures ScheduleCounted(cfg, st'.supps, st'.schedules[i]) {
      var s, s' := st.schedules[i], st'.schedules[i];
      assert ScheduleCounted(cfg, st.supps, s) && KeepsCounts(s, s', i, reaped);
      forall j | 0 <= j < |s.actions| && s'.state != Disabled ensures ActionCounted(cfg, st'.supps, s'.actions[j]) {
        assert ActionCounted(cfg, st.supps, s.actions[j])
               && ActionKeepsCounts(s.actions[j], s'.actions[j], reaped == Some((i, j)));
      }
    }
  }

  lemma KeepTrans(a: State, b: State, c: State, reaped: Option<(nat, nat)>)
    requires AllKeepCounts(a, b, reaped) && AllKeepCounts(b, c, reaped)
    ensures AllKeepCounts(a, c, reaped)
  {
    forall i | 0 <= i < |a.schedules| ensures KeepsCounts(a.schedules[i], c.schedules[i], i, reaped) {
      var s, t, u := a.schedules[i], b.schedules[i], c.schedules[i];
      assert KeepsCounts(s, t, i, reaped) && KeepsCounts(t, u, i, reaped);
      forall j | 0 <= j < |s.actions|
        ensures ActionKeepsCounts(s.actions[j], u.actions[j], reaped == Some((i, j)))
      {
        assert ActionKeepsCounts(s.actions[j], t.actions[j], reaped == Some((i, j)));
      }
    }
  }

  lemma NobodyReaped(st: State, st': State, reaped: Option<(nat, nat)>)
    requires AllKeepCounts(st, st', None)
    ensures AllKeepCounts(st, st', reaped)
  {
    forall i | 0 <= i < |st.schedules| ensures KeepsCounts(st.schedules[i], st'.schedules[i], i, reaped) {
      var s, s' := st.schedules[i], st'.schedules[i];
      assert KeepsCounts(s, s', i, None);
      forall j | 0 <= j < |s.actions|
        ensures ActionKeepsCounts(s.actions[j], s'.actions[j], reaped == Some((i, j)))
      {
        assert ActionKeepsCounts(s.actions[j], s'.actions[j], false);
      }
    }
  }

  lemma LaunchAtCounts(cfg: Config, st: State, i: nat, j: nat, now: nat)
    requires At(st, i, j)
    ensures AllKeepCounts(st, LaunchAt(cfg, st, i, j, now), None) || st.schedules[i].state == Disabled
    ensures AllKeepCounts(st, ActionExec(cfg, st, i, j, now).st, None)
    ensures LaunchAt(cfg, st, i, j, now).schedules[i].state == Disabled ==> st.schedules[i].state == Disabled
  {
    hide ActionExec;
    ActionExecFacts(cfg, st, i, j, now);
  }

  lemma {:induction false} LaunchUpToCounts(cfg: Config, st: State, i: nat, now: nat, n: nat)
    requires i < |st.schedules| && n <= |st.schedules[i].actions| && st.schedules[i].state != Disabled
    ensures AllKeepCounts(st, LaunchUpTo(cfg, st, i, now, n), None)
    ensures LaunchUpTo(cfg, st, i, now, n).schedules[i].state != Disabled
  {
    hide LaunchAt;
    if n > 0 {
      LaunchUpToCounts(cfg, st, i, now, n - 1);
      var st1 := LaunchUpTo(cfg, st, i, now, n - 1);
      LaunchAtCounts(cfg, st1, i, n - 1, now);
      KeepTrans(st, st1, LaunchUpTo(cfg, st, i, now, n), None);
    }
  }

  /** A schedule at most becomes DISABLED, and no counter changes. */
  lemma FieldsKeepCounts(st: State, st': State, i: nat)
    requires i < |st.schedules| == |st'.schedules| && st'.supps == st.supps
    requires forall k :: 0 <= k < |st.schedules| && k != i ==> st'.schedules[k] == st.schedules[k]
    requires var s, s' := st.schedules[i], st'.schedules[i];
             s'.cfg == s.cfg && s'.active == s.active && s'.actions == s.actions
               && (s'.state == s.state || s'.state == Disabled)
    ensures AllKeepCounts(st, st', None)
  {
  }

  lemma ScheduleExecCounts(cfg: Config, st: State, i: nat, now: nat)
    requires i < |st.schedules| && st.schedules[i].state == Enabled
    ensures AllKeepCounts(st, ScheduleExec(cfg, st, i, now), None)
  {
    hide LaunchAt, LaunchUpTo, CleanUpTo, AllKeepCounts;
    var s := st.schedules[i];
    var st1 := CleanUpTo(st, i, |s.actions|);
    var st2 := CountInvocation(st1, i, now);
    var st' := ScheduleExec(cfg, st, i, now);
    if s.cfg.name == "" || s.cfg.mode == Pipelined {
      FieldsKeepCounts(st, st', i);
    } else {
      FieldsKeepCounts(st, st2, i);
      if s.cfg.mode == Parallel {
        LaunchUpToCounts(cfg, st2, i, now, |s.actions|);
        KeepTrans(st, st2, st', None);
      } else if s.actions != [] {
        LaunchAtCounts(cfg, st2, i, 0, now);
        KeepTrans(st, st2, st', None);
      }
    }
  }

  lemma BeginCounts(cfg: Config, st: State, e: Event, now: nat, i: nat)
    requires i < |st.schedules| && st.schedules[i].state == Enabled
    ensures AllKeepCounts(st, Begin(cfg, st, e, now, i), None)
  {
    var st0 := TakeOver(st, e, now, i);
    assert AllKeepCounts(st, st0, None);
    ScheduleExecCounts(cfg, st0, i, now);
    var st2 := ScheduleExec(cfg, st0, i, now);
    KeepTrans(st, st0, st2, None);
    var st3 := Begin(cfg, st, e, now, i);
    assert AllKeepCounts(st2, st3, None);
    KeepTrans(st, st2, st3, None);
  }

  lemma ExecuteStartCounts(cfg: Config, st: State, e: Event, now: nat, i: nat)
    requires i < |st.schedules|
    ensures AllKeepCounts(st, ExecuteStart(cfg, st, e, now, i), None)
  {
    if st.schedules[i].state == Enabled { BeginCounts(cfg, st, e, now, i); }
  }

  lemma ExecuteOneCounts(cfg: Config, st: State, e: Event, now: nat, i: nat)
    requires i < |st.schedules|
    ensures AllKeepCounts(st, ExecuteOne(cfg, st, e, now, i), None)
  {
    ExecuteStartCounts(cfg, st, e, now, i);
    assert ExecuteOne(cfg, st, e, now, i).schedules == ExecuteStart(cfg, st, e, now, i).schedules;
  }

  lemma {:induction false} ExecuteCbCounts(cfg: Config, st: State, e: Event, now: nat, n: nat)
    requires n <= |st.schedules|
    ensures AllKeepCounts(st, ExecuteCb(cfg, st, e, now, n), None)
  {
    hide ExecuteOne;
    if n > 0 {
      ExecuteCbCounts(cfg, st, e, now, n - 1);
      var st1 := ExecuteCb(cfg, st, e, now, n - 1);
      ExecuteOneCounts(cfg, st1, e, now, n - 1);
      KeepTrans(st, st1, ExecuteCb(cfg, st, e, now, n), None);
    }
  }

  lemma CollectCounts(st: State, i: nat, j: nat, status: int, now: nat)
    requires At(st, i, j) && st.schedules[i].actions[j].state != ActDisabled
    ensures AllKeepCounts(st, Collect(st, i, j, status, now), Some((i, j)))
  {
    CollectFacts(st, i, j, status, now);
  }

  lemma ConcludeCounts(st: State, i: nat)
    requires i < |st.schedules|
    ensures AllKeepCounts(st, Conclude(st, i), None)
  {
    ConcludeFacts(st, i);
    assert KeepsCounts(st.schedules[i], Concluded(st.schedules[i]), i, None);
  }

  lemma ContinueCounts(cfg: Config, st: State, i: nat, j: nat, now: nat)
    requires At(st, i, j)
    ensures AllKeepCounts(st, Continue(cfg, st, i, j, now), None)
  {
    if j + 1 < |st.schedules[i].actions| { LaunchAtCounts(cfg, st, i, j + 1, now); }
  }

  lemma ReapAtCounts(cfg: Config, st: State, i: nat, j: nat, status: int, now: nat)
    requires At(st, i, j) && st.schedules[i].actions[j].state != ActDisabled
    ensures AllKeepCounts(st, ReapAt(cfg, st, i, j, status, now), Some((i, j)))
  {
    CollectCounts(st, i, j, status, now);
    var st1 := Collect(st, i, j, status, now);
    ContinueCounts(cfg, st1, i, j, now);
    var st2 := Continue(cfg, st1, i, j, now);
    NobodyReaped(st1, st2, Some((i, j)));
    KeepTrans(st, st1, st2, Some((i, j)));
    ConcludeCounts(st2, i);
    NobodyReaped(st2, Conclude(st2, i), Some((i, j)));
    KeepTrans(st, st2, Conclude(st2, i), Some((i, j)));
  }

  lemma ReapCounts(cfg: Config, st: State, pid: int, status: WaitStatus, now: nat)
    requires Inv(st)
    ensures AllKeepCounts(st, Reap(cfg, st, pid, status, now), Locate(st, pid))
  {
    if pid > 0 && pid in st.world.children {
      var st0 := st.(world := st.world.(children := st.world.children - {pid}));
      var at := Locate(st, pid);
      if at.Some? {
        var (i, j) := at.value;
        assert ScheduleOk(st.schedules[i]) && ActionCore(st.schedules[i], st.schedules[i].actions[j]);
        ReapAtCounts(cfg, st0, i, j, StatusOf(status), now);
      }
    }
  }

  lemma {:induction false} InForceNone(cfg: Config, supps: seq<Supp>, tags: seq<string>)
    requires forall k :: 0 <= k < |supps| ==> supps[k].state != SuppActive
    ensures InForce(cfg, supps, tags) == 0
  {
    if supps != [] { InForceNone(cfg, supps[..|supps| - 1], tags); }
  }

  lemma InitialCounted(cfg: Config, st: State)
    requires Initial(st)
    ensures Counted(cfg, st)
  {
    forall i | 0 <= i < |st.schedules| ensures ScheduleCounted(cfg, st.supps, st.schedules[i]) {
      var s := st.schedules[i];
      assert InitialSchedule(s);
      InForceNone(cfg, st.supps, s.cfg.suppressionTags);
      forall j | 0 <= j < |s.actions| ensures ActionCounted(cfg, st.supps, s.actions[j]) {
        assert InitialAction(s.actions[j]);
        InForceNone(cfg, st.supps, s.actions[j].cfg.suppressionTags);
      }
    }
  }

  lemma {:induction false} ReachableCounted(cfg: Config, st: State, xs: seq<Input>)
    requires Initial(st)
    ensures Counted(cfg, Run(cfg, st, xs))
  {
    if xs == [] {
      InitialCounted(cfg, st);
    } else {
      ReachableCounted(cfg, st, xs[..|xs| - 1]);
      Reachable(cfg, st, xs[..|xs| - 1]);
      var st1 := Run(cfg, st, xs[..|xs| - 1]);
      match xs[|xs| - 1] {
        case Fire(e, now) =>
          SuppressCbCounted(cfg, st1, e, |st1.supps|);
          var st2 := SuppressCb(cfg, st1, e, |st1.supps|);
          ExecuteCbCounts(cfg, st2, e, now, |st2.schedules|);
          StillCounted(cfg, st2, Run(cfg, st, xs), None);
        case Death(pid, status, now) =>
          ReapCounts(cfg, st1, pid, status, now);
          StillCounted(cfg, st1, Run(cfg, st, xs), Locate(st1, pid));
      }
    }
  }

  lemma ReapedState(cfg: Config, st: State, pid: int, status: WaitStatus, now: nat)
    requires pid > 0 && pid in st.world.children && Locate(st, pid).Some?
    ensures var (i, j) := Locate(st, pid).value;
            var st' := Reap(cfg, st, pid, status, now);
            && At(st', i, j) && st'.schedules[i].actions[j].state == ActEnabled
            && st'.schedules[i].actions[j].cfg == st.schedules[i].actions[j].cfg
            && st'.schedules[i].actions[j].active == st.schedules[i].actions[j].active
            && (st'.schedules[i].state == Disabled ==> st.schedules[i].state == Disabled)
  {
    hide ReapAt;
    var (i, j) := Locate(st, pid).value;
    ReapedAtState(cfg, st.(world := st.world.(children := st.world.children - {pid})), i, j, StatusOf(status), now);
  }

  lemma ReapedAtState(cfg: Config, st: State, i: nat, j: nat, status: int, now: nat)
    requires At(st, i, j)
    ensures var st' := ReapAt(cfg, st, i, j, status, now);
            && At(st', i, j) && st'.schedules[i].actions[j].state == ActEnabled
            && st'.schedules[i].actions[j].cfg == st.schedules[i].actions[j].cfg
            && st'.schedules[i].actions[j].active == st.schedules[i].actions[j].active
            && (st'.schedules[i].state == Disabled ==> st.schedules[i].state == Disabled)
  {
    CollectFacts(st, i, j, status, now);
    var st1 := Collect(st, i, j, status, now);
    hide Collect, Conclude, Continue;
    ContinueNeighbour(cfg, st1, i, j, now);
    ConcludeFacts(Continue(cfg, st1, i, j, now), i);
  }

  /** Starting the next action leaves this one and the state of the schedule alone. */
  lemma ContinueNeighbour(cfg: Config, st: State, i: nat, j: nat, now: nat)
    requires At(st, i, j)
    ensures var st' := Continue(cfg, st, i, j, now);
            && At(st', i, j) && st'.schedules[i].actions[j] == st.schedules[i].actions[j]
            && st'.schedules[i].state == st.schedules[i].state
  {
    hide ActionExec;
    if j + 1 < |st.schedules[i].actions| { ActionExecFacts(cfg, st, i, j + 1, now); }
  }

  /**
   A reaped action is ENABLED whatever its counter says: it is left ENABLED with suppressions in
   force exactly when some were in force as its process died.
   */
  lemma ReapedEnabled(cfg: Config, st: State, xs: seq<Input>, pid: int, status: WaitStatus, now: nat)
    requires Initial(st) && pid > 0 && pid in Run(cfg, st, xs).world.children && Locate(Run(cfg, st, xs), pid).Some?
    ensures var st1 := Run(cfg, st, xs); var (i, j) := Locate(st1, pid).value;
            var st' := Run(cfg, st, xs + [Death(pid, status, now)]);
            && At(st', i, j)
            && var a, b := st1.schedules[i].actions[j], st'.schedules[i].actions[j];
            && (b.state == ActEnabled && b.active > 0 <==> a.active > 0)
            && (st1.schedules[i].state != Disabled && st'.schedules[i].state != Disabled ==>
                  && (a.active > 0 <==> InForce(cfg, st1.supps, a.cfg.suppressionTags) > 0)
                  && (b.active > 0 <==> InForce(cfg, st'.supps, b.cfg.suppressionTags) > 0))
  {
    hide Reap, InForce, BigTagMatch;
    var st1, ys := Run(cfg, st, xs), xs + [Death(pid, status, now)];
    var (i, j) := Locate(st1, pid).value;
    assert ys[..|xs|] == xs;
    ReapedState(cfg, st1, pid, status, now);
    ReachableCounted(cfg, st, xs);
    ReachableCounted(cfg, st, ys);
    Reachable(cfg, st, xs);
    assert ScheduleOk(st1.schedules[i]) && ActionCore(st1.schedules[i], st1.schedules[i].actions[j]);
    var st' := Run(cfg, st, ys);
    CountedAt(cfg, st1, i, j);
    CountedAt(cfg, st', i, j);
  }

  lemma CountedAt(cfg: Config, st: State, i: nat, j: nat)
    requires Counted(cfg, st) && At(st, i, j)
    ensures var s := st.schedules[i];
            s.state != Disabled && s.actions[j].state != ActDisabled ==>
              s.actions[j].active == InForce(cfg, st.supps, s.actions[j].cfg.suppressionTags)
  {
    assert ScheduleCounted(cfg, st.supps, st.schedules[i]);
    if st.schedules[i].state != Disabled { assert ActionCounted(cfg, st.supps, st.schedules[i].actions[j]); }
  }

  // ------------------------------------------------------------------ ENABLED under a suppression

  /** The action is ENABLED although its counter says that suppressions are in force. */
  ghost predicate Misled(st: State, i: nat, j: nat) {
    At(st, i, j) && st.schedules[i].actions[j].state == ActEnabled && st.schedules[i].actions[j].active > 0
  }

  /** The input is the death of the process of the action while suppressions are in force. */
  ghost predicate ReapedUnder(st: State, x: Input, i: nat, j: nat) {
    At(st, i, j) && x.Death? && PidAt(st, i, j) == x.pid != 0 && st.schedules[i].actions[j].active > 0
  }

  ghost predicate NoneMisled(st: State, st': State) {
    && |st'.schedules| == |st.schedules|
    && (forall i :: 0 <= i < |st.schedules| ==> |st'.schedules[i].actions| == |st.schedules[i].actions|)
    && forall i: nat, j: nat :: Misled(st', i, j) ==> Misled(st, i, j)
  }

  lemma ChangeMisleads(cfg: Config, sup: SuppCfg, st: State, st': State)
    requires |st'.schedules| == |st.schedules|
    requires forall i :: 0 <= i < |st.schedules| ==>
               Suppressing(cfg, sup, st.schedules[i], st'.schedules[i])
                 || Releasing(cfg, sup, st.schedules[i], st'.schedules[i])
    ensures NoneMisled(st, st')
  {
    hide BigTagMatch;
    forall i | 0 <= i < |st.schedules| ensures |st'.schedules[i].actions| == |st.schedules[i].actions| {}
    forall i: nat, j: nat | Misled(st', i, j) ensures Misled(st, i, j) {
      assert At(st, i, j);
      var s, s' := st.schedules[i], st'.schedules[i];
      assert Suppressing(cfg, sup, s, s') || Releasing(cfg, sup, s, s');
    }
  }

  lemma SameMisleads(st: State, st': State)
    requires st'.schedules == st.schedules
    ensures NoneMisled(st, st')
  {
  }

  lemma MisleadsTrans(a: State, b: State, c: State)
    requires NoneMisled(a, b) && NoneMisled(b, c)
    ensures NoneMisled(a, c)
  {
    hide Misled;
  }

  lemma SuppressCbOneMisleads(cfg: Config, st: State, e: Event, k: nat)
    requires k < |st.supps|
    ensures NoneMisled(st, SuppressCbOne(cfg, st, e, k))
  {
    hide NoneMisled, Suppressing, Releasing;
    var sup := st.supps[k].cfg;
    SuppressUpToFacts(cfg, SetSupp(st, k, SuppActive), sup, |st.schedules|);
    var st1 := SuppressCbStart(cfg, st, e, k);
    ReleaseUpToFacts(cfg, SetSupp(st1, k, SuppEnabled), st1.supps[k].cfg, |st1.schedules|);
    var st2 := SuppressCbEnd(cfg, st1, e, k);
    if st1 == st { SameMisleads(st, st1); } else { ChangeMisleads(cfg, sup, st, st1); }
    if st2 == st1 { SameMisleads(st1, st2); } else { ChangeMisleads(cfg, st1.supps[k].cfg, st1, st2); }
    MisleadsTrans(st, st1, st2);
    SameMisleads(st, st);
    SameMisleads(st, SetSupp(st, k, SuppDisabled));
  }

  lemma {:induction false} SuppressCbMisleads(cfg: Config, st: State, e: Event, n: nat)
    requires n <= |st.supps|
    ensures NoneMisled(st, SuppressCb(cfg, st, e, n))
  {
    hide SuppressCbOne, Misled;
    if n > 0 {
      SuppressCbMisleads(cfg, st, e, n - 1);
      SuppressCbOneMisleads(cfg, SuppressCb(cfg, st, e, n - 1), e, n - 1);
    }
  }

  /**
   Whatever a step does, it leaves an action ENABLED under a suppression only by reaping it, or if it
   was so before.
   */
  lemma StepMisleads(cfg: Config, st: State, x: Input, i: nat, j: nat)
    requires Inv(st) && At(st, i, j)
    ensures At(Step(cfg, st, x), i, j)
    ensures Misled(Step(cfg, st, x), i, j) ==> Misled(st, i, j) || ReapedUnder(st, x, i, j)
    ensures ReapedUnder(st, x, i, j) ==> Misled(Step(cfg, st, x), i, j)
  {
    hide SuppressCb, ExecuteCb, Reap;
    match x {
      case Fire(e, now) =>
        var st1 := SuppressCb(cfg, st, e, |st.supps|);
        SuppressCbMisleads(cfg, st, e, |st.supps|);
        ExecuteCbCounts(cfg, st1, e, now, |st1.schedules|);
        KeptAt(st1, ExecuteCb(cfg, st1, e, now, |st1.schedules|), None, i, j);
      case Death(pid, status, now) =>
        ReapCounts(cfg, st, pid, status, now);
        KeptAt(st, Reap(cfg, st, pid, status, now), Locate(st, pid), i, j);
        if PidAt(st, i, j) == pid != 0 {
          LocateLive(st, i, j);
          ReapedState(cfg, st, pid, status, now);
        } else {
          ReapOther(cfg, st, pid, status, now, i, j);
        }
    }
  }

  lemma KeptAt(st: State, st': State, reaped: Option<(nat, nat)>, i: nat, j: nat)
    requires AllKeepCounts(st, st', reaped) && At(st, i, j)
    ensures At(st', i, j)
    ensures ActionKeepsCounts(st.schedules[i].actions[j], st'.schedules[i].actions[j], reaped == Some((i, j)))
  {
    assert KeepsCounts(st.schedules[i], st'.schedules[i], i, reaped);
  }

  /** A pid that is not that of the action: either nobody is reaped, or somebody else. */
  lemma ReapOther(cfg: Config, st: State, pid: int, status: WaitStatus, now: nat, i: nat, j: nat)
    requires Inv(st) && At(st, i, j) && (PidAt(st, i, j) != pid || pid == 0)
    ensures Reap(cfg, st, pid, status, now).schedules == st.schedules || Locate(st, pid) != Some((i, j))
  {
    hide ReapAt;
  }

  ghost predicate MisledIn(cfg: Config, st: State, xs: seq<Input>, i: nat, j: nat) {
    exists n :: 0 <= n <= |xs| && Misled(Run(cfg, st, xs[..n]), i, j)
  }

  ghost predicate ReapedUnderIn(cfg: Config, st: State, xs: seq<Input>, i: nat, j: nat) {
    exists n :: 0 <= n < |xs| && ReapedUnder(Run(cfg, st, xs[..n]), xs[n], i, j)
  }

  lemma MisledSnoc(cfg: Config, st: State, xs: seq<Input>, x: Input, i: nat, j: nat)
    ensures MisledIn(cfg, st, xs + [x], i, j) <==> MisledIn(cfg, st, xs, i, j) || Misled(Run(cfg, st, xs + [x]), i, j)
    ensures ReapedUnderIn(cfg, st, xs + [x], i, j) <==>
            ReapedUnderIn(cfg, st, xs, i, j) || ReapedUnder(Run(cfg, st, xs), x, i, j)
    ensures Misled(Run(cfg, st, xs), i, j) ==> MisledIn(cfg, st, xs, i, j)
  {
    hide Run, Misled, ReapedUnder;
    var ys := xs + [x];
    forall n | 0 <= n <= |xs| ensures ys[..n] == xs[..n] {}
    assert ys[..|ys|] == ys && xs[..|xs|] == xs;
  }

  /**
   In every run: an action is at some time ENABLED while suppressions are in force if and only if
   its process died at some time while suppressions were in force.
   */
  lemma {:induction false} MisledExactly(cfg: Config, st: State, xs: seq<Input>, i: nat, j: nat)
    requires Initial(st) && At(st, i, j)
    ensures At(Run(cfg, st, xs), i, j)
    ensures MisledIn(cfg, st, xs, i, j) <==> ReapedUnderIn(cfg, st, xs, i, j)
  {
    if xs == [] {
      assert InitialSchedule(st.schedules[i]) && InitialAction(st.schedules[i].actions[j]);
    } else {
      hide Step, Inv, Misled, ReapedUnder, MisledIn, ReapedUnderIn, Initial;
      var ys, x := xs[..|xs| - 1], xs[|xs| - 1];
      assert xs == ys + [x];
      MisledExactly(cfg, st, ys, i, j);
      Reachable(cfg, st, ys);
      StepMisleads(cfg, Run(cfg, st, ys), x, i, j);
      MisledSnoc(cfg, st, ys, x, i, j);
    }
  }

  // ------------------------------------------------------------------ the guards

  /** The state in which suppress_cb reaches the end of suppression k, after it has treated those before k. */
  ghost function BeforeEnd(cfg: Config, st: State, e: Event, k: nat): (r: State)
    requires k < |st.supps|
    ensures |r.supps| == |st.supps|
  {
    SuppressCbStart(cfg, SuppressCb(cfg, st, e, k), e, k)
  }

  lemma BeforeEndCounted(cfg: Config, st: State, e: Event, k: nat)
    requires k < |st.supps| && Counted(cfg, st)
    ensures Counted(cfg, BeforeEnd(cfg, st, e, k))
  {
    SuppressCbCounted(cfg, st, e, k);
    var st1 := SuppressCb(cfg, st, e, k);
    if st1.supps[k].state == SuppEnabled { SuppressionStartCounted(cfg, st1, k); }
  }

  /**
   Wherever suppress_cb decrements a counter, the counter is positive: the guards of suppression_end
   are never needed.
   */
  lemma GuardsNotNeeded(cfg: Config, st: State, xs: seq<Input>, e: Event, k: nat, i: nat, j: nat)
    requires Initial(st) && k < |Run(cfg, st, xs).supps|
    requires At(BeforeEnd(cfg, Run(cfg, st, xs), e, k), i, j)
    requires BeforeEnd(cfg, Run(cfg, st, xs), e, k).supps[k].state == SuppActive
    ensures var st' := BeforeEnd(cfg, Run(cfg, st, xs), e, k);
            var s, a := st'.schedules[i], st'.schedules[i].actions[j];
            && (s.state != Disabled && BigTagMatch(cfg.fnmatch, st'.supps[k].cfg.match_, s.cfg.suppressionTags) ==>
               s.active > 0)
            && ((s.state != Disabled && a.state != ActDisabled
               && BigTagMatch(cfg.fnmatch, st'.supps[k].cfg.match_, a.cfg.suppressionTags))
                ==> a.active > 0)
  {
    hide BigTagMatch, Run, InForce, BeforeEnd;
    ReachableCounted(cfg, st, xs);
    BeforeEndCounted(cfg, Run(cfg, st, xs), e, k);
    var st' := BeforeEnd(cfg, Run(cfg, st, xs), e, k);
    var s, a := st'.schedules[i], st'.schedules[i].actions[j];
    assert ScheduleCounted(cfg, st'.supps, s);
    if BigTagMatch(cfg.fnmatch, st'.supps[k].cfg.match_, s.cfg.suppressionTags) {
      InForcePositive(cfg, st'.supps, k, s.cfg.suppressionTags);
    }
    if BigTagMatch(cfg.fnmatch, st'.supps[k].cfg.match_, a.cfg.suppressionTags) {
      InForcePositive(cfg, st'.supps, k, a.cfg.suppressionTags);
    }
  }
}

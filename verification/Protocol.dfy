/**
 The order of what the runner does, read off its log.

 For every action a small automaton follows the processes and the results of that action:
 results may only be moved or thrown away once the process is dead, and the workspace may not
 be cleaned before exactly the moves that are owed have been made.  For every schedule a second
 automaton follows a sequential run.  Both never break, on any reachable log, and they agree
 with the fields of the action and the schedule.
 */
module Protocol {
  import opened Model
  import opened Invariants

  // ------------------------------------------------------------------ what is owed

  /** The destinations that are the schedule of the action itself. */
  ghost function Own(dests: seq<nat>, i: nat): seq<nat> {
    if dests == [] then []
    else Own(dests[..|dests| - 1], i) + (if dests[|dests| - 1] == i then [i] else [])
  }

  /**
   The moves made for a process that ended with this status: none after a failure; otherwise
   to the own schedule at once, and, when any destination is another schedule, to every
   destination (the own schedule included once more) at the end of the run.
   */
  ghost function Owed(dests: seq<nat>, i: nat, status: int): seq<nat> {
    if status != 0 then [] else Own(dests, i) + (if SomeOther(dests, i) then dests else [])
  }

  // ------------------------------------------------------------------ the automaton of an action

  datatype Phase =
    | Idle
    | AtWork
    | Ended(status: int, moved: seq<nat>)
    | Broken

  /** last: how the last process ended; pid: the process launched last. */
  datatype Track = Track(phase: Phase, launches: nat, completions: nat, failures: nat, last: int, pid: int)

  ghost function NextPhase(dests: seq<nat>, i: nat, j: nat, ph: Phase, op: Op): Phase {
    match op
    case Launched(s, a, _) => if s != i || a != j then ph else if ph.Idle? then AtWork else Broken
    case Reaped(s, a, status) => if s != i || a != j then ph else if ph.AtWork? then Ended(status, []) else Broken
    case ActionMoved(s, a, d) => if s != i || a != j then ph else if ph.Ended? then ph.(moved := ph.moved + [d])
         else Broken
    case ActionCleaned(s, a) =>
      if s != i || a != j then ph
      else (match ph
            case Idle => Idle
            case AtWork => AtWork
            case Ended(status, moved) => if moved == Owed(dests, i, status) then Idle else Broken
            case Broken => Broken)
    case _ => ph
  }

  ghost function NextTrack(dests: seq<nat>, i: nat, j: nat, t: Track, op: Op): Track {
    Track(NextPhase(dests, i, j, t.phase, op),
          t.launches + (if op.Launched? && op.s == i && op.a == j then 1 else 0),
          t.completions + (if op.Reaped? && op.s == i && op.a == j then 1 else 0),
          t.failures + (if op.Reaped? && op.s == i && op.a == j && op.status != 0 then 1 else 0),
          if op.Reaped? && op.s == i && op.a == j then op.status else t.last,
          if op.Launched? && op.s == i && op.a == j then op.pid else t.pid)
  }

  ghost function TrackOf(dests: seq<nat>, i: nat, j: nat, log: seq<Op>): Track {
    if log == [] then Track(Idle, 0, 0, 0, 0, 0)
    else NextTrack(dests, i, j, TrackOf(dests, i, j, log[..|log| - 1]), log[|log| - 1])
  }

  lemma TrackSnoc(dests: seq<nat>, i: nat, j: nat, log: seq<Op>, op: Op)
    ensures TrackOf(dests, i, j, log + [op]) == NextTrack(dests, i, j, TrackOf(dests, i, j, log), op)
  {
    assert (log + [op])[..|log|] == log;
  }

  // ------------------------------------------------------------------ the automaton of a sequential run

  /** Between(k): the actions before k have run, none is live; Active(k): action k is live. */
  datatype RunPhase = Unstarted | Between(k: nat) | Active(k: nat) | Disorder

  /**
   taken: the incoming queue has been taken over since the last invocation; blind: some invocation
   came without that.
   */
  datatype RunTrack = RunTrack(phase: RunPhase, invocations: nat, taken: bool, blind: bool)

  ghost function NextRun(i: nat, t: RunTrack, op: Op): RunTrack {
    match op
    case ScheduleMoved(s) => if s != i then t else t.(taken := true)
    case Invoked(s) =>
      if s != i then t
      else RunTrack(if t.phase.Between? || t.phase.Unstarted? then Between(0) else Disorder,
                    t.invocations + 1, false, t.blind || !t.taken)
    case Launched(s, a, _) => if s != i then t else t.(phase := if t.phase == Between(a) then Active(a) else Disorder)
    case Reaped(s, a, _) => if s != i then t else t.(phase := if t.phase == Active(a) then Between(a + 1) else Disorder)
    case _ => t
  }

  ghost function RunOf(i: nat, log: seq<Op>): RunTrack {
    if log == [] then RunTrack(Unstarted, 0, false, false) else NextRun(i, RunOf(i, log[..|log| - 1]), log[|log| - 1])
  }

  lemma RunSnoc(i: nat, log: seq<Op>, op: Op)
    ensures RunOf(i, log + [op]) == NextRun(i, RunOf(i, log), op)
  {
    assert (log + [op])[..|log|] == log;
  }

  // ------------------------------------------------------------------ growth of the log

  ghost predicate About(op: Op, i: nat) { op.Killed? || op.s == i }

  ghost predicate Extends(log: seq<Op>, log': seq<Op>, i: nat) {
    |log| <= |log'| && log'[..|log|] == log && forall n :: |log| <= n < |log'| ==> About(log'[n], i)
  }

  ghost predicate OnlyKills(log: seq<Op>, log': seq<Op>) {
    |log| <= |log'| && log'[..|log|] == log && forall n :: |log| <= n < |log'| ==> log'[n].Killed?
  }

  lemma ExtendsTrans(a: seq<Op>, b: seq<Op>, c: seq<Op>, i: nat)
    requires Extends(a, b, i) && Extends(b, c, i)
    ensures Extends(a, c, i)
  {
    assert c[..|a|] == c[..|b|][..|a|];
    forall n | |a| <= n < |c| ensures About(c[n], i) { if n < |b| { assert c[n] == c[..|b|][n]; } }
  }

  lemma KillsTrans(a: seq<Op>, b: seq<Op>, c: seq<Op>)
    requires OnlyKills(a, b) && OnlyKills(b, c)
    ensures OnlyKills(a, c)
  {
    assert c[..|a|] == c[..|b|][..|a|];
    forall n | |a| <= n < |c| ensures c[n].Killed? { if n < |b| { assert c[n] == c[..|b|][n]; } }
  }

  /** What happens in one schedule does not move the automata of another. */
  lemma {:induction false} OthersUnmoved(dests: seq<nat>, k: nat, j: nat, log: seq<Op>, log': seq<Op>, i: nat)
    requires (Extends(log, log', i) && k != i) || OnlyKills(log, log')
    ensures TrackOf(dests, k, j, log') == TrackOf(dests, k, j, log)
    ensures RunOf(k, log') == RunOf(k, log)
    decreases |log'|
  {
    if |log'| == |log| {
      assert log' == log;
    } else {
      var m := |log'| - 1;
      assert log'[..m][..|log|] == log;
      OthersUnmoved(dests, k, j, log, log'[..m], i);
    }
  }

  // ------------------------------------------------------------------ agreement with the fields

  ghost function DestsIn(names: seq<string>, a: Action): seq<nat> {
    Dests(names, a.cfg.destinations, |a.cfg.destinations|)
  }

  ghost predicate PhaseMatches(a: Action, dests: seq<nat>, i: nat, ph: Phase) {
    if Live(a) then ph.AtWork?
    else if a.deferred then
      SomeOther(dests, i) && ph.Ended? && ph.status == 0 && ph.moved == Own(dests, i)
    else ph.Idle?
  }

  ghost predicate ActionLinked(names: seq<string>, a: Action, i: nat, j: nat, log: seq<Op>) {
    var t := TrackOf(DestsIn(names, a), i, j, log);
    && a.invocations == t.launches == t.completions + (if Live(a) then 1 else 0)
    && a.failures == t.failures <= t.completions
    && (t.completions > 0 ==> a.lastStatus == t.last) && (Live(a) ==> a.pid == t.pid)
    && PhaseMatches(a, DestsIn(names, a), i, t.phase)
  }

  ghost predicate RunMatches(s: Schedule, ph: RunPhase) {
    && !ph.Disorder?
    && (forall j :: 0 <= j < |s.actions| && Live(s.actions[j]) ==> ph == Active(j))
    && (ph.Active? ==> ph.k < |s.actions| && Live(s.actions[ph.k]))
  }

  ghost predicate RunLinked(s: Schedule, i: nat, log: seq<Op>) {
    && s.invocations == RunOf(i, log).invocations && !RunOf(i, log).blind
    && (s.cfg.mode == Sequential ==> RunMatches(s, RunOf(i, log).phase))
  }

  ghost predicate Linked(names: seq<string>, s: Schedule, i: nat, log: seq<Op>) {
    && RunLinked(s, i, log)
    && forall j :: 0 <= j < |s.actions| ==> ActionLinked(names, s.actions[j], i, j, log)
  }

  lemma LinkedElsewhere(names: seq<string>, s: Schedule, k: nat, log: seq<Op>, log': seq<Op>, i: nat)
    requires Linked(names, s, k, log) && ((Extends(log, log', i) && k != i) || OnlyKills(log, log'))
    ensures Linked(names, s, k, log')
  {
    OthersUnmoved([], k, 0, log, log', i);
    forall j | 0 <= j < |s.actions| ensures ActionLinked(names, s.actions[j], k, j, log') {
      assert ActionLinked(names, s.actions[j], k, j, log);
      OthersUnmoved(DestsIn(names, s.actions[j]), k, j, log, log', i);
    }
  }

  /** An operation on action j leaves its neighbours alone. */
  ghost predicate OnAction(op: Op, i: nat, j: nat) {
    match op
    case Launched(s, a, _) => s == i && a == j
    case Reaped(s, a, _) => s == i && a == j
    case MetaEnded(s, a) => s == i && a == j
    case ActionCleaned(s, a) => s == i && a == j
    case ActionMoved(s, a, _) => s == i && a == j
    case _ => false
  }

  lemma NeighbourUnmoved(names: seq<string>, a: Action, i: nat, k: nat, log: seq<Op>, op: Op, j: nat)
    requires ActionLinked(names, a, i, k, log)
    requires (OnAction(op, i, j) && k != j) || op.Invoked? || op.Killed? || op.ScheduleMoved? || op.ScheduleCleaned?
    ensures ActionLinked(names, a, i, k, log + [op])
  {
    TrackSnoc(DestsIn(names, a), i, k, log, op);
  }

  lemma CleanLinked(names: seq<string>, s: Schedule, i: nat, j: nat, log: seq<Op>)
    requires Linked(names, s, i, log) && j < |s.actions|
    requires !s.actions[j].deferred
    ensures Linked(names, s, i, log + [ActionCleaned(i, j)])
  {
    var op := ActionCleaned(i, j);
    RunSnoc(i, log, op);
    forall k | 0 <= k < |s.actions| ensures ActionLinked(names, s.actions[k], i, k, log + [op]) {
      assert ActionLinked(names, s.actions[k], i, k, log);
      if k == j { TrackSnoc(DestsIn(names, s.actions[j]), i, j, log, op); }
      else { NeighbourUnmoved(names, s.actions[k], i, k, log, op, j); }
    }
  }

  lemma LaunchLinked(names: seq<string>, s: Schedule, i: nat, j: nat, pid: int, now: nat, log: seq<Op>)
    requires Linked(names, s, i, log) && j < |s.actions|
    requires !Live(s.actions[j]) && !s.actions[j].deferred && pid != 0
    requires s.cfg.mode == Sequential ==> RunOf(i, log).phase == RunPhase.Between(j)
    ensures Linked(names, s.(actions := s.actions[j := Started(s.actions[j], pid, now)]), i,
            log + [Launched(i, j, pid)])
  {
    var op := Launched(i, j, pid);
    var s' := s.(actions := s.actions[j := Started(s.actions[j], pid, now)]);
    RunSnoc(i, log, op);
    forall k | 0 <= k < |s.actions| ensures ActionLinked(names, s'.actions[k], i, k, log + [op]) {
      assert ActionLinked(names, s.actions[k], i, k, log);
      if k == j {
        assert DestsIn(names, s'.actions[j]) == DestsIn(names, s.actions[j]);
        TrackSnoc(DestsIn(names, s.actions[j]), i, j, log, op);
      }
      else { NeighbourUnmoved(names, s.actions[k], i, k, log, op, j); }
    }
  }

  /** Same processes, same results, same counters that the log knows of. */
  ghost predicate SameProgress(s: Schedule, s': Schedule) {
    && s'.cfg == s.cfg && |s'.actions| == |s.actions| && s'.invocations == s.invocations
    && forall j :: 0 <= j < |s.actions| ==>
         var a, b := s.actions[j], s'.actions[j];
         b.cfg == a.cfg && b.pid == a.pid && b.deferred == a.deferred && b.invocations == a.invocations
           && b.failures == a.failures
         && b.lastStatus == a.lastStatus
  }

  lemma SameProgressLinked(names: seq<string>, s: Schedule, s': Schedule, i: nat, log: seq<Op>)
    requires Linked(names, s, i, log) && SameProgress(s, s')
    ensures Linked(names, s', i, log)
  {
    forall j | 0 <= j < |s.actions| ensures ActionLinked(names, s'.actions[j], i, j, log) {
      assert ActionLinked(names, s.actions[j], i, j, log);
      assert DestsIn(names, s'.actions[j]) == DestsIn(names, s.actions[j]);
    }
    assert forall j :: 0 <= j < |s.actions| ==> Live(s'.actions[j]) == Live(s.actions[j]);
  }

  lemma InvokeLinked(names: seq<string>, s: Schedule, s': Schedule, i: nat, log: seq<Op>)
    requires Linked(names, s, i, log) && (s.cfg.mode == Sequential ==> !SomeLive(s))
    requires SameProgress(s, s'.(invocations := s.invocations)) && s'.invocations == s.invocations + 1
    requires RunOf(i, log).taken
    ensures Linked(names, s', i, log + [Invoked(i)])
    ensures s.cfg.mode == Sequential ==> RunOf(i, log + [Invoked(i)]).phase == RunPhase.Between(0)
  {
    var op := Invoked(i);
    RunSnoc(i, log, op);
    forall k | 0 <= k < |s.actions| ensures ActionLinked(names, s'.actions[k], i, k, log + [op]) {
      assert ActionLinked(names, s.actions[k], i, k, log);
      assert DestsIn(names, s'.actions[k]) == DestsIn(names, s.actions[k]);
      NeighbourUnmoved(names, s.actions[k], i, k, log, op, 0);
    }
    assert forall j :: 0 <= j < |s.actions| ==> Live(s'.actions[j]) == Live(s.actions[j]);
  }

  lemma NeutralLinked(names: seq<string>, s: Schedule, i: nat, log: seq<Op>, op: Op)
    requires Linked(names, s, i, log) && (op.Killed? || op.ScheduleMoved? || op.ScheduleCleaned?)
    ensures Linked(names, s, i, log + [op])
  {
    RunSnoc(i, log, op);
    forall k | 0 <= k < |s.actions| ensures ActionLinked(names, s.actions[k], i, k, log + [op]) {
      assert ActionLinked(names, s.actions[k], i, k, log);
      NeighbourUnmoved(names, s.actions[k], i, k, log, op, 0);
    }
  }

  // ------------------------------------------------------------------ the steps of one schedule

  ghost predicate Sound(names: seq<string>, st: State, i: nat) {
    && i < |st.schedules| && Linked(names, st.schedules[i], i, st.world.log)
  }

  /** A sound step of schedule i from st to st'. */
  ghost predicate Advances(names: seq<string>, st: State, st': State, i: nat) {
    Sound(names, st', i) && Extends(st.world.log, st'.world.log, i)
  }

  lemma AdvancesTrans(names: seq<string>, a: State, b: State, c: State, i: nat)
    requires Advances(names, a, b, i) && Advances(names, b, c, i)
    ensures Advances(names, a, c, i)
  {
    ExtendsTrans(a.world.log, b.world.log, c.world.log, i);
  }

  /** A change of fields that the log does not speak of. */
  lemma QuietStep(names: seq<string>, st: State, st': State, i: nat)
    requires Sound(names, st, i) && |st'.schedules| == |st.schedules| && st'.world.log == st.world.log
    requires SameProgress(st.schedules[i], st'.schedules[i])
    ensures Advances(names, st, st', i)
  {
    SameProgressLinked(names, st.schedules[i], st'.schedules[i], i, st.world.log);
  }

  lemma ActionExecSound(names: seq<string>, st: State, r: Outcome, i: nat, j: nat, now: nat)
    requires At(st, i, j) && ExecFacts(st, r, i, j, now) && Sound(names, st, i) && !st.schedules[i].actions[j].deferred
    requires st.schedules[i].cfg.mode == Sequential ==> RunOf(i, st.world.log).phase == RunPhase.Between(j)
    ensures Advances(names, st, r.st, i)
  {
    hide Linked;
    var s, s' := st.schedules[i], r.st.schedules[i];
    if r.rc == 1 {
      LaunchLinked(names, s, i, j, s'.actions[j].pid, now, st.world.log);
      assert s' == s.(actions := s.actions[j := Started(s.actions[j], s'.actions[j].pid, now)]);
    } else {
      QuietStep(names, st, r.st, i);
    }
  }

  lemma MarkSound(names: seq<string>, st: State, r: Outcome, i: nat, j: nat, now: nat)
    requires At(st, i, j) && ExecFacts(st, r, i, j, now) && Sound(names, st, i) && !st.schedules[i].actions[j].deferred
    requires st.schedules[i].cfg.mode == Sequential ==> RunOf(i, st.world.log).phase == RunPhase.Between(j)
    ensures Advances(names, st, MarkRunning(r, i), i)
  {
    ActionExecSound(names, st, r, i, j, now);
    QuietStep(names, r.st, MarkRunning(r, i), i);
    AdvancesTrans(names, st, r.st, MarkRunning(r, i), i);
  }

  lemma {:induction false} LaunchUpToSound(names: seq<string>, cfg: Config, st: State, i: nat, now: nat, n: nat)
    requires Starting(st, i) && st.schedules[i].cfg.mode == Parallel && n <= |st.schedules[i].actions|
    requires Sound(names, st, i)
    ensures Advances(names, st, LaunchUpTo(cfg, st, i, now, n), i)
  {
    hide LaunchAt, Linked, Extends;
    if n > 0 {
      LaunchUpToSound(names, cfg, st, i, now, n - 1);
      LaunchUpToKeeps(cfg, st, i, now, n - 1);
      var st1 := LaunchUpTo(cfg, st, i, now, n - 1);
      LaunchSound(names, cfg, st1, i, n - 1, now);
      AdvancesTrans(names, st, st1, LaunchAt(cfg, st1, i, n - 1, now), i);
    } else {
      QuietStep(names, st, st, i);
    }
  }

  /** One action of a parallel start. */
  lemma LaunchSound(names: seq<string>, cfg: Config, st: State, i: nat, j: nat, now: nat)
    requires Starting(st, i) && Sound(names, st, i) && At(st, i, j) && st.schedules[i].cfg.mode == Parallel
    ensures Advances(names, st, LaunchAt(cfg, st, i, j, now), i)
  {
    hide ActionExec, Linked, Advances;
    assert !st.schedules[i].actions[j].deferred;
    ActionExecFacts(cfg, st, i, j, now);
    MarkSound(names, st, ActionExec(cfg, st, i, j, now), i, j, now);
  }

  /** Workspaces of schedule i were cleaned, and nothing else happened. */
  ghost predicate Cleans(names: seq<string>, st: State, st': State, i: nat) {
    && Advances(names, st, st', i) && st'.schedules == st.schedules
    && RunOf(i, st'.world.log) == RunOf(i, st.world.log)
    && !SomeDeferred(st.schedules[i])
  }

  lemma CleanStep(names: seq<string>, st0: State, st: State, i: nat, j: nat)
    requires Cleans(names, st0, st, i) && At(st, i, j)
    ensures Cleans(names, st0, Log(st, ActionCleaned(i, j)), i)
  {
    hide Linked, RunOf;
    assert !st.schedules[i].actions[j].deferred;
    CleanLinked(names, st.schedules[i], i, j, st.world.log);
    RunSnoc(i, st.world.log, ActionCleaned(i, j));
  }

  lemma {:induction false} CleanUpToSound(names: seq<string>, st: State, i: nat, n: nat)
    requires i < |st.schedules| && n <= |st.schedules[i].actions| && Cleans(names, st, st, i)
    ensures Cleans(names, st, CleanUpTo(st, i, n), i)
  {
    hide Cleans;
    if n > 0 {
      CleanUpToSound(names, st, i, n - 1);
      CleanStep(names, st, CleanUpTo(st, i, n - 1), i, n - 1);
    }
  }

  lemma PrepareSound(names: seq<string>, st: State, i: nat, now: nat)
    requires i < |st.schedules| && ScheduleOk(st.schedules[i]) && st.schedules[i].state == Enabled
    requires Sound(names, st, i)
    requires RunOf(i, st.world.log).taken
    ensures var st' := CountInvocation(CleanUpTo(st, i, |st.schedules[i].actions|), i, now);
            && Advances(names, st, st', i)
            && (st.schedules[i].cfg.mode == Sequential ==> RunOf(i, st'.world.log).phase == RunPhase.Between(0))
    ensures Advances(names, st, CleanUpTo(st, i, |st.schedules[i].actions|), i)
  {
    var s := st.schedules[i];
    hide Linked, Extends, RunOf, CleanUpTo, ScheduleOk;
    IdleWhenEnabled(s);
    ExtendsRefl(st.world.log, i);
    CleanUpToSound(names, st, i, |s.actions|);
    var st1 := CleanUpTo(st, i, |s.actions|);
    var st2 := CountInvocation(st1, i, now);
    InvokeLinked(names, s, st2.schedules[i], i, st1.world.log);
    ExtendsInvoked(st1.world.log, i);
    AdvancesTrans(names, st, st1, st2, i);
  }

  lemma ExtendsRefl(log: seq<Op>, i: nat)
    ensures Extends(log, log, i)
  {
  }

  lemma ExtendsInvoked(log: seq<Op>, i: nat)
    ensures Extends(log, log + [Invoked(i)], i)
  {
  }

  lemma ScheduleExecSound(names: seq<string>, cfg: Config, st: State, i: nat, now: nat)
    requires i < |st.schedules| && PidsOk(st) && ScheduleOk(st.schedules[i]) && st.schedules[i].state == Enabled
    requires Sound(names, st, i)
    requires RunOf(i, st.world.log).taken
    ensures Advances(names, st, ScheduleExec(cfg, st, i, now), i)
  {
    hide Linked, Extends, CleanUpTo, LaunchUpTo, Advances;
    var s := st.schedules[i];
    PrepareSound(names, st, i, now);
    PrepareKeeps(st, i, now);
    var st1 := CleanUpTo(st, i, |s.actions|);
    var st2 := CountInvocation(st1, i, now);
    var st' := ScheduleExec(cfg, st, i, now);
    SoundStep(names, st, st1, i);
    SoundStep(names, st, st2, i);
    if s.cfg.name == "" {
      QuietStep(names, st, st, i);
    } else {
      match s.cfg.mode {
        case Sequential =>
          if s.actions != [] {
            FirstSound(names, cfg, st2, i, now);
            AdvancesTrans(names, st, st2, st', i);
          }
        case Parallel =>
          LaunchUpToSound(names, cfg, st2, i, now, |s.actions|);
          AdvancesTrans(names, st, st2, st', i);
        case Pipelined =>
          QuietStep(names, st1, st', i);
          AdvancesTrans(names, st, st1, st', i);
      }
    }
  }

  lemma SoundStep(names: seq<string>, st: State, st': State, i: nat)
    requires Advances(names, st, st', i)
    ensures Sound(names, st', i)
  {
  }

  /** The first action of a sequential run. */
  lemma FirstSound(names: seq<string>, cfg: Config, st: State, i: nat, now: nat)
    requires Starting(st, i) && Sound(names, st, i) && st.schedules[i].actions != []
    requires st.schedules[i].cfg.mode == Sequential ==> RunOf(i, st.world.log).phase == RunPhase.Between(0)
    ensures Advances(names, st, LaunchAt(cfg, st, i, 0, now), i)
  {
    hide ActionExec, Linked, Advances;
    assert !st.schedules[i].actions[0].deferred;
    ActionExecFacts(cfg, st, i, 0, now);
    MarkSound(names, st, ActionExec(cfg, st, i, 0, now), i, 0, now);
  }

  lemma PrepareKeeps(st: State, i: nat, now: nat)
    requires i < |st.schedules| && PidsOk(st) && ScheduleOk(st.schedules[i]) && st.schedules[i].state == Enabled
    ensures Starting(CountInvocation(CleanUpTo(st, i, |st.schedules[i].actions|), i, now), i)
  {
    hide CleanUpTo, ScheduleOk;
    var s := st.schedules[i];
    var st2 := CountInvocation(CleanUpTo(st, i, |s.actions|), i, now);
    IdleWhenEnabled(s);
    FieldsKeepOk(s, st2.schedules[i]);
    SamePids(st, st2);
    assert SomeDeferred(st2.schedules[i]) ==> SomeDeferred(s);
  }

  lemma TakeOverSound(names: seq<string>, st: State, e: Event, now: nat, i: nat)
    requires Sound(names, st, i)
    ensures Advances(names, st, TakeOver(st, e, now, i), i)
    ensures RunOf(i, TakeOver(st, e, now, i).world.log).taken
  {
    var s := st.schedules[i];
    var s0 := s.(cycleNumber := CycleNumber(e, now));
    SameProgressLinked(names, s, s0, i, st.world.log);
    NeutralLinked(names, s0, i, st.world.log, ScheduleMoved(i));
    RunSnoc(i, st.world.log, ScheduleMoved(i));
  }

  lemma BeginSound(names: seq<string>, cfg: Config, st: State, e: Event, now: nat, i: nat)
    requires i < |st.schedules| && PidsOk(st) && ScheduleOk(st.schedules[i]) && st.schedules[i].state == Enabled
    requires Sound(names, st, i)
    ensures Advances(names, st, Begin(cfg, st, e, now, i), i)
  {
    hide ScheduleExec, Linked, Extends;
    var st0 := TakeOver(st, e, now, i);
    TakeOverSound(names, st, e, now, i);
    FieldsKeepOk(st.schedules[i], st0.schedules[i]);
    SamePids(st, st0);
    ScheduleExecSound(names, cfg, st0, i, now);
    var st2 := ScheduleExec(cfg, st0, i, now);
    AdvancesTrans(names, st, st0, st2, i);
    var st3 := Begin(cfg, st, e, now, i);
    QuietStep(names, st2, st3, i);
    AdvancesTrans(names, st, st2, st3, i);
  }

  /** Signals were sent on behalf of schedule i, and nothing else happened. */
  ghost predicate Kills(names: seq<string>, st: State, st': State, i: nat) {
    st'.schedules == st.schedules && Sound(names, st', i) && OnlyKills(st.world.log, st'.world.log)
  }

  lemma KillStep(names: seq<string>, st0: State, st: State, i: nat, j: nat)
    requires Kills(names, st0, st, i) && At(st, i, j)
    ensures Kills(names, st0, KillAction(st, i, j), i)
  {
    var op := Killed(st.schedules[i].actions[j].pid);
    NeutralLinked(names, st.schedules[i], i, st.world.log, op);
    KillsTrans(st0.world.log, st.world.log, st.world.log + [op]);
  }

  lemma {:induction false} KillUpToSound(names: seq<string>, st: State, i: nat, n: nat)
    requires i < |st.schedules| && n <= |st.schedules[i].actions| && Kills(names, st, st, i)
    ensures Kills(names, st, KillUpTo(st, i, n), i)
  {
    hide Kills, KillAction;
    if n > 0 {
      KillUpToSound(names, st, i, n - 1);
      KillStep(names, st, KillUpTo(st, i, n - 1), i, n - 1);
    }
  }

  lemma ExecuteStartSound(names: seq<string>, cfg: Config, st: State, e: Event, now: nat, i: nat)
    requires i < |st.schedules| && PidsOk(st) && ScheduleOk(st.schedules[i]) && Sound(names, st, i)
    ensures Advances(names, st, ExecuteStart(cfg, st, e, now, i), i)
  {
    hide Begin, Linked, Advances;
    if st.schedules[i].state == Enabled && ExecuteStart(cfg, st, e, now, i) == Begin(cfg, st, e, now, i) {
      BeginSound(names, cfg, st, e, now, i);
    } else {
      QuietStep(names, st, ExecuteStart(cfg, st, e, now, i), i);
    }
  }

  lemma ExecuteOneSound(names: seq<string>, cfg: Config, st: State, e: Event, now: nat, i: nat)
    requires i < |st.schedules| && PidsOk(st) && ScheduleOk(st.schedules[i]) && Sound(names, st, i)
    ensures Advances(names, st, ExecuteOne(cfg, st, e, now, i), i)
  {
    ExecuteStartSound(names, cfg, st, e, now, i);
    var st1 := ExecuteStart(cfg, st, e, now, i);
    KillUpToSound(names, st1, i, |st1.schedules[i].actions|);
    AdvancesTrans(names, st, st1, KillUpTo(st1, i, |st1.schedules[i].actions|), i);
  }

  // ------------------------------------------------------------------ collecting a process and its results

  ghost predicate HandlingOp(op: Op, i: nat, j: nat) {
    (op.MetaEnded? || op.ActionMoved? || op.ActionCleaned?) && op.s == i && op.a == j
  }

  /** Only the results of action j are handled. */
  ghost predicate Handling(log: seq<Op>, log': seq<Op>, i: nat, j: nat) {
    |log| <= |log'| && log'[..|log|] == log && forall n :: |log| <= n < |log'| ==> HandlingOp(log'[n], i, j)
  }

  lemma HandlingTrans(a: seq<Op>, b: seq<Op>, c: seq<Op>, i: nat, j: nat)
    requires Handling(a, b, i, j) && Handling(b, c, i, j)
    ensures Handling(a, c, i, j)
  {
    assert c[..|a|] == c[..|b|][..|a|];
    forall n | |a| <= n < |c| ensures HandlingOp(c[n], i, j) { if n < |b| { assert c[n] == c[..|b|][n]; } }
  }

  lemma {:induction false} HandlingUnmoved(dests: seq<nat>, log: seq<Op>, log': seq<Op>, i: nat, j: nat, k: nat)
    requires Handling(log, log', i, j) && k != j
    ensures TrackOf(dests, i, k, log') == TrackOf(dests, i, k, log)
    ensures RunOf(i, log') == RunOf(i, log)
    decreases |log'|
  {
    if |log'| == |log| {
      assert log' == log;
    } else {
      var m := |log'| - 1;
      assert log'[..m][..|log|] == log;
      HandlingUnmoved(dests, log, log'[..m], i, j, k);
    }
  }

  /** Moves are recorded in the phase of a process that has ended. */
  ghost predicate Moves(t: Track, t': Track, more: seq<nat>) {
    t.phase.Ended? && t' == t.(phase := t.phase.(moved := t.phase.moved + more))
  }

  lemma MovesSnoc(dests: seq<nat>, i: nat, j: nat, t: Track, log: seq<Op>, more: seq<nat>, d: nat)
    requires Moves(t, TrackOf(dests, i, j, log), more)
    ensures Moves(t, TrackOf(dests, i, j, log + [ActionMoved(i, j, d)]), more + [d])
  {
    TrackSnoc(dests, i, j, log, ActionMoved(i, j, d));
    assert t.phase.moved + more + [d] == t.phase.moved + (more + [d]);
  }

  lemma OwnSnoc(dests: seq<nat>, i: nat, n: nat)
    requires 0 < n <= |dests|
    ensures Own(dests[..n], i) == Own(dests[..n - 1], i) + (if dests[n - 1] == i then [i] else [])
  {
    assert dests[..n][..n - 1] == dests[..n - 1];
  }

  lemma {:induction false} MoveOwnTrack(st: State, i: nat, j: nat, dests: seq<nat>, n: nat, D: seq<nat>)
    requires At(st, i, j) && n <= |dests| && TrackOf(D, i, j, st.world.log).phase.Ended?
    ensures var log' := MoveOwnUpTo(st, i, j, dests, n).world.log;
            && Handling(st.world.log, log', i, j)
            && Moves(TrackOf(D, i, j, st.world.log), TrackOf(D, i, j, log'), Own(dests[..n], i))
  {
    if n == 0 {
      assert Own(dests[..0], i) == [];
    } else {
      MoveOwnTrack(st, i, j, dests, n - 1, D);
      OwnSnoc(dests, i, n);
      var log1 := MoveOwnUpTo(st, i, j, dests, n - 1).world.log;
      if dests[n - 1] == i {
        MovesSnoc(D, i, j, TrackOf(D, i, j, st.world.log), log1, Own(dests[..n - 1], i), i);
        HandlingTrans(st.world.log, log1, log1 + [ActionMoved(i, j, i)], i, j);
      } else {
        assert Own(dests[..n], i) == Own(dests[..n - 1], i);
      }
    }
  }

  lemma {:induction false} MoveAllTrack(st: State, i: nat, j: nat, dests: seq<nat>, n: nat, D: seq<nat>)
    requires n <= |dests| && TrackOf(D, i, j, st.world.log).phase.Ended?
    ensures var log' := MoveAllUpTo(st, i, j, dests, n).world.log;
            && Handling(st.world.log, log', i, j)
            && Moves(TrackOf(D, i, j, st.world.log), TrackOf(D, i, j, log'), dests[..n])
  {
    hide TrackOf;
    if n > 0 {
      MoveAllTrack(st, i, j, dests, n - 1, D);
      var log1 := MoveAllUpTo(st, i, j, dests, n - 1).world.log;
      hide Handling, Moves;
      MovedOn(D, i, j, st.world.log, log1, dests[..n - 1], dests[n - 1]);
      assert dests[..n] == dests[..n - 1] + [dests[n - 1]];
    }
  }

  /** One more move. */
  lemma MovedOn(D: seq<nat>, i: nat, j: nat, log: seq<Op>, log1: seq<Op>, more: seq<nat>, d: nat)
    requires Handling(log, log1, i, j) && Moves(TrackOf(D, i, j, log), TrackOf(D, i, j, log1), more)
    ensures Handling(log, log1 + [ActionMoved(i, j, d)], i, j)
    ensures Moves(TrackOf(D, i, j, log), TrackOf(D, i, j, log1 + [ActionMoved(i, j, d)]), more + [d])
  {
    hide TrackOf;
    MovesSnoc(D, i, j, TrackOf(D, i, j, log), log1, more, d);
    HandlingTrans(log, log1, log1 + [ActionMoved(i, j, d)], i, j);
  }

  /** Only action j of schedule i and the log changed. */
  ghost predicate OnlyAction(st: State, st': State, i: nat, j: nat)
    requires At(st, i, j)
  {
    && |st'.schedules| == |st.schedules| && st'.schedules[i].cfg == st.schedules[i].cfg
    && |st'.schedules[i].actions| == |st.schedules[i].actions|
       && st'.schedules[i].invocations == st.schedules[i].invocations
    && forall k :: 0 <= k < |st.schedules[i].actions| && k != j ==>
       st'.schedules[i].actions[k] == st.schedules[i].actions[k]
  }

  /** Handling the results of action j: only its own link has to be established anew. */
  lemma HandledSound(names: seq<string>, st: State, st': State, i: nat, j: nat)
    requires At(st, i, j) && Sound(names, st, i) && Handling(st.world.log, st'.world.log, i, j)
    requires OnlyAction(st, st', i, j)
    requires Live(st'.schedules[i].actions[j]) == Live(st.schedules[i].actions[j])
    requires ActionLinked(names, st'.schedules[i].actions[j], i, j, st'.world.log)
    ensures Advances(names, st, st', i)
  {
    var s, s' := st.schedules[i], st'.schedules[i];
    HandlingUnmoved([], st.world.log, st'.world.log, i, j, j + 1);
    forall k | 0 <= k < |s.actions|
      ensures ActionLinked(names, s'.actions[k], i, k, st'.world.log) && Live(s'.actions[k]) == Live(s.actions[k])
    {
      if k != j {
        assert ActionLinked(names, s.actions[k], i, k, st.world.log);
        HandlingUnmoved(DestsIn(names, s.actions[k]), st.world.log, st'.world.log, i, j, k);
      }
    }
  }

  lemma DeliverTrack(st: State, i: nat, j: nat, D: seq<nat>)
    requires At(st, i, j) && TrackOf(D, i, j, st.world.log).phase.Ended? && st.schedules[i].actions[j].deferred
    ensures Handling(st.world.log, Deliver(st, i, j).world.log, i, j)
    ensures Moves(TrackOf(D, i, j, st.world.log), TrackOf(D, i, j, Deliver(st, i, j).world.log), DestsOf(st, i, j))
  {
    var dests := DestsOf(st, i, j);
    MoveAllTrack(st, i, j, dests, |dests|, D);
    assert dests[..|dests|] == dests;
  }

  /** Cleaning settles an action whose owed moves have been made. */
  lemma SettleTrack(names: seq<string>, a: Action, i: nat, j: nat, log: seq<Op>)
    requires var D := DestsIn(names, a); var t := TrackOf(D, i, j, log);
             && a.invocations == t.launches == t.completions + (if Live(a) then 1 else 0)
                && a.failures == t.failures <= t.completions
             && (t.completions > 0 ==> a.lastStatus == t.last) && (Live(a) ==> a.pid == t.pid)
             && if Live(a) then t.phase.AtWork?
                else t.phase.Idle? || (t.phase.Ended? && t.phase.moved == Owed(D, i, t.phase.status))
    requires !a.deferred
    ensures ActionLinked(names, a, i, j, log + [ActionCleaned(i, j)])
  {
    TrackSnoc(DestsIn(names, a), i, j, log, ActionCleaned(i, j));
  }

  /** The deferred moves, if there are any, and the cleaning that follows. */
  lemma FlushTrack(names: seq<string>, a: Action, i: nat, j: nat, log: seq<Op>, log1: seq<Op>)
    requires ActionLinked(names, a, i, j, log) && (a.deferred ==> !Live(a))
    requires var D := DestsIn(names, a);
             if a.deferred then Handling(log, log1, i, j) && Moves(TrackOf(D, i, j, log), TrackOf(D, i, j, log1), D)
               else log1 == log
    ensures Handling(log, log1 + [ActionCleaned(i, j)], i, j)
    ensures ActionLinked(names, a.(deferred := false), i, j, log1 + [ActionCleaned(i, j)])
  {
    var b := a.(deferred := false);
    assert DestsIn(names, b) == DestsIn(names, a);
    SettleTrack(names, b, i, j, log1);
    HandlingTrans(log, log1, log1 + [ActionCleaned(i, j)], i, j);
  }

  lemma FlushAtLog(st: State, i: nat, j: nat)
    requires At(st, i, j)
    ensures FlushAt(st, i, j).world.log == Deliver(st, i, j).world.log + [ActionCleaned(i, j)]
    ensures !st.schedules[i].actions[j].deferred ==> Deliver(st, i, j) == st
  {
  }

  lemma WaitingEnded(names: seq<string>, a: Action, i: nat, j: nat, log: seq<Op>)
    requires ActionLinked(names, a, i, j, log) && a.deferred && !Live(a)
    ensures TrackOf(DestsIn(names, a), i, j, log).phase.Ended?
  {
  }

  /** st' is st after the final handling of action j, log1 the log before the cleaning. */
  ghost predicate FlushedTo(st: State, st': State, log1: seq<Op>, i: nat, j: nat)
    requires At(st, i, j)
  {
    var a := st.schedules[i].actions[j];
    && st'.(world := st.world) == SetAction(st, i, j, a.(deferred := false))
    && st'.world.log == log1 + [ActionCleaned(i, j)]
    && (!a.deferred ==> log1 == st.world.log)
  }

  lemma FlushedSound(names: seq<string>, st: State, st': State, log1: seq<Op>, i: nat, j: nat)
    requires At(st, i, j) && Sound(names, st, i) && FlushedTo(st, st', log1, i, j)
    requires var a := st.schedules[i].actions[j]; var D := DestsIn(names, a);
             && (a.deferred ==> !Live(a))
             && (a.deferred ==> Handling(st.world.log, log1, i, j))
             && (a.deferred ==> Moves(TrackOf(D, i, j, st.world.log), TrackOf(D, i, j, log1), D))
    ensures Advances(names, st, st', i)
  {
    hide Handling, Moves, TrackOf, RunOf, ActionLinked, Dests;
    var a := st.schedules[i].actions[j];
    assert ActionLinked(names, a, i, j, st.world.log);
    FlushTrack(names, a, i, j, st.world.log, log1);
    HandledSound(names, st, st', i, j);
  }

  lemma NamesKept(st: State, st': State, i: nat)
    requires i < |st.schedules| && OnlyAt(st, st', i)
    ensures Names(st'.schedules) == Names(st.schedules)
  {
  }

  /** A schedule in the middle of its final round: no one is at work where there is something to clean. */
  ghost predicate Flushing(names: seq<string>, st0: State, st: State, i: nat) {
    && Advances(names, st0, st, i) && names == Names(st.schedules)
    && forall k :: 0 <= k < |st.schedules[i].actions| && st.schedules[i].actions[k].deferred ==>
       !Live(st.schedules[i].actions[k])
  }

  lemma FlushStep(names: seq<string>, st0: State, st: State, i: nat, j: nat)
    requires Flushing(names, st0, st, i) && At(st, i, j)
    ensures Flushing(names, st0, FlushAt(st, i, j), i)
  {
    hide FlushAt, Deliver, Handling, Moves, TrackOf, RunOf, ActionLinked, Dests;
    var st', a := FlushAt(st, i, j), st.schedules[i].actions[j];
    FlushAtFacts(st, i, j);
    FlushAtLog(st, i, j);
    assert DestsIn(names, a) == DestsOf(st, i, j);
    assert ActionLinked(names, a, i, j, st.world.log);
    if a.deferred {
      WaitingEnded(names, a, i, j, st.world.log);
      DeliverTrack(st, i, j, DestsIn(names, a));
    }
    FlushedSound(names, st, st', Deliver(st, i, j).world.log, i, j);
    AdvancesTrans(names, st0, st, st', i);
    NamesKept(st, st', i);
  }

  lemma {:induction false} FlushUpToSound(names: seq<string>, st: State, i: nat, n: nat)
    requires i < |st.schedules| && n <= |st.schedules[i].actions| && Flushing(names, st, st, i)
    ensures Flushing(names, st, FlushUpTo(st, i, n), i)
  {
    hide FlushAt, Flushing;
    if n > 0 {
      FlushUpToSound(names, st, i, n - 1);
      FlushStep(names, st, FlushUpTo(st, i, n - 1), i, n - 1);
    }
  }

  /** The account of a finished run. */
  lemma AccountSound(names: seq<string>, st: State, i: nat, succeeded: bool)
    requires Sound(names, st, i)
    ensures Advances(names, st, AccountRun(st, i, succeeded), i)
  {
    if succeeded {
      NeutralLinked(names, st.schedules[i], i, st.world.log, ScheduleCleaned(i));
    } else {
      QuietStep(names, st, AccountRun(st, i, succeeded), i);
    }
  }

  lemma SettleSound(names: seq<string>, st: State, i: nat)
    requires Sound(names, st, i) && names == Names(st.schedules) && Core(st.schedules[i])
    requires !StillRunning(st.schedules[i])
    ensures var st1 := SetSchedule(st, i, Settle(st.schedules[i]));
            Advances(names, st, st1, i) && Flushing(names, st1, st1, i)
  {
    hide Linked;
    var s := st.schedules[i];
    forall k | 0 <= k < |s.actions| && s.actions[k].deferred ensures !Live(s.actions[k]) {
      assert ActionCore(s, s.actions[k]) && s.actions[k] in s.actions;
    }
    var st1 := SetSchedule(st, i, Settle(s));
    QuietStep(names, st, st1, i);
    NamesKept(st, st1, i);
  }

  lemma ConcludeSound(names: seq<string>, st: State, i: nat)
    requires Sound(names, st, i) && names == Names(st.schedules) && Core(st.schedules[i])
    requires !StillRunning(st.schedules[i])
    ensures Advances(names, st, Conclude(st, i), i)
  {
    hide Linked, AccountRun, FlushUpTo, SomeSuccess;
    var s := st.schedules[i];
    SettleSound(names, st, i);
    var st1 := SetSchedule(st, i, Settle(s));
    FlushUpToSound(names, st1, i, |s.actions|);
    var st2 := FlushUpTo(st1, i, |s.actions|);
    AdvancesTrans(names, st, st1, st2, i);
    AccountSound(names, st2, i, SomeSuccess(s));
    AdvancesTrans(names, st, st2, Conclude(st, i), i);
  }

  lemma GatherTrack(st: State, i: nat, j: nat, status: int, now: nat, D: seq<nat>)
    requires At(st, i, j) && TrackOf(D, i, j, st.world.log).phase.AtWork?
    ensures var log0, log1 := st.world.log + [Reaped(i, j, status)], Gather(st, i, j, status, now).world.log;
            && Handling(log0, log1, i, j)
            && Moves(TrackOf(D, i, j, log0), TrackOf(D, i, j, log1),
                     if status == 0 then Own(DestsOf(st, i, j), i) else [])
  {
    var dests := DestsOf(st, i, j);
    var log0 := st.world.log + [Reaped(i, j, status)];
    TrackSnoc(D, i, j, st.world.log, Reaped(i, j, status));
    TrackSnoc(D, i, j, log0, MetaEnded(i, j));
    if status == 0 {
      var st1 := SetAction(st, i, j, Completed(st.schedules[i].actions[j], status, now));
      var st2 := Log(Log(st1, Reaped(i, j, status)), MetaEnded(i, j));
      MoveOwnTrack(st2, i, j, dests, |dests|, D);
      assert dests[..|dests|] == dests;
      HandlingTrans(log0, st2.world.log, Gather(st, i, j, status, now).world.log, i, j);
    }
  }

  /** t1 is t after the process has ended and these moves have been made. */
  ghost predicate AfterDeath(t: Track, t1: Track, status: int, moved: seq<nat>) {
    t1 == Track(Ended(status, moved), t.launches, t.completions + 1, t.failures + (if status != 0 then 1 else 0),
      status, t.pid)
  }

  lemma GatherAfterDeath(st: State, i: nat, j: nat, status: int, now: nat, D: seq<nat>)
    requires At(st, i, j) && TrackOf(D, i, j, st.world.log).phase.AtWork? && D == DestsOf(st, i, j)
    ensures var log1 := Gather(st, i, j, status, now).world.log;
            && Handling(st.world.log + [Reaped(i, j, status)], log1, i, j)
            && AfterDeath(TrackOf(D, i, j, st.world.log), TrackOf(D, i, j, log1), status,
                          if status == 0 then Own(D, i) else [])
  {
    hide Gather, Handling, Dests, Own;
    TrackSnoc(D, i, j, st.world.log, Reaped(i, j, status));
    hide TrackOf;
    GatherTrack(st, i, j, status, now, D);
    assert [] + Own(D, i) == Own(D, i);
  }

  lemma CollectedLinked(names: seq<string>, a: Action, b: Action, i: nat, j: nat, status: int, log: seq<Op>,
                        log1: seq<Op>)
    requires ActionLinked(names, a, i, j, log) && Live(a) && b.cfg == a.cfg && b.pid == 0
    requires b.invocations == a.invocations && b.failures == a.failures + (if status != 0 then 1 else 0)
    requires b.lastStatus == status
    requires var D := DestsIn(names, a);
             && b.deferred == (status == 0 && SomeOther(D, i))
             && AfterDeath(TrackOf(D, i, j, log), TrackOf(D, i, j, log1), status, if status == 0 then Own(D, i) else [])
    ensures ActionLinked(names, b, i, j, if b.deferred then log1 else log1 + [ActionCleaned(i, j)])
  {
    hide TrackOf, Dests, Own, SomeOther;
    var D := DestsIn(names, a);
    assert DestsIn(names, b) == D;
    if !b.deferred {
      assert Own(D, i) + [] == Own(D, i);
      SettleTrack(names, b, i, j, log1);
    }
  }

  /** The log and the tracks after the process of action j has been collected. */
  lemma CollectTrack(names: seq<string>, st: State, i: nat, j: nat, status: int, now: nat)
    requires At(st, i, j) && ActionLinked(names, st.schedules[i].actions[j], i, j, st.world.log)
    requires names == Names(st.schedules) && Live(st.schedules[i].actions[j]) && !st.schedules[i].actions[j].deferred
    ensures var st' := Collect(st, i, j, status, now);
            && Handling(st.world.log + [Reaped(i, j, status)], st'.world.log, i, j)
            && ActionLinked(names, Collected(st, i, j, status, now), i, j, st'.world.log)
  {
    hide Gather, Collect, Handling, TrackOf, Dests, Own, AfterDeath;
    var a := st.schedules[i].actions[j];
    assert DestsIn(names, a) == DestsOf(st, i, j);
    var log1 := Gather(st, i, j, status, now).world.log;
    GatherAfterDeath(st, i, j, status, now, DestsIn(names, a));
    CollectLog(st, i, j, status, now);
    CollectedLinked(names, a, Collected(st, i, j, status, now), i, j, status, st.world.log, log1);
    CleanedAfter(st.world.log + [Reaped(i, j, status)], log1, i, j);
  }

  lemma CleanedAfter(log: seq<Op>, log1: seq<Op>, i: nat, j: nat)
    requires Handling(log, log1, i, j)
    ensures Handling(log, log1 + [ActionCleaned(i, j)], i, j)
  {
    HandlingTrans(log, log1, log1 + [ActionCleaned(i, j)], i, j);
  }

  lemma CollectLog(st: State, i: nat, j: nat, status: int, now: nat)
    requires At(st, i, j)
    ensures var log1 := Gather(st, i, j, status, now).world.log;
            Collect(st, i, j, status, now).world.log ==
            if Collected(st, i, j, status, now).deferred then log1 else log1 + [ActionCleaned(i, j)]
  {
    CollectFacts(st, i, j, status, now);
    hide Gather, Dests;
  }

  lemma CollectSound(names: seq<string>, st: State, i: nat, j: nat, status: int, now: nat)
    requires At(st, i, j) && Sound(names, st, i) && names == Names(st.schedules)
    requires Live(st.schedules[i].actions[j]) && !st.schedules[i].actions[j].deferred
    requires st.schedules[i].cfg.mode == Sequential ==> OnlyLive(st.schedules[i], j)
    ensures var st' := Collect(st, i, j, status, now);
            && Advances(names, st, st', i)
            && (st.schedules[i].cfg.mode == Sequential ==> RunOf(i, st'.world.log).phase == RunPhase.Between(j + 1))
  {
    var st' := Collect(st, i, j, status, now);
    var s, s', op := st.schedules[i], st'.schedules[i], Reaped(i, j, status);
    var log0 := st.world.log + [op];
    CollectFacts(st, i, j, status, now);
    assert ActionLinked(names, s.actions[j], i, j, st.world.log);
    CollectTrack(names, st, i, j, status, now);
    RunSnoc(i, st.world.log, op);
    HandlingUnmoved([], log0, st'.world.log, i, j, j + 1);
    forall k | 0 <= k < |s.actions| ensures ActionLinked(names, s'.actions[k], i, k, st'.world.log) {
      if k != j {
        assert ActionLinked(names, s.actions[k], i, k, st.world.log);
        NeighbourUnmoved(names, s.actions[k], i, k, st.world.log, op, j);
        HandlingUnmoved(DestsIn(names, s.actions[k]), log0, st'.world.log, i, j, k);
      }
    }
    HandlingExtends(st.world.log, log0, st'.world.log, i, j);
  }

  lemma HandlingExtends(log: seq<Op>, log0: seq<Op>, log': seq<Op>, i: nat, j: nat)
    requires Extends(log, log0, i) && Handling(log0, log', i, j)
    ensures Extends(log, log', i)
  {
    ExtendsTrans(log, log0, log', i);
  }

  lemma ContinueSound(names: seq<string>, cfg: Config, st: State, i: nat, j: nat, now: nat)
    requires At(st, i, j) && Sound(names, st, i) && Settled(st.schedules[i], j)
    requires st.schedules[i].cfg.mode == Sequential ==> RunOf(i, st.world.log).phase == RunPhase.Between(j + 1)
    ensures Advances(names, st, Continue(cfg, st, i, j, now), i)
  {
    if j + 1 < |st.schedules[i].actions| && st.schedules[i].cfg.mode == Sequential {
      ActionExecFacts(cfg, st, i, j + 1, now);
      ActionExecSound(names, st, ActionExec(cfg, st, i, j + 1, now), i, j + 1, now);
    }
  }

  lemma ReapAtSound(names: seq<string>, cfg: Config, st0: State, st: State, i: nat, j: nat, status: int, now: nat)
    requires Inv(st0) && At(st0, i, j) && Live(st0.schedules[i].actions[j]) && Sound(names, st0, i)
    requires names == Names(st0.schedules)
    requires st == st0.(world := st0.world.(children := st0.world.children - {PidAt(st0, i, j)}))
    ensures Advances(names, st, ReapAt(cfg, st, i, j, status, now), i)
  {
    assert ScheduleOk(st0.schedules[i]) && ActionCore(st0.schedules[i], st0.schedules[i].actions[j]);
    CollectKeeps(st0, st, i, j, status, now);
    CollectSound(names, st, i, j, status, now);
    var st1 := Collect(st, i, j, status, now);
    ContinueKeeps(cfg, st1, i, j, now);
    ContinueSound(names, cfg, st1, i, j, now);
    var st2 := Continue(cfg, st1, i, j, now);
    AdvancesTrans(names, st, st1, st2, i);
    if !StillRunning(st2.schedules[i]) {
      NamesKept(st0, st1, i);
      NamesKept(st1, st2, i);
      ConcludeSound(names, st2, i);
      AdvancesTrans(names, st, st2, Conclude(st2, i), i);
    }
  }

  // ------------------------------------------------------------------ all schedules, all runs

  ghost predicate AllSound(names: seq<string>, st: State) {
    names == Names(st.schedules) && forall i :: 0 <= i < |st.schedules| ==> Sound(names, st, i)
  }

  ghost predicate SameConfig(st: State, st': State) {
    && |st'.supps| == |st.supps| && (forall k :: 0 <= k < |st.supps| ==> st'.supps[k].cfg == st.supps[k].cfg)
    && |st'.schedules| == |st.schedules|
    && (forall i :: 0 <= i < |st.schedules| ==>
          st'.schedules[i].cfg == st.schedules[i].cfg && |st'.schedules[i].actions| == |st.schedules[i].actions|)
    && (forall i: nat, j: nat :: At(st, i, j) ==> st'.schedules[i].actions[j].cfg == st.schedules[i].actions[j].cfg)
  }

  lemma OnlyAtSound(names: seq<string>, st: State, st': State, i: nat)
    requires AllSound(names, st) && i < |st.schedules| && OnlyAt(st, st', i) && Advances(names, st, st', i)
    ensures AllSound(names, st')
  {
    NamesKept(st, st', i);
    forall k | 0 <= k < |st.schedules| ensures Sound(names, st', k) {
      assert Sound(names, st, k);
      if k != i { LinkedElsewhere(names, st.schedules[k], k, st.world.log, st'.world.log, i); }
    }
  }

  /** The callback of an event has come from st0 to st. */
  ghost predicate Executing(names: seq<string>, st0: State, st: State) {
    Inv(st) && AllSound(names, st) && SameConfig(st0, st)
  }

  lemma OnlyAtConfig(st0: State, st: State, st': State, i: nat)
    requires SameConfig(st0, st) && i < |st.schedules| && OnlyAt(st, st', i)
    ensures SameConfig(st0, st')
  {
    forall k: nat, j: nat | At(st0, k, j)
      ensures st'.schedules[k].actions[j].cfg == st0.schedules[k].actions[j].cfg
    {
      assert At(st, k, j);
    }
  }

  lemma ExecuteStep(names: seq<string>, cfg: Config, st0: State, st: State, e: Event, now: nat, i: nat)
    requires Executing(names, st0, st) && i < |st.schedules|
    ensures Executing(names, st0, ExecuteOne(cfg, st, e, now, i))
  {
    ExecuteOneKeeps(cfg, st, e, now, i);
    assert Sound(names, st, i);
    ExecuteOneSound(names, cfg, st, e, now, i);
    OnlyAtSound(names, st, ExecuteOne(cfg, st, e, now, i), i);
    OnlyAtConfig(st0, st, ExecuteOne(cfg, st, e, now, i), i);
  }

  lemma {:induction false} ExecuteCbSound(names: seq<string>, cfg: Config, st: State, e: Event, now: nat, n: nat)
    requires Executing(names, st, st) && n <= |st.schedules|
    ensures Executing(names, st, ExecuteCb(cfg, st, e, now, n))
  {
    hide ExecuteOne, Executing;
    if n > 0 {
      ExecuteCbSound(names, cfg, st, e, now, n - 1);
      ExecuteStep(names, cfg, st, ExecuteCb(cfg, st, e, now, n - 1), e, now, n - 1);
    }
  }

  lemma {:induction false} SuppressActionsKills(cfg: Config, st: State, sup: SuppCfg, i: nat, n: nat)
    requires i < |st.schedules| && n <= |st.schedules[i].actions|
    ensures OnlyKills(st.world.log, SuppressActions(cfg, st, sup, i, n).world.log)
  {
    if n > 0 {
      SuppressActionsKills(cfg, st, sup, i, n - 1);
      var st1 := SuppressActions(cfg, st, sup, i, n - 1);
      assert OnlyKills(st1.world.log, SuppressAt(cfg, st1, sup, i, n - 1).world.log);
      KillsTrans(st.world.log, st1.world.log, SuppressAt(cfg, st1, sup, i, n - 1).world.log);
    }
  }

  lemma {:induction false} SuppressUpToKills(cfg: Config, st: State, sup: SuppCfg, n: nat)
    requires n <= |st.schedules|
    ensures OnlyKills(st.world.log, SuppressUpTo(cfg, st, sup, n).world.log)
  {
    if n > 0 {
      SuppressUpToKills(cfg, st, sup, n - 1);
      var st1 := SuppressUpTo(cfg, st, sup, n - 1);
      var s := st1.schedules[n - 1];
      SuppressActionsKills(cfg, SetSchedule(st1, n - 1, SuppressSchedule(cfg, s, sup)), sup, n - 1, |s.actions|);
      KillsTrans(st.world.log, st1.world.log, SuppressOne(cfg, st1, sup, n - 1).world.log);
    }
  }

  /** A suppression starts or ends: the log only gains signals, and progress is unchanged. */
  ghost predicate Hushes(st: State, st': State) {
    && OnlyKills(st.world.log, st'.world.log) && SameConfig(st, st')
    && forall i :: 0 <= i < |st.schedules| ==> SameProgress(st.schedules[i], st'.schedules[i])
  }

  lemma HushesTrans(a: State, b: State, c: State)
    requires Hushes(a, b) && Hushes(b, c)
    ensures Hushes(a, c)
  {
    KillsTrans(a.world.log, b.world.log, c.world.log);
    forall i | 0 <= i < |a.schedules| ensures SameProgress(a.schedules[i], c.schedules[i]) {
      assert SameProgress(a.schedules[i], b.schedules[i]) && SameProgress(b.schedules[i], c.schedules[i]);
    }
    forall i: nat, j: nat | At(a, i, j)
      ensures c.schedules[i].actions[j].cfg == a.schedules[i].actions[j].cfg
    {
      assert At(b, i, j);
    }
  }

  lemma HushesSound(names: seq<string>, st: State, st': State)
    requires AllSound(names, st) && Hushes(st, st')
    ensures AllSound(names, st')
  {
    forall i | 0 <= i < |st.schedules| ensures Sound(names, st', i) {
      assert Sound(names, st, i);
      LinkedElsewhere(names, st.schedules[i], i, st.world.log, st'.world.log, i);
      SameProgressLinked(names, st.schedules[i], st'.schedules[i], i, st'.world.log);
    }
  }

  lemma SuppressionStartHushes(cfg: Config, st: State, k: nat)
    requires k < |st.supps|
    ensures Hushes(st, SuppressionStart(cfg, st, k))
  {
    var sup := st.supps[k].cfg;
    var st' := SuppressionStart(cfg, st, k);
    if st' != st {
      SuppressUpToFacts(cfg, SetSupp(st, k, SuppActive), sup, |st.schedules|);
      SuppressUpToKills(cfg, SetSupp(st, k, SuppActive), sup, |st.schedules|);
      forall i | 0 <= i < |st.schedules| ensures SameProgress(st.schedules[i], st'.schedules[i]) {
        assert Suppressing(cfg, sup, st.schedules[i], st'.schedules[i]);
      }
      forall i: nat, j: nat | At(st, i, j) ensures st'.schedules[i].actions[j].cfg == st.schedules[i].actions[j].cfg {
        assert SameProgress(st.schedules[i], st'.schedules[i]);
      }
    }
  }

  lemma SuppressionEndHushes(cfg: Config, st: State, k: nat)
    requires k < |st.supps|
    ensures Hushes(st, SuppressionEnd(cfg, st, k))
  {
    var sup := st.supps[k].cfg;
    var st' := SuppressionEnd(cfg, st, k);
    if st' != st {
      ReleaseUpToFacts(cfg, SetSupp(st, k, SuppEnabled), sup, |st.schedules|);
      forall i | 0 <= i < |st.schedules| ensures SameProgress(st.schedules[i], st'.schedules[i]) {
        assert Releasing(cfg, sup, st.schedules[i], st'.schedules[i]);
      }
      forall i: nat, j: nat | At(st, i, j) ensures st'.schedules[i].actions[j].cfg == st.schedules[i].actions[j].cfg {
        assert SameProgress(st.schedules[i], st'.schedules[i]);
      }
    }
  }

  lemma SuppressCbOneHushes(cfg: Config, st: State, e: Event, k: nat)
    requires k < |st.supps|
    ensures Hushes(st, SuppressCbOne(cfg, st, e, k))
  {
    SuppressionStartHushes(cfg, st, k);
    var st1 := SuppressCbStart(cfg, st, e, k);
    SuppressionEndHushes(cfg, st1, k);
    if SuppressCbOne(cfg, st, e, k) == SuppressCbEnd(cfg, st1, e, k) {
      HushesTrans(st, st1, SuppressCbEnd(cfg, st1, e, k));
    }
  }

  lemma HushesRefl(st: State)
    ensures Hushes(st, st)
  {
  }

  lemma {:induction false} SuppressCbHushes(cfg: Config, st: State, e: Event, n: nat)
    requires n <= |st.supps|
    ensures Hushes(st, SuppressCb(cfg, st, e, n))
  {
    hide SuppressCbOne;
    if n == 0 {
      HushesRefl(st);
    } else {
      hide Hushes;
      SuppressCbHushes(cfg, st, e, n - 1);
      var st1 := SuppressCb(cfg, st, e, n - 1);
      SuppressCbOneHushes(cfg, st1, e, n - 1);
      HushesTrans(st, st1, SuppressCbOne(cfg, st1, e, n - 1));
    }
  }

  lemma FireSound(names: seq<string>, cfg: Config, st: State, e: Event, now: nat)
    requires Inv(st) && AllSound(names, st)
    ensures AllSound(names, Step(cfg, st, Fire(e, now))) && SameConfig(st, Step(cfg, st, Fire(e, now)))
  {
    var st1 := SuppressCb(cfg, st, e, |st.supps|);
    SuppressCbHushes(cfg, st, e, |st.supps|);
    HushesSound(names, st, st1);
    SuppressCbCalm(cfg, st, e, |st.supps|);
    AllCalmKeeps(st, st1);
    ExecuteCbSound(names, cfg, st1, e, now, |st1.schedules|);
    SameConfigTrans(st, st1, ExecuteCb(cfg, st1, e, now, |st1.schedules|));
  }

  lemma SameConfigTrans(a: State, b: State, c: State)
    requires SameConfig(a, b) && SameConfig(b, c)
    ensures SameConfig(a, c)
  {
    forall i: nat, j: nat | At(a, i, j)
      ensures c.schedules[i].actions[j].cfg == a.schedules[i].actions[j].cfg
    {
      assert At(b, i, j);
    }
  }

  lemma DeathSound(names: seq<string>, cfg: Config, st: State, pid: int, status: WaitStatus, now: nat)
    requires Inv(st) && AllSound(names, st)
    ensures AllSound(names, Reap(cfg, st, pid, status, now)) && SameConfig(st, Reap(cfg, st, pid, status, now))
  {
    if pid > 0 && pid in st.world.children {
      var st0 := st.(world := st.world.(children := st.world.children - {pid}));
      var at := Locate(st, pid);
      if at.Some? {
        var (i, j) := at.value;
        assert Sound(names, st, i);
        ReapAtSound(names, cfg, st, st0, i, j, StatusOf(status), now);
        ReapAtElsewhere(cfg, st, st0, i, j, StatusOf(status), now);
        var st' := ReapAt(cfg, st0, i, j, StatusOf(status), now);
        OnlyAtSound(names, st, st', i);
        OnlyAtConfig(st, st, st', i);
      } else {
        forall k | 0 <= k < |st.schedules| ensures Sound(names, st0, k) { assert Sound(names, st, k); }
      }
    }
  }

  lemma InitialSound(st: State)
    requires Initial(st)
    ensures AllSound(Names(st.schedules), st)
  {
    forall i | 0 <= i < |st.schedules| ensures Sound(Names(st.schedules), st, i) {
      assert InitialSchedule(st.schedules[i]);
      forall j | 0 <= j < |st.schedules[i].actions| ensures InitialAction(st.schedules[i].actions[j]) {}
    }
  }

  /** On every reachable log the automata agree with the fields. */
  lemma {:induction false} ReachableSound(cfg: Config, st: State, xs: seq<Input>)
    requires Initial(st)
    ensures AllSound(Names(st.schedules), Run(cfg, st, xs)) && SameConfig(st, Run(cfg, st, xs))
  {
    var names := Names(st.schedules);
    if xs == [] {
      InitialSound(st);
    } else {
      var st1, x := Run(cfg, st, xs[..|xs| - 1]), xs[|xs| - 1];
      ReachableSound(cfg, st, xs[..|xs| - 1]);
      Reachable(cfg, st, xs[..|xs| - 1]);
      match x {
        case Fire(e, now) => FireSound(names, cfg, st1, e, now);
        case Death(pid, status, now) => DeathSound(names, cfg, st1, pid, status, now);
      }
      SameConfigTrans(st, st1, Run(cfg, st, xs));
    }
  }

  /** The counters and the automaton of an action agree at the end of every run. */
  lemma {:induction false} ActionTracked(cfg: Config, st: State, xs: seq<Input>, i: nat, j: nat)
    requires Initial(st) && At(st, i, j)
    ensures At(Run(cfg, st, xs), i, j)
    ensures var a := Run(cfg, st, xs).schedules[i].actions[j];
            var t := TrackOf(DestsOf(st, i, j), i, j, Run(cfg, st, xs).world.log);
            && a.invocations == t.launches == t.completions + (if a.pid != 0 then 1 else 0)
            && a.failures == t.failures <= t.completions && (t.completions > 0 ==> a.lastStatus == t.last)
            && (a.pid != 0 ==> a.pid == t.pid)
            && PhaseMatches(a, DestsOf(st, i, j), i, t.phase)
  {
    var st' := Run(cfg, st, xs);
    ReachableSound(cfg, st, xs);
    assert Sound(Names(st.schedules), st', i) && At(st', i, j);
    assert ActionLinked(Names(st.schedules), st'.schedules[i].actions[j], i, j, st'.world.log);
    assert DestsIn(Names(st.schedules), st'.schedules[i].actions[j]) == DestsOf(st, i, j);
  }
}

/**
 How a sequential schedule goes on: exactly when the death of one action starts the next one, and
 that a run which nothing stops comes to the end of its list.
 */
module Succession {
  import opened Common
  import opened Model
  import opened Invariants
  import opened Isolation
  import opened Accounting

  // ------------------------------------------------------------------ when an action starts

  /** An action that is enabled, idle and permitted, with arguments that fit. */
  ghost predicate Ready(cfg: Config, a: Action) {
    && a.cfg.name != "" && a.cfg.workspace && (a.state == ActEnabled || a.state == ActRunning) && !Live(a)
    && Permitted(cfg, a.cfg) && ArgsFit(cfg, a.cfg)
  }

  /** action_exec comes to fork exactly for an action that is ready. */
  lemma ReadySpawns(cfg: Config, st: State, i: nat, j: nat, now: nat)
    requires At(st, i, j)
    ensures var r := ActionExec(cfg, st, i, j, now);
            if Ready(cfg, st.schedules[i].actions[j]) then r == Spawn(st, i, j, now)
            else r.rc != 1 && r.st.world == st.world
  {
    hide Spawn;
  }

  /** fork will succeed n times. */
  ghost predicate ForksWork(w: World, n: nat) {
    && n <= |w.forks|
    && (forall k :: 0 <= k < n ==> w.forks[k] > 0 && w.forks[k] !in w.children)
    && (forall k, l :: 0 <= k < l < n ==> w.forks[k] != w.forks[l])
  }

  // ------------------------------------------------------------------ one death

  /** The world once the child has been waited for. */
  function Waited(w: World, pid: int): World { w.(children := w.children - {pid}) }

  /** The schedule is sequential and was not told to stop, and the action after j can be started. */
  ghost predicate GoesOn(cfg: Config, s: Schedule, j: nat, w: World) {
    && s.cfg.mode == Sequential && !s.stop && j + 1 < |s.actions|
    && Ready(cfg, s.actions[j + 1]) && ForkPid(w) != 0
  }

  ghost predicate Launching(log: seq<Op>, log': seq<Op>) {
    exists k :: |log| <= k < |log'| && log'[k].Launched?
  }

  lemma TidyLaunchesNone(log: seq<Op>, log': seq<Op>, outward: Option<nat>)
    requires Tidy(log, log', outward, None)
    ensures log <= log' && !Launching(log, log')
  {
  }

  lemma LaunchingTrans(a: seq<Op>, b: seq<Op>, c: seq<Op>)
    requires a <= b <= c
    ensures Launching(a, c) <==> Launching(a, b) || Launching(b, c)
  {
    if k :| |a| <= k < |b| && b[k].Launched? { assert c[k].Launched?; }
    if k :| |a| <= k < |c| && c[k].Launched? {
      if k < |b| { assert b[k].Launched?; }
    }
  }

  lemma ConcludeLaunchesNone(st: State, i: nat)
    requires i < |st.schedules|
    ensures st.world.log <= Conclude(st, i).world.log && !Launching(st.world.log, Conclude(st, i).world.log)
  {
    hide FlushUpTo, SomeSuccess, Tidy;
    var s := st.schedules[i];
    var st1 := SetSchedule(st, i, Settle(s));
    FlushUpToTidy(st1, i, |s.actions|);
    var log1, log2 := FlushUpTo(st1, i, |s.actions|).world.log, Conclude(st, i).world.log;
    TidyLaunchesNone(st.world.log, log1, Some(i));
    LaunchingTrans(st.world.log, log1, log2);
  }

  /** What starts the successor, in the state between the collection of j and the conclusion. */
  lemma ContinueExactly(cfg: Config, st: State, i: nat, j: nat, now: nat)
    requires At(st, i, j) && (st.schedules[i].cfg.mode == Sequential ==> Busy(st.schedules[i]))
    ensures var s, st' := st.schedules[i], Continue(cfg, st, i, j, now);
            if GoesOn(cfg, s, j, st.world) then st' == Spawn(st, i, j + 1, now).st else st'.world.log == st.world.log
  {
    hide Ready, ActionExec;
    if j + 1 < |st.schedules[i].actions| { ReadySpawns(cfg, st, i, j + 1, now); }
  }

  /** A started successor keeps the schedule from being concluded. */
  lemma SpawnedRuns(st: State, i: nat, j: nat, now: nat)
    requires At(st, i, j) && ForkPid(st.world) != 0
    ensures var st' := Spawn(st, i, j, now).st;
            && |st'.schedules| == |st.schedules| && StillRunning(st'.schedules[i])
            && st'.world.log == st.world.log + [Launched(i, j, ForkPid(st.world))]
  {
    var s' := Spawn(st, i, j, now).st.schedules[i];
    assert s'.actions[j] in s'.actions;
  }

  lemma ReapAtExactly(cfg: Config, st0: State, st: State, i: nat, j: nat, status: int, now: nat)
    requires Inv(st0) && At(st0, i, j) && Live(st0.schedules[i].actions[j])
    requires st == st0.(world := Waited(st0.world, PidAt(st0, i, j)))
    ensures var s, st' := st.schedules[i], ReapAt(cfg, st, i, j, status, now);
            && st.world.log <= st'.world.log
            && (Launching(st.world.log, st'.world.log) <==> GoesOn(cfg, s, j, st.world))
            && (GoesOn(cfg, s, j, st.world) ==>
                  st' == Spawn(Collect(st, i, j, status, now), i, j + 1, now).st)
  {
    hide Collect, Continue, Conclude, Spawn, Ready, Tidy, ForkPid;
    var s := st.schedules[i];
    assert ScheduleOk(s);
    if s.cfg.mode == Sequential { assert OnlyLive(s, j); }
    CollectFacts(st, i, j, status, now);
    CollectTidy(st, i, j, status, now);
    var st1 := Collect(st, i, j, status, now);
    TidyLaunchesNone(st.world.log, st1.world.log, None);
    CollectGoesOn(cfg, st, st1, i, j);
    ContinueExactly(cfg, st1, i, j, now);
    var st2 := Continue(cfg, st1, i, j, now);
    if GoesOn(cfg, s, j, st.world) {
      SpawnedRuns(st1, i, j + 1, now);
      assert st2.world.log[|st1.world.log|].Launched?;
    } else {
      ContinueLength(cfg, st1, i, j, now);
      ConcludeLaunchesNone(st2, i);
      LaunchingTrans(st.world.log, st2.world.log, Conclude(st2, i).world.log);
    }
  }

  lemma ContinueLength(cfg: Config, st: State, i: nat, j: nat, now: nat)
    requires At(st, i, j)
    ensures |Continue(cfg, st, i, j, now).schedules| == |st.schedules|
  {
    hide ActionExec;
    if j + 1 < |st.schedules[i].actions| { ActionExecFacts(cfg, st, i, j + 1, now); }
  }

  /** The collection of j does not touch what the start of its successor depends on. */
  lemma CollectGoesOn(cfg: Config, st: State, st1: State, i: nat, j: nat)
    requires At(st, i, j) && At(st1, i, j) && st1.world.(log := st.world.log) == st.world
    requires exists b :: st1.(world := st.world) == SetAction(st, i, j, b)
    ensures GoesOn(cfg, st1.schedules[i], j, st1.world) <==> GoesOn(cfg, st.schedules[i], j, st.world)
    ensures st1.schedules[i].cfg == st.schedules[i].cfg && st1.schedules[i].state == st.schedules[i].state
  {
    hide Ready;
    var b :| st1.(world := st.world) == SetAction(st, i, j, b);
    if j + 1 < |st.schedules[i].actions| { assert st1.schedules[i].actions[j + 1] == st.schedules[i].actions[j + 1]; }
  }

  /**
   The death of action j starts an action if and only if the schedule is sequential, was never
   told to stop, has a next action that is ready, and fork works; and then it starts just that one.
   That the schedule may be SUPPRESSED plays no part: it is not, while it has a process.
   */
  lemma {:induction false} SuccessorExactly(cfg: Config, st: State, i: nat, j: nat, status: WaitStatus, now: nat)
    requires Inv(st) && At(st, i, j) && PidAt(st, i, j) != 0
    ensures var pid, s := PidAt(st, i, j), st.schedules[i];
            var w, st' := Waited(st.world, pid), Reap(cfg, st, pid, status, now);
            && st.world.log <= st'.world.log
            && (Launching(st.world.log, st'.world.log) <==> GoesOn(cfg, s, j, w))
            && (GoesOn(cfg, s, j, w) ==>
                  && At(st', i, j + 1) && PidAt(st', i, j + 1) == ForkPid(w)
                  && st'.world.log[|st'.world.log| - 1] == Launched(i, j + 1, ForkPid(w)))
  {
    hide ReapAt, Inv, GoesOn, Launching;
    var st0 := st.(world := Waited(st.world, PidAt(st, i, j)));
    LocateLive(st, i, j);
    ReapAtExactly(cfg, st, st0, i, j, StatusOf(status), now);
    if GoesOn(cfg, st.schedules[i], j, st0.world) { SpawnedNext(cfg, st0, i, j, StatusOf(status), now); }
  }

  lemma SpawnedNext(cfg: Config, st: State, i: nat, j: nat, status: int, now: nat)
    requires At(st, i, j) && GoesOn(cfg, st.schedules[i], j, st.world)
    ensures var st1 := Collect(st, i, j, status, now);
            && At(st1, i, j + 1)
            && var st' := Spawn(st1, i, j + 1, now).st;
            && Progressed(st, st', i, j)
            && st'.world.log == st1.world.log + [Launched(i, j + 1, ForkPid(st.world))]
  {
    hide Collect, Ready;
    CollectFacts(st, i, j, status, now);
  }

  /** The schedule has gone on from action j to the next one. */
  ghost predicate Progressed(st: State, st': State, i: nat, j: nat)
    requires At(st, i, j) && At(st, i, j + 1)
  {
    && |st'.schedules| == |st.schedules|
    && var s, s' := st.schedules[i], st'.schedules[i];
    && s'.cfg == s.cfg && s'.stop == s.stop && |s'.actions| == |s.actions|
    && (forall k :: 0 <= k < |s.actions| && k != j && k != j + 1 ==> s'.actions[k] == s.actions[k])
    && s'.actions[j + 1].pid == ForkPid(st.world) != 0
    && s'.actions[j + 1].invocations == s.actions[j + 1].invocations + 1
    && s'.actions[j].invocations == s.actions[j].invocations && s'.actions[j].pid == 0
    && st'.world.forks == st.world.forks[1..]
    && st'.world.children == st.world.children + {ForkPid(st.world)}
  }

  // ------------------------------------------------------------------ a run that nothing stops

  /** The k-th input is the death of the process of action k. */
  ghost predicate Ends(cfg: Config, st: State, ys: seq<Input>, i: nat, k: nat)
    requires k < |ys|
  {
    && ys[k].Death? && At(Run(cfg, st, ys[..k]), i, k)
    && ys[k].pid == PidAt(Run(cfg, st, ys[..k]), i, k)
  }

  /** The first n actions have been run through: the next one has its process, those behind it are as they were. */
  ghost predicate RunThrough(st: State, st': State, i: nat, n: nat)
    requires i < |st.schedules| && n < |st.schedules[i].actions|
  {
    && |st'.schedules| == |st.schedules|
    && var s, s' := st.schedules[i], st'.schedules[i];
    && s'.cfg == s.cfg && s'.stop == s.stop && |s'.actions| == |s.actions|
    && Live(s'.actions[n])
    && (forall k :: n < k < |s.actions| ==> s'.actions[k] == s.actions[k])
    && (forall k :: 0 < k <= n ==> s'.actions[k].invocations == s.actions[k].invocations + 1)
  }

  lemma NextForks(w: World, w': World, pid: int, n: nat)
    requires n > 0 && ForksWork(w, n) && w'.forks == w.forks[1..]
    requires w'.children == Waited(w, pid).children + {ForkPid(Waited(w, pid))}
    ensures ForkPid(Waited(w, pid)) != 0 && ForksWork(w', n - 1)
  {
  }

  lemma RunOnce(cfg: Config, st0: State, st: State, i: nat, n: nat, m: nat, status: WaitStatus, now: nat)
    requires Inv(st) && i < |st0.schedules| && n + 1 < |st0.schedules[i].actions| && RunThrough(st0, st, i, n)
    requires st0.schedules[i].cfg.mode == Sequential && !st0.schedules[i].stop
    requires Ready(cfg, st0.schedules[i].actions[n + 1])
    requires m > 0 && ForksWork(st.world, m)
    ensures var st' := Reap(cfg, st, PidAt(st, i, n), status, now);
            RunThrough(st0, st', i, n + 1) && ForksWork(st'.world, m - 1)
  {
    hide ReapAt, Inv, Ready, ForkPid, ForksWork;
    var pid := PidAt(st, i, n);
    var st1 := st.(world := Waited(st.world, pid));
    LocateLive(st, i, n);
    FirstFork(st.world, pid, m);
    ReapAtExactly(cfg, st, st1, i, n, StatusOf(status), now);
    SpawnedNext(cfg, st1, i, n, StatusOf(status), now);
    NextForks(st.world, Reap(cfg, st, pid, status, now).world, pid, m);
  }

  lemma FirstFork(w: World, pid: int, n: nat)
    requires n > 0 && ForksWork(w, n)
    ensures ForkPid(Waited(w, pid)) != 0
  {
  }

  /**
   When nobody stops it, fork works and its actions are ready, a sequential schedule is run
   through: each death, whatever its status, brings the next action, each invoked exactly once.
   */
  lemma {:induction false} SequentialRunsAll(cfg: Config, st: State, ys: seq<Input>, i: nat)
    requires Inv(st) && i < |st.schedules| && |ys| < |st.schedules[i].actions|
    requires var s := st.schedules[i]; s.cfg.mode == Sequential && !s.stop && Live(s.actions[0])
    requires forall k :: 0 < k <= |ys| ==> Ready(cfg, st.schedules[i].actions[k])
    requires ForksWork(st.world, |st.schedules[i].actions|)
    requires forall k :: 0 <= k < |ys| ==> Ends(cfg, st, ys, i, k)
    ensures RunThrough(st, Run(cfg, st, ys), i, |ys|)
    ensures Inv(Run(cfg, st, ys)) && ForksWork(Run(cfg, st, ys).world, |st.schedules[i].actions| - |ys|)
  {
    hide Step, Inv, Ready, ForksWork, RunThrough;
    if ys == [] {
      NothingRunThrough(st, i);
    } else {
      var n := |ys| - 1;
      var zs, y := ys[..n], ys[n];
      forall k | 0 <= k < n ensures Ends(cfg, st, zs, i, k) {
        assert Ends(cfg, st, ys, i, k) && zs[..k] == ys[..k];
      }
      SequentialRunsAll(cfg, st, zs, i);
      assert Ends(cfg, st, ys, i, n);
      var st1 := Run(cfg, st, zs);
      RunOnce(cfg, st, st1, i, n, |st.schedules[i].actions| - n, y.status, y.now);
      StepKeeps(cfg, st1, y);
      DeathIs(cfg, st1, y);
    }
  }

  lemma NothingRunThrough(st: State, i: nat)
    requires i < |st.schedules| && st.schedules[i].actions != [] && Live(st.schedules[i].actions[0])
    ensures RunThrough(st, st, i, 0)
  {
  }

  lemma DeathIs(cfg: Config, st: State, x: Input)
    requires x.Death?
    ensures Step(cfg, st, x) == Reap(cfg, st, x.pid, x.status, x.now)
  {
  }

  // ------------------------------------------------------------------ who told it to stop

  /** Event e starts suppression k, which stops what it matches and matches schedule i. */
  ghost predicate TellsToStop(cfg: Config, st: State, e: Event, k: nat, i: nat)
    requires k < |st.supps| && i < |st.schedules|
  {
    var x, s := st.supps[k], st.schedules[i];
    && x.state == SuppEnabled && x.cfg.name != "" && x.cfg.match_ != [] && x.cfg.start != "" && x.cfg.start == e.name
    && x.cfg.stop && s.state != Disabled && BigTagMatch(cfg.fnmatch, x.cfg.match_, s.cfg.suppressionTags)
  }

  /** Schedule i before and after some suppressions: told says whether one of them stops it. */
  ghost predicate Told(s: Schedule, s': Schedule, told: bool) {
    s'.cfg == s.cfg && (s'.state == Disabled <==> s.state == Disabled) && (s'.stop <==> s.stop || told)
  }

  lemma SuppressCbOneTells(cfg: Config, st: State, e: Event, k: nat, i: nat)
    requires k < |st.supps| && i < |st.schedules|
    ensures var st' := SuppressCbOne(cfg, st, e, k);
            && |st'.schedules| == |st.schedules|
            && (forall m :: 0 <= m < |st.supps| && m != k ==> st'.supps[m] == st.supps[m])
            && Told(st.schedules[i], st'.schedules[i], TellsToStop(cfg, st, e, k, i))
  {
    hide BigTagMatch, Suppressing, Releasing, Told;
    var sup, s := st.supps[k].cfg, st.schedules[i];
    SuppressUpToFacts(cfg, SetSupp(st, k, SuppActive), sup, |st.schedules|);
    var st1 := SuppressCbStart(cfg, st, e, k);
    ReleaseUpToFacts(cfg, SetSupp(st1, k, SuppEnabled), st1.supps[k].cfg, |st1.schedules|);
    var st2 := SuppressCbEnd(cfg, st1, e, k);
    var s1, s2 := st1.schedules[i], st2.schedules[i];
    SameTold(s);
    SameTold(s1);
    if st1 != st { SuppressingTells(cfg, sup, s, s1); }
    if st2 != st1 { ReleasingTells(cfg, st1.supps[k].cfg, s1, s2); }
    ToldTrans(s, s1, s2, TellsToStop(cfg, st, e, k, i));
  }

  lemma SuppressingTells(cfg: Config, sup: SuppCfg, s: Schedule, s': Schedule)
    requires Suppressing(cfg, sup, s, s')
    ensures Told(s, s', sup.stop && s.state != Disabled && BigTagMatch(cfg.fnmatch, sup.match_, s.cfg.suppressionTags))
  {
    hide BigTagMatch;
  }

  lemma ReleasingTells(cfg: Config, sup: SuppCfg, s: Schedule, s': Schedule)
    requires Releasing(cfg, sup, s, s')
    ensures Told(s, s', false)
  {
    hide BigTagMatch;
  }

  lemma SameTold(s: Schedule)
    ensures Told(s, s, false)
  {
  }

  lemma ToldTrans(s: Schedule, s1: Schedule, s2: Schedule, told: bool)
    requires Told(s, s1, told) && Told(s1, s2, false)
    ensures Told(s, s2, told)
  {
  }

  lemma {:induction false} SuppressCbTells(cfg: Config, st: State, e: Event, n: nat, i: nat)
    requires n <= |st.supps| && i < |st.schedules|
    ensures var st' := SuppressCb(cfg, st, e, n);
            && |st'.schedules| == |st.schedules|
            && (forall m :: n <= m < |st.supps| ==> st'.supps[m] == st.supps[m])
            && Told(st.schedules[i], st'.schedules[i], exists k :: 0 <= k < n && TellsToStop(cfg, st, e, k, i))
  {
    hide SuppressCbOne, BigTagMatch;
    if n > 0 {
      SuppressCbTells(cfg, st, e, n - 1, i);
      var st1 := SuppressCb(cfg, st, e, n - 1);
      SuppressCbOneTells(cfg, st1, e, n - 1, i);
      assert TellsToStop(cfg, st1, e, n - 1, i) == TellsToStop(cfg, st, e, n - 1, i);
    }
  }

  /** The input is an event that tells schedule i to stop. */
  ghost predicate StopInput(cfg: Config, st: State, x: Input, i: nat) {
    i < |st.schedules| && x.Fire? && exists k :: 0 <= k < |st.supps| && TellsToStop(cfg, st, x.e, k, i)
  }

  lemma StepStop(cfg: Config, st: State, x: Input, i: nat)
    requires Inv(st) && i < |st.schedules|
    ensures var st' := Step(cfg, st, x);
            |st'.schedules| == |st.schedules|
              && (st'.schedules[i].stop <==> st.schedules[i].stop || StopInput(cfg, st, x, i))
  {
    hide SuppressCb, ExecuteCb, TellsToStop, Reap;
    match x {
      case Fire(e, now) =>
        var st1 := SuppressCb(cfg, st, e, |st.supps|);
        SuppressCbTells(cfg, st, e, |st.supps|, i);
        SuppressCbCalm(cfg, st, e, |st.supps|);
        AllCalmKeeps(st, st1);
        ExecuteCbAccounts(cfg, st1, e, now, |st1.schedules|, i);
      case Death(pid, status, now) => DeathCounters(cfg, st, pid, status, now, i);
    }
  }

  /** The n-th input of the run told schedule i to stop. */
  ghost predicate ToldAt(cfg: Config, st: State, xs: seq<Input>, n: nat, i: nat)
    requires n < |xs|
  {
    StopInput(cfg, Run(cfg, st, xs[..n]), xs[n], i)
  }

  ghost predicate ToldToStop(cfg: Config, st: State, xs: seq<Input>, i: nat) {
    exists n :: 0 <= n < |xs| && ToldAt(cfg, st, xs, n, i)
  }

  lemma ToldSnoc(cfg: Config, st: State, xs: seq<Input>, x: Input, i: nat)
    ensures ToldToStop(cfg, st, xs + [x], i) <==> ToldToStop(cfg, st, xs, i) || StopInput(cfg, Run(cfg, st, xs), x, i)
  {
    forall n | 0 <= n < |xs| ensures ToldAt(cfg, st, xs + [x], n, i) == ToldAt(cfg, st, xs, n, i) {
      assert (xs + [x])[..n] == xs[..n];
    }
    assert (xs + [x])[..|xs|] == xs;
    assert ToldAt(cfg, st, xs + [x], |xs|, i) <==> StopInput(cfg, Run(cfg, st, xs), x, i);
  }

  /** The flag is set exactly if some input of the run told the schedule to stop. */
  lemma {:induction false} StopFlagExactly(cfg: Config, st: State, xs: seq<Input>, i: nat)
    requires Initial(st) && i < |st.schedules|
    ensures |Run(cfg, st, xs).schedules| == |st.schedules|
    ensures Run(cfg, st, xs).schedules[i].stop <==> ToldToStop(cfg, st, xs, i)
  {
    if xs == [] {
      assert InitialSchedule(st.schedules[i]);
    } else {
      hide Step, Inv, ToldToStop, StopInput, Initial;
      var ys, x := xs[..|xs| - 1], xs[|xs| - 1];
      assert xs == ys + [x];
      StopFlagExactly(cfg, st, ys, i);
      Reachable(cfg, st, ys);
      StepStop(cfg, Run(cfg, st, ys), x, i);
      ToldSnoc(cfg, st, ys, x, i);
    }
  }

  /** The schedule is sequential and the action after j can be started, whatever it was told. */
  ghost predicate CanGoOn(cfg: Config, s: Schedule, j: nat, w: World) {
    s.cfg.mode == Sequential && j + 1 < |s.actions| && Ready(cfg, s.actions[j + 1]) && ForkPid(w) != 0
  }

  /**
   Over a whole run: when an action dies whose successor could be started, it is started if and
   only if no earlier input told the schedule to stop, however long ago that was.  The comment in
   the source asks for this only while a suppression is in force; so the code does as the comment
   says exactly when the flag is clear or the counter of the schedule is positive.
   */
  lemma {:induction false} GoesOnExactly(cfg: Config, st: State, xs: seq<Input>, i: nat, j: nat, status: WaitStatus,
                                         now: nat)
    requires Initial(st) && i < |st.schedules|
    requires At(Run(cfg, st, xs), i, j) && PidAt(Run(cfg, st, xs), i, j) != 0
    requires var st1 := Run(cfg, st, xs); CanGoOn(cfg, st1.schedules[i], j, Waited(st1.world, PidAt(st1, i, j)))
    ensures var st1 := Run(cfg, st, xs);
            var st' := Reap(cfg, st1, PidAt(st1, i, j), status, now);
            && (Launching(st1.world.log, st'.world.log) <==> !ToldToStop(cfg, st, xs, i))
            && ((Launching(st1.world.log, st'.world.log) <==>
               !(st1.schedules[i].stop && st1.schedules[i].active > 0)) <==>
                !st1.schedules[i].stop || st1.schedules[i].active > 0)
  {
    hide Reap, Inv, Launching, ToldToStop, Initial, Ready, ForkPid;
    Reachable(cfg, st, xs);
    StopFlagExactly(cfg, st, xs, i);
    SuccessorExactly(cfg, Run(cfg, st, xs), i, j, status, now);
  }
}

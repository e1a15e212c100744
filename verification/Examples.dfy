/**
 Three runs of one small configuration that show what the theorems leave room for: a workspace
 that is cleaned while a process is at work in it, an action that is ENABLED although a
 suppression is in force, and an input queue that is thrown away although an action has failed.
 */
module Examples {
  import opened Common
  import opened Model
  import opened Invariants
  import opened Dataflow
  import opened Spoiling
  import opened SuppressionCounts

  // ------------------------------------------------------------------ a workspace that is cleaned under its process

  const CFG := Config([Task("t", Some("p"), [])], [Task("c", Some("p"), [])], {("q", "q")})
  const FIRST := ActionCfg("a", Some("t"), true, [], [], ["q"])
  const SECOND := ActionCfg("b", Some("t"), true, [], [], [])
  const SCHED := ScheduleCfg("s", "e", "", Parallel, [])
  const SUPP := SuppCfg("z", "f", "", ["q"], true)
  const START := Event("e", EventType.Periodic, 0)
  const STOP := Event("f", EventType.Periodic, 0)

  function Fresh(cfg: ActionCfg): Action { Action(cfg, ActEnabled, false, 0, 0, 0, 0, 0, 0, 0, 0, 0, 0, 0) }

  function Sched(actions: seq<Action>, state: ScheduleState, invocations: nat): Schedule {
    Schedule(SCHED, actions, state, false, 0, 0, invocations, 0, 0, 0, 0)
  }

  const OPS1: seq<Op> := [ScheduleMoved(0), ActionCleaned(0, 0), ActionCleaned(0, 1), Invoked(0), Launched(0, 0, 1),
    Launched(0, 1, 2)]
  const OPS2: seq<Op> := OPS1 + [Killed(1)]
  const OPS3: seq<Op> := OPS2 + [Reaped(0, 1, 0), MetaEnded(0, 1), ActionCleaned(0, 1), ActionCleaned(0, 0),
    ActionCleaned(0, 1), ScheduleCleaned(0)]

  function Loaded(): State {
    State([Sched([Fresh(FIRST), Fresh(SECOND)], Enabled, 0)], [Supp(SUPP, SuppEnabled)], World({}, [1, 2], []), false)
  }

  /** Both actions are running. */
  function Both(): State {
    State([Sched([Started(Fresh(FIRST), 1, 0), Started(Fresh(SECOND), 2, 0)], Running, 1)], [Supp(SUPP, SuppEnabled)],
          World({1, 2}, [], OPS1), false)
  }

  /** The first action has been told to stop and counts as suppressed; its process lives on. */
  function Told(): State {
    State([Sched([Started(Fresh(FIRST), 1, 0).(state := ActSuppressed, active := 1), Started(Fresh(SECOND), 2, 0)],
      Running, 1)],
          [Supp(SUPP, SuppActive)], World({1, 2}, [], OPS2), false)
  }

  lemma Starts()
    ensures Step(CFG, Loaded(), Fire(START, 0)) == Both()
  {
    var st := Loaded();
    assert SuppressCb(CFG, st, START, 1) == SuppressCbOne(CFG, SuppressCb(CFG, st, START, 0), START, 0) == st;
    Taken();
    assert ExecuteOne(CFG, st, START, 0, 0) == Begin(CFG, st, START, 0, 0) == Both();
    assert ExecuteCb(CFG, st, START, 0, 1) == ExecuteOne(CFG, ExecuteCb(CFG, st, START, 0, 0), START, 0, 0);
  }

  function Prepared(): State {
    Loaded().(schedules := [Sched([Fresh(FIRST), Fresh(SECOND)], Enabled, 1)],
              world := World({}, [1, 2], [ScheduleMoved(0), ActionCleaned(0, 0), ActionCleaned(0, 1), Invoked(0)]))
  }

  lemma Taken()
    ensures Begin(CFG, Loaded(), START, 0, 0) == Both()
  {
    var st := TakeOver(Loaded(), START, 0, 0);
    assert st.schedules == Loaded().schedules;
    assert CleanUpTo(st, 0, 1).world.log == [ScheduleMoved(0), ActionCleaned(0, 0)];
    var st1 := CleanUpTo(st, 0, 2);
    assert st1.world.log == [ScheduleMoved(0), ActionCleaned(0, 0), ActionCleaned(0, 1)];
    var st2 := CountInvocation(st1, 0, 0);
    assert st2.world.log == st1.world.log + [Invoked(0)];
    assert st2.schedules == Prepared().schedules;
    assert st2 == Prepared();
    Launches();
  }

  lemma Allowed(a: ActionCfg)
    requires a == FIRST || a == SECOND
    ensures Permitted(CFG, a) && ArgsFit(CFG, a)
  {
    assert CFG.tasks[0].name == "t";
    assert CFG.capabilities[0] in CFG.capabilities;
  }

  /** An action that may run is launched with the next pid. */
  lemma LaunchOne(st: State, j: nat, pid: int)
    requires At(st, 0, j) && (st.schedules[0].actions[j] == Fresh(FIRST) || st.schedules[0].actions[j] == Fresh(SECOND))
    requires ForkPid(st.world) == pid > 0
    ensures var s := st.schedules[0];
            LaunchAt(CFG, st, 0, j, 0) ==
            st.(schedules := st.schedules[0 :=
              s.(actions := s.actions[j := Started(s.actions[j], pid, 0)], state := Running)],
                world := AfterFork(st.world).(log := st.world.log + [Launched(0, j, pid)]))
  {
    Allowed(st.schedules[0].actions[j].cfg);
    hide Permitted, ArgsFit, AfterFork, ForkPid, Started;
    assert ActionExec(CFG, st, 0, j, 0) == Spawn(st, 0, j, 0);
    var s := st.schedules[0];
    var s1 := s.(actions := s.actions[j := Started(s.actions[j], pid, 0)]);
    assert st.schedules[0 := s1][0 := s1.(state := Running)] == st.schedules[0 := s1.(state := Running)];
  }

  lemma Launches()
    ensures LaunchUpTo(CFG, Prepared(), 0, 0, 2) == Both()
  {
    var st := Prepared();
    LaunchOne(st, 0, 1);
    var st1 := LaunchAt(CFG, st, 0, 0, 0);
    assert LaunchUpTo(CFG, st, 0, 0, 1) == LaunchAt(CFG, LaunchUpTo(CFG, st, 0, 0, 0), 0, 0, 0) == st1;
    assert st1.world == World({1}, [2], st.world.log + [Launched(0, 0, 1)]);
    LaunchOne(st1, 1, 2);
    var st2 := LaunchAt(CFG, st1, 0, 1, 0);
    assert st2.world == Both().world;
    assert st2.schedules[0].actions == Both().schedules[0].actions;
    assert st2.schedules == Both().schedules;
  }

  /** The suppression does not match the schedule, which therefore keeps its flag clear. */
  lemma Stops()
    ensures Step(CFG, Both(), Fire(STOP, 0)) == Told()
  {
    var st := Both();
    assert SuppressCb(CFG, st, STOP, 1) == SuppressCbOne(CFG, SuppressCb(CFG, st, STOP, 0), STOP, 0) ==
           SuppressionStart(CFG, st, 0);
    var st0 := SetSupp(st, 0, SuppActive);
    Suppresses(st0);
    assert st0.supps == Told().supps;
    assert SuppressUpTo(CFG, st0, SUPP, 1) == SuppressOne(CFG, SuppressUpTo(CFG, st0, SUPP, 0), SUPP, 0);
    var st1 := SuppressionStart(CFG, st, 0);
    assert st1 == Told();
    assert ExecuteCb(CFG, st1, STOP, 0, 1) == ExecuteOne(CFG, ExecuteCb(CFG, st1, STOP, 0, 0), STOP, 0, 0) == st1;
  }

  lemma TagsMeet()
    ensures BigTagMatch(CFG.fnmatch, ["q"], ["q"]) && !BigTagMatch(CFG.fnmatch, ["q"], [])
  {
    assert "q" in ["q"];
  }

  lemma Suppresses(st: State)
    requires st.schedules == Both().schedules && st.world == Both().world
    ensures SuppressOne(CFG, st, SUPP, 0) == st.(schedules := Told().schedules, world := Told().world)
  {
    TagsMeet();
    hide BigTagMatch;
    var s := st.schedules[0];
    assert SuppressSchedule(CFG, s, SUPP) == s;
    assert SetSchedule(st, 0, s).schedules == st.schedules;
    var st1 := SuppressAt(CFG, st, SUPP, 0, 0);
    assert st1.world == Told().world;
    assert SuppressActions(CFG, st, SUPP, 0, 1) == SuppressAt(CFG, SuppressActions(CFG, st, SUPP, 0, 0), SUPP, 0, 0) ==
           st1;
    var st2 := SuppressAt(CFG, st1, SUPP, 0, 1);
    assert st2.schedules[0].actions == Told().schedules[0].actions;
    assert st2.schedules == Told().schedules;
  }

  /** The second process ends; nothing counts as RUNNING, and the whole schedule is concluded. */
  lemma Ends()
    ensures Reap(CFG, Told(), 2, Exited(0), 0).world.log == OPS3
  {
    var st0 := Told().(world := Told().world.(children := {1, 2} - {2}));
    assert IndexOfPid(Told().schedules[0].actions, 2, 1) == Some(1);
    assert Locate(Told(), 2) == Some((0, 1));
    var st1 := Collect(st0, 0, 1, 0, 0);
    assert DestsOf(st0, 0, 1) == [];
    assert st1.world.log == OPS2 + [Reaped(0, 1, 0), MetaEnded(0, 1), ActionCleaned(0, 1)];
    assert Continue(CFG, st1, 0, 1, 0) == st1;
    assert forall a :: a in st1.schedules[0].actions ==> a.state != ActRunning;
    assert st1.schedules[0].actions[1].lastStatus == 0;
    Concludes(st1);
  }

  lemma Concludes(st: State)
    requires |st.schedules| == 1 && |st.schedules[0].actions| == 2 && SomeSuccess(st.schedules[0])
    requires !st.schedules[0].actions[0].deferred && !st.schedules[0].actions[1].deferred
    ensures Conclude(st, 0).world.log == st.world.log + [ActionCleaned(0, 0), ActionCleaned(0, 1), ScheduleCleaned(0)]
  {
    hide SomeSuccess;
    var st1 := SetSchedule(st, 0, Settle(st.schedules[0]));
    assert FlushUpTo(st1, 0, 1) == FlushAt(FlushUpTo(st1, 0, 0), 0, 0) == FlushAt(st1, 0, 0);
    assert FlushUpTo(st1, 0, 2) == FlushAt(FlushAt(st1, 0, 0), 0, 1);
  }

  lemma StillAtWork()
    ensures AtWorkIn(OPS3[..10], 0, 0)
  {
    var log := OPS3;
    assert log[4] == Launched(0, 0, 1) && log[5] == Launched(0, 1, 2) && log[6] == Killed(1);
    assert log[7] == Reaped(0, 1, 0) && log[8] == MetaEnded(0, 1) && log[9] == ActionCleaned(0, 1);
    assert log[..5][|log[..5]| - 1] == log[4] && AtWorkIn(log[..5], 0, 0);
    forall n | 5 <= n < 10 ensures log[..n + 1][..n] == log[..n] && log[..n + 1][n] == log[n] {}
    assert AtWorkIn(log[..6], 0, 0);
    assert AtWorkIn(log[..7], 0, 0);
    assert AtWorkIn(log[..8], 0, 0);
    assert AtWorkIn(log[..9], 0, 0);
  }

  function Inputs(): seq<Input> { [Fire(START, 0), Fire(STOP, 0), Death(2, Exited(0), 0)] }

  lemma RunTold()
    ensures Run(CFG, Loaded(), Inputs()[..2]) == Told()
  {
    var xs := Inputs();
    Starts();
    Stops();
    hide Step, Loaded, Both, Told;
    assert xs[..2][..1] == xs[..1] && xs[..1][..0] == [];
    assert Run(CFG, Loaded(), xs[..0]) == Loaded();
    assert Run(CFG, Loaded(), xs[..1]) == Step(CFG, Loaded(), xs[0]);
  }

  lemma RunLog()
    ensures Run(CFG, Loaded(), Inputs()).world.log == OPS3
  {
    var xs := Inputs();
    RunTold();
    Ends();
    DeathStep();
    hide Step, Reap, Loaded, Told;
    assert xs[..3] == xs && xs[..3][..2] == xs[..2];
  }

  /**
   The suppression stops an action without its schedule, and the workspace of that action is
   cleaned under its process: the third input cuts it off.
   */
  lemma CleanedAtWork()
    ensures Initial(Loaded()) && !QuietAt(CFG, Loaded(), 0)
    ensures var log := Run(CFG, Loaded(), Inputs()).world.log;
            |log| > 10 && log[10] == ActionCleaned(0, 0) && AtWorkIn(log[..10], 0, 0)
    ensures CutOffAt(CFG, Loaded(), Inputs(), 2, 0, 0)
  {
    RunLog();
    StillAtWork();
    NotQuiet(Loaded());
    InitialLoaded();
    CutOff();
  }

  lemma CutOff()
    ensures CutOffAt(CFG, Loaded(), Inputs(), 2, 0, 0)
  {
    RunTold();
    var st := Told();
    assert At(st, 0, 1) && PidAt(st, 0, 1) == 2;
  }

  lemma DeathStep()
    ensures Step(CFG, Told(), Death(2, Exited(0), 0)) == Reap(CFG, Told(), 2, Exited(0), 0)
  {
  }

  lemma NotQuiet(st: State)
    requires st.schedules == Loaded().schedules && st.supps == Loaded().supps
    ensures !QuietAt(CFG, st, 0)
  {
    TagsMeet();
    hide BigTagMatch;
    assert At(st, 0, 0) && st.supps[0].cfg.stop;
    assert BigTagMatch(CFG.fnmatch, st.supps[0].cfg.match_, st.schedules[0].actions[0].cfg.suppressionTags);
    assert !BigTagMatch(CFG.fnmatch, st.supps[0].cfg.match_, st.schedules[0].cfg.suppressionTags);
  }

  // ------------------------------------------------------------------ an action that is ENABLED under a suppression

  /** The process that was told to stop ends: its action is ENABLED although the suppression is still in force. */
  lemma EnabledUnderSuppression()
    ensures var st' := Run(CFG, Loaded(), [Fire(START, 0), Fire(STOP, 0), Death(1, Exited(0), 0)]);
            && At(st', 0, 0) && st'.schedules[0].actions[0].state == ActEnabled
               && st'.schedules[0].actions[0].active > 0
  {
    hide Run, Locate, LocateFrom, InForce, Loaded, Initial;
    RunTold();
    var xs := Inputs()[..2];
    LocatesFirst();
    InitialLoaded();
    ReapedEnabled(CFG, Loaded(), xs, 1, Exited(0), 0);
    assert xs + [Death(1, Exited(0), 0)] == [Fire(START, 0), Fire(STOP, 0), Death(1, Exited(0), 0)];
  }

  lemma LocatesFirst()
    ensures Locate(Told(), 1) == Some((0, 0))
  {
    assert IndexOfPid(Told().schedules[0].actions, 1, 0) == Some(0);
  }

  lemma InitialLoaded()
    ensures Initial(Loaded())
  {
  }

  // ------------------------------------------------------------------ a queue that is cleaned after a failure

  /** The first process has ended with status 1, the second one is at work. */
  function OneFailed(): State {
    State([Sched([Completed(Started(Fresh(FIRST), 1, 0), 1, 0), Started(Fresh(SECOND), 2, 0)], Running, 1)],
      [Supp(SUPP, SuppEnabled)],
          World({2}, [], OPS1 + [Reaped(0, 0, 1), MetaEnded(0, 0), ActionCleaned(0, 0)]), false)
  }

  lemma FirstFails()
    ensures Reap(CFG, Both(), 1, Exited(1), 0) == OneFailed()
  {
    var st0 := Both().(world := Both().world.(children := {1, 2} - {1}));
    assert IndexOfPid(Both().schedules[0].actions, 1, 0) == Some(0);
    assert Locate(Both(), 1) == Some((0, 0));
    var st1 := Collect(st0, 0, 0, 1, 0);
    assert st1.world.log == OneFailed().world.log;
    assert st1.schedules[0].actions == OneFailed().schedules[0].actions;
    assert st1 == OneFailed();
    assert Continue(CFG, st1, 0, 0, 0) == st1;
    assert st1.schedules[0].actions[1] in st1.schedules[0].actions;
  }

  lemma SecondEnds()
    ensures var st' := Reap(CFG, OneFailed(), 2, Exited(0), 0);
            && st'.world.log != [] && st'.world.log[|st'.world.log| - 1] == ScheduleCleaned(0)
            && At(st', 0, 0) && st'.schedules[0].actions[0].lastStatus == 1
  {
    var st0 := OneFailed().(world := OneFailed().world.(children := {2} - {2}));
    assert IndexOfPid(OneFailed().schedules[0].actions, 2, 1) == Some(1);
    assert Locate(OneFailed(), 2) == Some((0, 1));
    hide Conclude;
    var st1 := Collect(st0, 0, 1, 0, 0);
    CollectFacts(st0, 0, 1, 0, 0);
    assert Continue(CFG, st1, 0, 1, 0) == st1;
    assert forall a :: a in st1.schedules[0].actions ==> a.state != ActRunning;
    assert st1.schedules[0].actions[1] in st1.schedules[0].actions;
    ConcludeFacts(st1, 0);
    LastIsCleaning(st1);
  }

  lemma LastIsCleaning(st: State)
    requires |st.schedules| == 1 && SomeSuccess(st.schedules[0])
    ensures var log := Conclude(st, 0).world.log; log != [] && log[|log| - 1] == ScheduleCleaned(0)
  {
  }

  /** One action has failed, the other one has not: the run counts as a success, and its input is thrown away. */
  lemma CleanedAfterFailure()
    ensures var st' := Run(CFG, Loaded(), [Fire(START, 0), Death(1, Exited(1), 0), Death(2, Exited(0), 0)]);
            && st'.world.log != [] && st'.world.log[|st'.world.log| - 1] == ScheduleCleaned(0)
            && At(st', 0, 0) && st'.schedules[0].actions[0].lastStatus == 1
  {
    hide *;
    Starts();
    FirstFails();
    SecondEnds();
    Deaths();
    RunThree(Loaded(), Fire(START, 0), Death(1, Exited(1), 0), Death(2, Exited(0), 0));
  }

  lemma Deaths()
    ensures Step(CFG, Both(), Death(1, Exited(1), 0)) == Reap(CFG, Both(), 1, Exited(1), 0)
    ensures Step(CFG, OneFailed(), Death(2, Exited(0), 0)) == Reap(CFG, OneFailed(), 2, Exited(0), 0)
  {
  }

  lemma RunThree(st: State, x: Input, y: Input, z: Input)
    ensures Run(CFG, st, [x, y, z]) == Step(CFG, Step(CFG, Step(CFG, st, x), y), z)
  {
    hide Step;
    var xs := [x, y, z];
    assert xs[..2] == [x, y] && xs[..2][..1] == [x] && [x][..0] == [];
    assert Run(CFG, st, [x]) == Step(CFG, Run(CFG, st, []), x);
    assert Run(CFG, st, [x, y]) == Step(CFG, Run(CFG, st, [x]), y);
  }
}

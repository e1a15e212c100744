/**
 A run that shows the stop flag outliving its suppression: a sequential schedule is told to stop,
 the suppression ends, the schedule is started again, and its second action is still not launched.
 */
module Stopped {
  import opened Common
  import opened Model
  import opened Invariants
  import opened Succession

  const CFG := Config([Task("t", Some("p"), [])], [Task("c", Some("p"), [])], {("q", "q")})
  const FIRST := ActionCfg("a", Some("t"), true, [], [], [])
  const SECOND := ActionCfg("b", Some("t"), true, [], [], [])
  const SCHED := ScheduleCfg("s", "e", "", Sequential, ["q"])
  const SUPP := SuppCfg("z", "f", "g", ["q"], true)
  const START := Event("e", EventType.Periodic, 0)
  const STOP := Event("f", EventType.Periodic, 0)
  const OVER := Event("g", EventType.Periodic, 0)

  function Fresh(cfg: ActionCfg): Action { Action(cfg, ActEnabled, false, 0, 0, 0, 0, 0, 0, 0, 0, 0, 0, 0) }

  function Loaded(): State {
    State([Schedule(SCHED, [Fresh(FIRST), Fresh(SECOND)], Enabled, false, 0, 0, 0, 0, 0, 0, 0)],
          [Supp(SUPP, SuppEnabled)], World({}, [1, 2, 3], []), false)
  }

  /**
   The schedule with its flag and counter; pid is the process of the first action, 0 for none; the
   second is fresh.
   */
  predicate Form(st: State, state: ScheduleState, stop: bool, active: nat, pid: int) {
    && |st.schedules| == |st.supps| == 1
    && var s := st.schedules[0];
    && s.cfg == SCHED && s.state == state && s.stop == stop && s.active == active
    && |s.actions| == 2 && s.actions[1] == Fresh(SECOND)
    && var a := s.actions[0];
    && a.cfg == FIRST && a.pid == pid && a.state == (if pid != 0 then ActRunning else ActEnabled) && !a.deferred
    && st.supps[0] == Supp(SUPP, if active > 0 then SuppActive else SuppEnabled)
  }

  predicate Outside(st: State, children: set<int>, forks: seq<int>) {
    st.world.children == children && st.world.forks == forks
  }

  lemma Allowed(a: ActionCfg)
    requires a == FIRST || a == SECOND
    ensures Permitted(CFG, a) && ArgsFit(CFG, a)
  {
    assert CFG.tasks[0].name == "t";
    assert CFG.capabilities[0] in CFG.capabilities;
  }

  lemma TagsMeet()
    ensures BigTagMatch(CFG.fnmatch, ["q"], ["q"]) && !BigTagMatch(CFG.fnmatch, ["q"], [])
  {
    assert "q" in ["q"];
  }

  lemma NoSuppression(st: State, stop: bool)
    requires Form(st, Enabled, stop, 0, 0)
    ensures SuppressCb(CFG, st, START, |st.supps|) == st
  {
    assert SuppressCb(CFG, st, START, 1) == SuppressCbOne(CFG, SuppressCb(CFG, st, START, 0), START, 0);
  }

  /** A start launches the first action with the next pid. */
  lemma Starts(st: State, stop: bool, pid: int, rest: seq<int>)
    requires Form(st, Enabled, stop, 0, 0) && Outside(st, {}, [pid] + rest) && pid > 0
    ensures var st' := Step(CFG, st, Fire(START, 0)); Form(st', Running, stop, 0, pid) && Outside(st', {pid}, rest)
  {
    NoSuppression(st, stop);
    Allowed(FIRST);
    hide Permitted, ArgsFit;
    var st1 := CountInvocation(CleanUpTo(TakeOver(st, START, 0, 0), 0, 2), 0, 0);
    assert ForkPid(st1.world) == pid;
    assert ActionExec(CFG, st1, 0, 0, 0) == Spawn(st1, 0, 0, 0);
    assert ExecuteCb(CFG, st, START, 0, 1) == ExecuteOne(CFG, ExecuteCb(CFG, st, START, 0, 0), START, 0, 0);
    assert ExecuteOne(CFG, st, START, 0, 0) == Begin(CFG, st, START, 0, 0) == LaunchAt(CFG, st1, 0, 0, 0);
  }

  /** Nothing starts on the events of the suppression. */
  lemma NoStart(st: State, e: Event, state: ScheduleState, stop: bool, active: nat, pid: int)
    requires Form(st, state, stop, active, pid) && state != Disabled && (e == STOP || e == OVER)
    ensures ExecuteCb(CFG, st, e, 0, |st.schedules|) == st
  {
    assert ExecuteCb(CFG, st, e, 0, 1) == ExecuteOne(CFG, ExecuteCb(CFG, st, e, 0, 0), e, 0, 0);
  }

  /** The suppression matches the schedule and tells it to stop. */
  lemma Stops(st: State, pid: int, rest: seq<int>)
    requires Form(st, Running, false, 0, pid) && Outside(st, {pid}, rest) && pid > 0
    ensures var st' := Step(CFG, st, Fire(STOP, 0)); Form(st', Running, true, 1, pid) && Outside(st', {pid}, rest)
  {
    TagsMeet();
    hide BigTagMatch;
    assert SuppressCb(CFG, st, STOP, 1) == SuppressCbOne(CFG, SuppressCb(CFG, st, STOP, 0), STOP, 0);
    SuppressUpToFacts(CFG, SetSupp(st, 0, SuppActive), SUPP, 1);
    var st1 := SuppressionStart(CFG, st, 0);
    assert Suppressing(CFG, SUPP, st.schedules[0], st1.schedules[0]);
    assert Form(st1, Running, true, 1, pid);
    NoStart(st1, STOP, Running, true, 1, pid);
  }

  /** The process dies; the schedule does not go on and is SUPPRESSED. */
  lemma Dies(st: State, pid: int, rest: seq<int>)
    requires Form(st, Running, true, 1, pid) && Outside(st, {pid}, rest) && pid > 0
    ensures var st' := Step(CFG, st, Death(pid, Signaled(15), 0));
            Form(st', Suppressed, true, 1, 0) && Outside(st', {}, rest)
  {
    assert IndexOfPid(st.schedules[0].actions, pid, 0) == Some(0);
    assert Locate(st, pid) == Some((0, 0));
    hide Collect, Conclude;
    var st0 := st.(world := st.world.(children := st.world.children - {pid}));
    CollectFacts(st0, 0, 0, -15, 0);
    var st1 := Collect(st0, 0, 0, -15, 0);
    assert st1.schedules[0] == st.schedules[0].(actions := st1.schedules[0].actions);
    assert Continue(CFG, st1, 0, 0, 0) == st1;
    assert forall a :: a in st1.schedules[0].actions ==> a.state != ActRunning;
    ConcludeFacts(st1, 0);
    assert {pid} - {pid} == {};
  }

  /** The suppression ends and the schedule is ENABLED again; the flag stays. */
  lemma Released(st: State, rest: seq<int>)
    requires Form(st, Suppressed, true, 1, 0) && Outside(st, {}, rest)
    ensures var st' := Step(CFG, st, Fire(OVER, 0)); Form(st', Enabled, true, 0, 0) && Outside(st', {}, rest)
  {
    TagsMeet();
    hide BigTagMatch;
    assert SuppressCb(CFG, st, OVER, 1) == SuppressCbOne(CFG, SuppressCb(CFG, st, OVER, 0), OVER, 0);
    ReleaseUpToFacts(CFG, SetSupp(st, 0, SuppEnabled), SUPP, 1);
    var st1 := SuppressionEnd(CFG, st, 0);
    assert Releasing(CFG, SUPP, st.schedules[0], st1.schedules[0]);
    assert Form(st1, Enabled, true, 0, 0);
    NoStart(st1, OVER, Enabled, true, 0, 0);
  }

  function Inputs(): seq<Input> {
    [Fire(START, 0), Fire(STOP, 0), Death(1, Signaled(15), 0), Fire(OVER, 0), Fire(START, 0)]
  }

  lemma RunFive(st: State, a: Input, b: Input, c: Input, d: Input, e: Input)
    ensures Run(CFG, st, [a, b, c, d, e]) == Step(CFG, Step(CFG, Step(CFG, Step(CFG, Step(CFG, st, a), b), c), d), e)
  {
    hide Step;
    var xs := [a, b, c, d, e];
    assert xs[..4] == [a, b, c, d] && [a, b, c, d][..3] == [a, b, c] && [a, b, c][..2] == [a, b] && [a, b][..1] == [a];
    assert [a][..0] == [] && Run(CFG, st, []) == st;
    assert Run(CFG, st, [a]) == Step(CFG, st, a);
    assert Run(CFG, st, [a, b]) == Step(CFG, Run(CFG, st, [a]), b);
    assert Run(CFG, st, [a, b, c]) == Step(CFG, Run(CFG, st, [a, b]), c);
    assert Run(CFG, st, [a, b, c, d]) == Step(CFG, Run(CFG, st, [a, b, c]), d);
  }

  lemma RunForm()
    ensures Initial(Loaded())
    ensures var st := Run(CFG, Loaded(), Inputs()); Form(st, Running, true, 0, 2) && Outside(st, {2}, [3])
  {
    var st := Loaded();
    assert Form(st, Enabled, false, 0, 0) && Outside(st, {}, [1] + [2, 3]);
    hide Step, Form, Outside, Initial;
    var xs := Inputs();
    Starts(st, false, 1, [2, 3]);
    var st1 := Step(CFG, st, xs[0]);
    Stops(st1, 1, [2, 3]);
    var st2 := Step(CFG, st1, xs[1]);
    Dies(st2, 1, [2, 3]);
    var st3 := Step(CFG, st2, xs[2]);
    assert [2] + [3] == [2, 3];
    Released(st3, [2] + [3]);
    var st4 := Step(CFG, st3, xs[3]);
    Starts(st4, true, 2, [3]);
    RunFive(st, xs[0], xs[1], xs[2], xs[3], xs[4]);
    InitialLoaded();
  }

  lemma InitialLoaded()
    ensures Initial(Loaded())
  {
  }

  /**
   After five inputs the suppression is over, the schedule is RUNNING again, its second action is
   ready and fork would work; and yet the death of the first action does not start it.
   */
  lemma SuccessorNotLaunched()
    ensures var st := Run(CFG, Loaded(), Inputs());
            var st' := Run(CFG, Loaded(), Inputs() + [Death(2, Exited(0), 0)]);
            && Initial(Loaded()) && Form(st, Running, true, 0, 2) && st.supps[0].state == SuppEnabled
            && Ready(CFG, st.schedules[0].actions[1]) && ForkPid(Waited(st.world, 2)) != 0
            && st.world.log <= st'.world.log && !Launching(st.world.log, st'.world.log)
  {
    RunForm();
    hide Run, Initial, Launching;
    var st := Run(CFG, Loaded(), Inputs());
    var ys := Inputs() + [Death(2, Exited(0), 0)];
    Allowed(SECOND);
    Reachable(CFG, Loaded(), Inputs());
    SuccessorExactly(CFG, st, 0, 0, Exited(0), 0);
    RunNext(Loaded(), Inputs(), 2, Exited(0));
  }

  lemma RunNext(st: State, xs: seq<Input>, pid: int, status: WaitStatus)
    ensures Run(CFG, st, xs + [Death(pid, status, 0)]) == Reap(CFG, Run(CFG, st, xs), pid, status, 0)
  {
    hide Reap;
    assert (xs + [Death(pid, status, 0)])[..|xs|] == xs;
  }
}

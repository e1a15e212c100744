/**
 A run in which a schedule fails more often than it is invoked: one of two parallel actions is
 stopped through its own tags, and its run is concluded twice, once without it and once with it.
 */
module Overcounted {
  import opened Common
  import opened Model
  import opened Invariants
  import opened Spoiling
  import E = Examples

  /** What matters of an action: its process, its state and how it ended last. */
  datatype Mark = Mark(pid: int, state: ActionState, last: int)

  const IDLE := Mark(0, ActEnabled, 0)
  const FAILED := Mark(0, ActEnabled, 1)

  predicate Marked(a: Action, cfg: ActionCfg, m: Mark) {
    a.cfg == cfg && a.pid == m.pid && a.state == m.state && a.lastStatus == m.last && !a.deferred
  }

  predicate Form(st: State, state: ScheduleState, failures: nat, invocations: nat, a: Mark, b: Mark, told: bool) {
    && |st.schedules| == |st.supps| == 1
    && st.supps[0] == Supp(E.SUPP, if told then SuppActive else SuppEnabled)
    && var s := st.schedules[0];
    && s.cfg == E.SCHED && s.state == state && s.failures == failures && s.invocations == invocations
    && !s.stop && s.active == 0 && |s.actions| == 2
    && Marked(s.actions[0], E.FIRST, a) && Marked(s.actions[1], E.SECOND, b)
  }

  predicate Outside(st: State, children: set<int>, forks: seq<int>) {
    st.world.children == children && st.world.forks == forks
  }

  lemma LaunchOne(st: State, j: nat, pid: int, a: Mark, b: Mark, state: ScheduleState, failures: nat, invocations: nat)
    requires j < 2 && Form(st, state, failures, invocations, a, b, false) && (if j == 0 then a else b) in {IDLE, FAILED}
    requires ForkPid(st.world) == pid > 0
    ensures var st' := LaunchAt(E.CFG, st, 0, j, 0);
            && Form(st', Running, failures, invocations, if j == 0 then a.(pid := pid, state := ActRunning) else a,
                    if j == 1 then b.(pid := pid, state := ActRunning) else b, false)
            && Outside(st', st.world.children + {pid}, st.world.forks[1..])
  {
    E.Allowed(st.schedules[0].actions[j].cfg);
    hide Permitted, ArgsFit;
    assert ActionExec(E.CFG, st, 0, j, 0) == Spawn(st, 0, j, 0);
  }

  lemma NoSuppression(st: State, e: Event)
    requires |st.supps| == 1 && st.supps[0].cfg == E.SUPP && e == E.START
    ensures SuppressCb(E.CFG, st, e, |st.supps|) == st
  {
    assert SuppressCb(E.CFG, st, e, 1) == SuppressCbOne(E.CFG, SuppressCb(E.CFG, st, e, 0), e, 0);
  }

  /** The state in which the actions are started. */
  function Opened(st: State): State
    requires |st.schedules| == 1
  {
    CountInvocation(CleanUpTo(TakeOver(st, E.START, 0, 0), 0, 2), 0, 0)
  }

  lemma StartIs(st: State, failures: nat, invocations: nat, a: Mark, b: Mark)
    requires Form(st, Enabled, failures, invocations, a, b, false)
    ensures Form(Opened(st), Enabled, failures, invocations + 1, a, b, false)
    ensures Opened(st).world.(log := st.world.log) == st.world
    ensures Step(E.CFG, st, Fire(E.START, 0)) == LaunchUpTo(E.CFG, Opened(st), 0, 0, 2)
  {
    NoSuppression(st, E.START);
    hide LaunchAt, CleanUpTo, LaunchUpTo;
    assert ExecuteOne(E.CFG, st, E.START, 0, 0) == Begin(E.CFG, st, E.START, 0, 0) ==
           LaunchUpTo(E.CFG, Opened(st), 0, 0, 2);
    assert ExecuteCb(E.CFG, st, E.START, 0, 1) == ExecuteOne(E.CFG, ExecuteCb(E.CFG, st, E.START, 0, 0), E.START, 0, 0);
  }

  lemma LaunchTwice(st: State)
    requires |st.schedules| == 1 && |st.schedules[0].actions| == 2
    ensures |LaunchAt(E.CFG, st, 0, 0, 0).schedules| == 1 && |LaunchAt(E.CFG, st, 0, 0, 0).schedules[0].actions| == 2
    ensures LaunchUpTo(E.CFG, st, 0, 0, 2) == LaunchAt(E.CFG, LaunchAt(E.CFG, st, 0, 0, 0), 0, 1, 0)
  {
    hide LaunchAt;
    assert LaunchUpTo(E.CFG, st, 0, 0, 1) == LaunchAt(E.CFG, LaunchUpTo(E.CFG, st, 0, 0, 0), 0, 0, 0);
  }

  /** Both actions are launched. */
  lemma Starts(st: State, failures: nat, invocations: nat, a: Mark, b: Mark, p: int, q: int, rest: seq<int>)
    requires Form(st, Enabled, failures, invocations, a, b, false) && a in {IDLE, FAILED} && b in {IDLE, FAILED}
    requires Outside(st, {}, [p, q] + rest) && 0 < p < q
    ensures var st' := Step(E.CFG, st, Fire(E.START, 0));
            && Form(st', Running, failures, invocations + 1, Mark(p, ActRunning, a.last), Mark(q, ActRunning, b.last),
               false)
            && Outside(st', {p, q}, rest)
  {
    StartIs(st, failures, invocations, a, b);
    hide LaunchAt, LaunchUpTo, Step, Opened;
    var st1 := Opened(st);
    LaunchTwice(st1);
    assert ([p, q] + rest)[1..] == [q] + rest && ([q] + rest)[1..] == rest;
    LaunchOne(st1, 0, p, a, b, Enabled, failures, invocations + 1);
    var st2 := LaunchAt(E.CFG, st1, 0, 0, 0);
    LaunchOne(st2, 1, q, a.(pid := p, state := ActRunning), b, Running, failures, invocations + 1);
  }

  /** The suppression matches the first action only, whose process lives on. */
  lemma Stops(st: State, failures: nat, invocations: nat, p: int, q: int, x: int, y: int, rest: seq<int>)
    requires Form(st, Running, failures, invocations, Mark(p, ActRunning, x), Mark(q, ActRunning, y), false)
    requires Outside(st, {p, q}, rest) && 0 < p < q
    ensures var st' := Step(E.CFG, st, Fire(E.STOP, 0));
            && Form(st', Running, failures, invocations, Mark(p, ActSuppressed, x), Mark(q, ActRunning, y), true)
            && Outside(st', {p, q}, rest)
  {
    E.TagsMeet();
    hide BigTagMatch;
    assert SuppressCb(E.CFG, st, E.STOP, 1) == SuppressCbOne(E.CFG, SuppressCb(E.CFG, st, E.STOP, 0), E.STOP, 0);
    SuppressUpToFacts(E.CFG, SetSupp(st, 0, SuppActive), E.SUPP, 1);
    var st1 := SuppressionStart(E.CFG, st, 0);
    assert Suppressing(E.CFG, E.SUPP, st.schedules[0], st1.schedules[0]);
    assert Form(st1, Running, failures, invocations, Mark(p, ActSuppressed, x), Mark(q, ActRunning, y), true);
    assert ExecuteCb(E.CFG, st1, E.STOP, 0, 1) ==
           ExecuteOne(E.CFG, ExecuteCb(E.CFG, st1, E.STOP, 0, 0), E.STOP, 0, 0) == st1;
  }

  /** The process of action k fails; the schedule is concluded unless the other action is RUNNING. */
  lemma Fails(st: State, k: nat, state: ScheduleState, failures: nat, invocations: nat, a: Mark, b: Mark, told: bool,
              children: set<int>, rest: seq<int>)
    requires k < 2 && Form(st, state, failures, invocations, a, b, told) && Outside(st, children, rest)
    requires var pid := (if k == 0 then a else b).pid; pid > 0 && pid in children && a.pid != b.pid
    requires state == Running || state == Enabled
    requires (if k == 0 then b else a).state == ActRunning || (if k == 0 then b else a).last != 0
    ensures var pid, other := (if k == 0 then a else b).pid, if k == 0 then b else a;
            var st' := Step(E.CFG, st, Death(pid, Exited(1), 0));
            && Form(st', if other.state == ActRunning then state else Enabled,
                    if other.state == ActRunning then failures else failures + 1, invocations,
                    if k == 0 then FAILED else a, if k == 1 then FAILED else b, told)
            && Outside(st', children - {pid}, rest)
  {
    var pid, other := (if k == 0 then a else b).pid, if k == 0 then b else a;
    FailsAt(st, k, state, failures, invocations, a, b, told);
    var st0 := st.(world := st.world.(children := children - {pid}));
    assert Form(st0, state, failures, invocations, a, b, told);
    CollectsFailure(st0, k, state, failures, invocations, a, b, told);
    var st1 := Collect(st0, 0, k, 1, 0);
    hide Collect, Conclude, StillRunning, SomeSuccess;
    Survey(st1, k, state, failures, invocations, if k == 0 then FAILED else a, if k == 1 then FAILED else b, told);
    if other.state != ActRunning {
      Concludes(st1, state, failures, invocations, if k == 0 then FAILED else a, if k == 1 then FAILED else b, told);
    }
  }

  /** A run without success is over. */
  lemma Concludes(st: State, state: ScheduleState, failures: nat, invocations: nat, a: Mark, b: Mark, told: bool)
    requires Form(st, state, failures, invocations, a, b, told) && (state == Running || state == Enabled)
    requires !SomeSuccess(st.schedules[0])
    ensures Form(Conclude(st, 0), Enabled, failures + 1, invocations, a, b, told)
    ensures Conclude(st, 0).world.(log := st.world.log) == st.world
  {
    hide Conclude, SomeSuccess;
    ConcludeFacts(st, 0);
  }

  lemma FailsAt(st: State, k: nat, state: ScheduleState, failures: nat, invocations: nat, a: Mark, b: Mark, told: bool)
    requires k < 2 && Form(st, state, failures, invocations, a, b, told)
    requires (if k == 0 then a else b).pid > 0 && a.pid != b.pid
    ensures Locate(st, (if k == 0 then a else b).pid) == Some((0, k))
  {
    var pid := (if k == 0 then a else b).pid;
    assert st.schedules[0].actions[k].pid == pid && st.schedules[0].actions[1 - k].pid != pid;
    assert IndexOfPid(st.schedules[0].actions, pid, 1) == if k == 1 then Some(1) else None;
    assert IndexOfPid(st.schedules[0].actions, pid, 0) == Some(k);
  }

  lemma CollectsFailure(st: State, k: nat, state: ScheduleState, failures: nat, invocations: nat, a: Mark, b: Mark,
                        told: bool)
    requires k < 2 && Form(st, state, failures, invocations, a, b, told)
    ensures var st1 := Collect(st, 0, k, 1, 0);
            && Form(st1, state, failures, invocations, if k == 0 then FAILED else a, if k == 1 then FAILED else b, told)
            && st1.world.(log := st.world.log) == st.world
            && Continue(E.CFG, st1, 0, k, 0) == st1
  {
    hide Collect;
    CollectFacts(st, 0, k, 1, 0);
  }

  /** Whether something is RUNNING depends on the other action, and nothing has succeeded if that one has not. */
  lemma Survey(st: State, k: nat, state: ScheduleState, failures: nat, invocations: nat, a: Mark, b: Mark, told: bool)
    requires k < 2 && Form(st, state, failures, invocations, a, b, told) && (if k == 0 then a else b) == FAILED
    ensures StillRunning(st.schedules[0]) <==> (if k == 0 then b else a).state == ActRunning
    ensures (if k == 0 then b else a).last != 0 ==> !SomeSuccess(st.schedules[0])
  {
    var acts := st.schedules[0].actions;
    assert acts[1 - k] in acts;
    assert forall x :: x in acts ==> x == acts[0] || x == acts[1];
  }

  /** Both actions fail; both are started again, the first is told to stop, and both fail. */
  function Inputs(): seq<Input> {
    [Fire(E.START, 0), Death(1, Exited(1), 0), Death(2, Exited(1), 0),
     Fire(E.START, 0), Fire(E.STOP, 0), Death(4, Exited(1), 0), Death(3, Exited(1), 0)]
  }

  function Loaded(): State { E.Loaded().(world := World({}, [1, 2, 3, 4], [])) }

  lemma RunSnoc(st: State, xs: seq<Input>, x: Input)
    ensures Run(E.CFG, st, xs + [x]) == Step(E.CFG, Run(E.CFG, st, xs), x)
  {
    assert (xs + [x])[..|xs|] == xs;
  }

  lemma RunSeven(st: State, xs: seq<Input>)
    requires |xs| == 7
    ensures Run(E.CFG, st, xs[..3]) == Step(E.CFG, Step(E.CFG, Step(E.CFG, st, xs[0]), xs[1]), xs[2])
    ensures Run(E.CFG, st, xs) ==
            Step(E.CFG, Step(E.CFG, Step(E.CFG, Step(E.CFG, Run(E.CFG, st, xs[..3]), xs[3]), xs[4]), xs[5]), xs[6])
  {
    hide Step;
    RunNothing(st);
    assert xs[..0] == [];
    forall n | 0 <= n < 7 ensures Run(E.CFG, st, xs[..n + 1]) == Step(E.CFG, Run(E.CFG, st, xs[..n]), xs[n]) {
      assert xs[..n + 1] == xs[..n] + [xs[n]];
      RunSnoc(st, xs[..n], xs[n]);
    }
    assert xs[..0 + 1] == xs[..1] && xs[..1 + 1] == xs[..2] && xs[..6 + 1] == xs;
  }

  lemma RunNothing(st: State)
    ensures Run(E.CFG, st, []) == st
  {
  }

  /** The first run of the two. */
  lemma FirstRun(st: State)
    requires Form(st, Enabled, 0, 0, IDLE, IDLE, false) && Outside(st, {}, [1, 2, 3, 4])
    ensures var xs := Inputs();
            var st' := Step(E.CFG, Step(E.CFG, Step(E.CFG, st, xs[0]), xs[1]), xs[2]);
            Form(st', Enabled, 1, 1, FAILED, FAILED, false) && Outside(st', {}, [3, 4])
  {
    hide Step, Form, Outside;
    var xs := Inputs();
    assert [1, 2] + [3, 4] == [1, 2, 3, 4];
    Starts(st, 0, 0, IDLE, IDLE, 1, 2, [3, 4]);
    var st1 := Step(E.CFG, st, xs[0]);
    Fails(st1, 0, Running, 0, 1, Mark(1, ActRunning, 0), Mark(2, ActRunning, 0), false, {1, 2}, [3, 4]);
    var st2 := Step(E.CFG, st1, xs[1]);
    assert {1, 2} - {1} == {2} && {2} - {2} == {};
    Fails(st2, 1, Running, 0, 1, FAILED, Mark(2, ActRunning, 0), false, {2}, [3, 4]);
  }

  /**
   The second one is concluded when the process of the second action ends, and again when that of the
   first one does.
   */
  lemma SecondRun(st: State)
    requires Form(st, Enabled, 1, 1, FAILED, FAILED, false) && Outside(st, {}, [3, 4])
    ensures var xs := Inputs();
            var st' := Step(E.CFG, Step(E.CFG, Step(E.CFG, Step(E.CFG, st, xs[3]), xs[4]), xs[5]), xs[6]);
            Form(st', Enabled, 3, 2, FAILED, FAILED, true)
  {
    hide Step, Form, Outside;
    var xs := Inputs();
    assert [3, 4] + [] == [3, 4];
    Starts(st, 1, 1, FAILED, FAILED, 3, 4, []);
    var st1 := Step(E.CFG, st, xs[3]);
    Stops(st1, 1, 2, 3, 4, 1, 1, []);
    var st2 := Step(E.CFG, st1, xs[4]);
    Fails(st2, 1, Running, 1, 2, Mark(3, ActSuppressed, 1), Mark(4, ActRunning, 1), true, {3, 4}, []);
    var st3 := Step(E.CFG, st2, xs[5]);
    assert {3, 4} - {4} == {3};
    Fails(st3, 0, Enabled, 2, 2, Mark(3, ActSuppressed, 1), FAILED, true, {3}, []);
  }

  /** Two invocations and three failures. */
  lemma FailuresExceedInvocations()
    ensures var st' := Run(E.CFG, Loaded(), Inputs());
            && Initial(Loaded()) && !QuietAt(E.CFG, Loaded(), 0)
            && |st'.schedules| == 1 && st'.schedules[0].invocations == 2 && st'.schedules[0].failures == 3
  {
    LoadedForm();
    hide Step, Loaded, QuietAt, Initial;
    var st := Loaded();
    FirstRun(st);
    RunSeven(st, Inputs());
    SecondRun(Run(E.CFG, st, Inputs()[..3]));
  }

  lemma LoadedForm()
    ensures Form(Loaded(), Enabled, 0, 0, IDLE, IDLE, false) && Outside(Loaded(), {}, [1, 2, 3, 4])
    ensures Initial(Loaded()) && !QuietAt(E.CFG, Loaded(), 0)
  {
    E.NotQuiet(Loaded());
  }
}

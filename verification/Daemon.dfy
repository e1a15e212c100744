/**
 The reload loop of src/lmapd.c around the sessions of src/runner.c: which sessions arm startup
 events, and why a startup event that has run does not run again after a reload.
 */
module Daemon {
  import opened Model
  import opened Invariants
  import opened Accounting

  /** The daemon flags that outlive a session. */
  datatype Flags = Flags(restart: bool, skipStartup: bool, startupDone: bool)

  /** lmapd_stop, lmapd_restart, or a failure of the event loop itself. */
  datatype Ending = Stopped | Restarted | Failed

  /** One turn of the loop: a configuration, its initial state, what happened, and how it ended. */
  datatype Session = Session(cfg: Config, st: State, xs: seq<Input>, ending: Ending)

  predicate FiresStartup(xs: seq<Input>) { exists x :: x in xs && x.Fire? && x.e.kind == Startup }

  /** lmapd_run arms no startup event when the flag says so. */
  ghost predicate Follows(f: Flags, s: Session) {
    Initial(s.st) && s.st.startupDone == f.startupDone && (f.skipStartup ==> !FiresStartup(s.xs))
  }

  ghost function After(f: Flags, s: Session): Flags {
    var done := Run(s.cfg, s.st, s.xs).startupDone;
    match s.ending
    case Stopped => Flags(false, f.skipStartup, done)
    case Restarted => Flags(true, f.skipStartup || done, done)
    case Failed => Flags(f.restart, f.skipStartup, done)
  }

  ghost function AfterAll(f: Flags, ss: seq<Session>): Flags {
    if ss == [] then f else After(AfterAll(f, ss[..|ss| - 1]), ss[|ss| - 1])
  }

  /** The loop runs another session only while the restart flag is set. */
  ghost predicate Sessions(f: Flags, ss: seq<Session>) {
    forall n :: 0 <= n < |ss| ==> Follows(AfterAll(f, ss[..n]), ss[n]) && (n > 0 ==> AfterAll(f, ss[..n]).restart)
  }

  const FRESH := Flags(false, false, false)

  // ------------------------------------------------------------------ when the flag is set

  /** The start event of an ENABLED schedule: the only way to run it. */
  ghost predicate Begins(s: Schedule, e: Event) { Starts(s, e) && s.state == Enabled }

  lemma ScheduleExecDone(cfg: Config, st: State, i: nat, now: nat)
    requires i < |st.schedules|
    ensures ScheduleExec(cfg, st, i, now).startupDone == st.startupDone
  {
    hide ActionExec;
    var s := st.schedules[i];
    var st2 := CountInvocation(CleanUpTo(st, i, |s.actions|), i, now);
    if s.actions != [] { ActionExecFacts(cfg, st2, i, 0, now); }
    LaunchUpToDone(cfg, st2, i, now, |s.actions|);
  }

  lemma {:induction false} LaunchUpToDone(cfg: Config, st: State, i: nat, now: nat, n: nat)
    requires i < |st.schedules| && n <= |st.schedules[i].actions|
    ensures LaunchUpTo(cfg, st, i, now, n).startupDone == st.startupDone
  {
    hide ActionExec;
    if n > 0 {
      LaunchUpToDone(cfg, st, i, now, n - 1);
      ActionExecFacts(cfg, LaunchUpTo(cfg, st, i, now, n - 1), i, n - 1, now);
    }
  }

  lemma ExecuteOneDone(cfg: Config, st: State, e: Event, now: nat, i: nat)
    requires i < |st.schedules|
    ensures ExecuteOne(cfg, st, e, now, i).startupDone <==>
            st.startupDone || (e.kind == Startup && Begins(st.schedules[i], e))
  {
    hide ScheduleExec;
    ScheduleExecDone(cfg, TakeOver(st, e, now, i), i, now);
  }

  lemma {:induction false} ExecuteCbDone(cfg: Config, st: State, e: Event, now: nat, n: nat)
    requires Inv(st) && n <= |st.schedules|
    ensures ExecuteCb(cfg, st, e, now, n).startupDone <==>
            st.startupDone || (e.kind == Startup && exists i :: 0 <= i < n && Begins(st.schedules[i], e))
  {
    hide ExecuteOne, Begins;
    if n > 0 {
      var st1 := ExecuteCb(cfg, st, e, now, n - 1);
      ExecuteCbDone(cfg, st, e, now, n - 1);
      ExecuteOneDone(cfg, st1, e, now, n - 1);
      ExecuteCbAccounts(cfg, st, e, now, n - 1, n - 1);
    }
  }

  lemma {:induction false} SuppressCbDone(cfg: Config, st: State, e: Event, n: nat)
    requires n <= |st.supps|
    ensures SuppressCb(cfg, st, e, n).startupDone == st.startupDone
  {
    if n > 0 {
      SuppressCbDone(cfg, st, e, n - 1);
      SuppressCbOneDone(cfg, SuppressCb(cfg, st, e, n - 1), e, n - 1);
    }
  }

  lemma SuppressCbOneDone(cfg: Config, st: State, e: Event, k: nat)
    requires k < |st.supps|
    ensures SuppressCbOne(cfg, st, e, k).startupDone == st.startupDone
  {
    hide SuppressUpTo, ReleaseUpTo;
    SuppressUpToFacts(cfg, SetSupp(st, k, SuppActive), st.supps[k].cfg, |st.schedules|);
    var st1 := SuppressCbStart(cfg, st, e, k);
    ReleaseUpToFacts(cfg, SetSupp(st1, k, SuppEnabled), st1.supps[k].cfg, |st1.schedules|);
  }

  lemma ReapDone(cfg: Config, st: State, pid: int, status: WaitStatus, now: nat)
    ensures Reap(cfg, st, pid, status, now).startupDone == st.startupDone
  {
    hide Collect, ActionExec, Conclude;
    if pid > 0 && pid in st.world.children && Locate(st, pid).Some? {
      var (i, j) := Locate(st, pid).value;
      var st0 := st.(world := st.world.(children := st.world.children - {pid}));
      CollectFacts(st0, i, j, StatusOf(status), now);
      var st1 := Collect(st0, i, j, StatusOf(status), now);
      if j + 1 < |st1.schedules[i].actions| { ActionExecFacts(cfg, st1, i, j + 1, now); }
      ConcludeFacts(Continue(cfg, st1, i, j, now), i);
    }
  }

  /** A step sets the flag exactly when a startup event begins some schedule; nothing clears it. */
  lemma StepDone(cfg: Config, st: State, x: Input)
    requires Inv(st)
    ensures Step(cfg, st, x).startupDone <==>
            st.startupDone ||
            (x.Fire? && x.e.kind == Startup &&
             exists i :: 0 <= i < |SuppressCb(cfg, st, x.e, |st.supps|).schedules|
               && Begins(SuppressCb(cfg, st, x.e, |st.supps|).schedules[i], x.e))
  {
    match x {
      case Fire(e, now) =>
        var st1 := SuppressCb(cfg, st, e, |st.supps|);
        SuppressCbDone(cfg, st, e, |st.supps|);
        SuppressCbCalm(cfg, st, e, |st.supps|);
        AllCalmKeeps(st, st1);
        ExecuteCbDone(cfg, st1, e, now, |st1.schedules|);
      case Death(pid, status, now) => ReapDone(cfg, st, pid, status, now);
    }
  }

  // ------------------------------------------------------------------ once for the life of the daemon

  lemma AfterNext(f: Flags, ss: seq<Session>, n: nat)
    requires n < |ss|
    ensures AfterAll(f, ss[..n + 1]) == After(AfterAll(f, ss[..n]), ss[n])
  {
    assert ss[..n + 1][..n] == ss[..n];
  }

  lemma SessionsNext(f: Flags, ss: seq<Session>, n: nat)
    requires n < |ss| && Sessions(f, ss[..n])
    requires Follows(AfterAll(f, ss[..n]), ss[n]) && (n > 0 ==> AfterAll(f, ss[..n]).restart)
    ensures Sessions(f, ss[..n + 1])
  {
    hide Follows, AfterAll;
    var t := ss[..n + 1];
    forall k | 0 <= k < |t| ensures Follows(AfterAll(f, t[..k]), t[k]) && (k > 0 ==> AfterAll(f, t[..k]).restart) {
      assert t[..k] == ss[..k];
      if k < n { assert ss[..n][..k] == ss[..k] && t[k] == ss[..n][k]; }
    }
  }

  /** By the end of the session a startup event has begun a schedule, in this session or before it. */
  ghost predicate RanStartup(s: Session) { Run(s.cfg, s.st, s.xs).startupDone }

  /** lmapd_restart found that a startup event had begun a schedule. */
  ghost predicate RestartsAfterStartup(s: Session) { s.ending == Restarted && RanStartup(s) }

  /** Startup events are skipped exactly after a restart that came once a startup event had begun a schedule. */
  lemma {:induction false} SkipExactly(ss: seq<Session>, n: nat)
    requires n <= |ss|
    ensures AfterAll(FRESH, ss[..n]).skipStartup <==> exists l :: 0 <= l < n && RestartsAfterStartup(ss[l])
  {
    hide AfterAll, Run;
    if n == 0 {
      NoSessions(ss);
    } else {
      SkipExactly(ss, n - 1);
      AfterNext(FRESH, ss, n - 1);
    }
  }

  /** Session l was ended by lmapd_restart, and all of those before session n that came later failed. */
  ghost predicate RestartedAt(ss: seq<Session>, l: nat, n: nat)
    requires n <= |ss|
  {
    l < n && ss[l].ending == Restarted && forall m :: l < m < n ==> ss[m].ending == Failed
  }

  /** Another session takes place exactly if some earlier one was restarted and only failures came after that. */
  lemma {:induction false} RestartExactly(ss: seq<Session>, n: nat)
    requires n <= |ss|
    ensures AfterAll(FRESH, ss[..n]).restart <==> exists l: nat :: RestartedAt(ss, l, n)
  {
    hide AfterAll, Run;
    if n == 0 {
      NoSessions(ss);
    } else {
      RestartExactly(ss, n - 1);
      AfterNext(FRESH, ss, n - 1);
      forall l: nat
        ensures RestartedAt(ss, l, n) <==>
                if l == n - 1 then ss[l].ending == Restarted
                else RestartedAt(ss, l, n - 1) && ss[n - 1].ending == Failed
      {
      }
      if ss[n - 1].ending == Restarted { assert RestartedAt(ss, n - 1, n); }
    }
  }

  lemma {:induction false} DoneInRun(cfg: Config, st: State, xs: seq<Input>)
    requires Initial(st) && st.startupDone
    ensures Run(cfg, st, xs).startupDone
  {
    if xs != [] {
      DoneInRun(cfg, st, xs[..|xs| - 1]);
      Reachable(cfg, st, xs[..|xs| - 1]);
      StepDone(cfg, Run(cfg, st, xs[..|xs| - 1]), xs[|xs| - 1]);
    }
  }

  /** What a startup event has begun stays begun for the life of the daemon. */
  lemma {:induction false} RanStays(ss: seq<Session>, m: nat, n: nat)
    requires Sessions(FRESH, ss) && m <= n < |ss| && RanStartup(ss[m])
    ensures RanStartup(ss[n])
    decreases n
  {
    hide AfterAll, Run;
    if m < n {
      RanStays(ss, m, n - 1);
      AfterNext(FRESH, ss, n - 1);
      assert Follows(AfterAll(FRESH, ss[..n]), ss[n]);
      DoneInRun(ss[n].cfg, ss[n].st, ss[n].xs);
    }
  }

  /**
   The session after ss may fire a startup event, although session m has run one, if and only if
   no session since then ended by lmapd_restart.
   */
  lemma {:induction false} StartupExactly(ss: seq<Session>, m: nat, s: Session)
    requires Sessions(FRESH, ss) && m < |ss| && RanStartup(ss[m]) && !AfterAll(FRESH, ss[..m]).skipStartup
    requires Initial(s.st) && s.st.startupDone == AfterAll(FRESH, ss).startupDone
    ensures AfterAll(FRESH, ss).skipStartup <==> exists l :: m <= l < |ss| && ss[l].ending == Restarted
    ensures Follows(AfterAll(FRESH, ss), s) <==>
            (FiresStartup(s.xs) ==> forall l :: m <= l < |ss| ==> ss[l].ending != Restarted)
  {
    hide AfterAll, RanStartup, Sessions;
    assert ss[..|ss|] == ss;
    SkipExactly(ss, m);
    SkipExactly(ss, |ss|);
    forall l | m <= l < |ss| ensures RestartsAfterStartup(ss[l]) <==> ss[l].ending == Restarted { RanStays(ss, m, l); }
  }

  /** Once a startup event has begun a schedule, no session after the next restart fires a startup event. */
  lemma {:induction false} StartupOnce(ss: seq<Session>, m: nat, l: nat, n: nat)
    requires Sessions(FRESH, ss) && m <= l < n < |ss|
    requires RanStartup(ss[m]) && ss[l].ending == Restarted
    ensures !FiresStartup(ss[n].xs)
  {
    hide AfterAll, RanStartup;
    RanStays(ss, m, l);
    assert RestartsAfterStartup(ss[l]);
    SkipExactly(ss, n);
    assert Follows(AfterAll(FRESH, ss[..n]), ss[n]);
  }

  // ------------------------------------------------------------------ a failing event loop

  const START_EVENT := Event("e", Startup, 0)

  function OneSchedule(done: bool): State {
    State([Schedule(ScheduleCfg("s", "e", "", Sequential, []), [], Enabled, false, 0, 0, 0, 0, 0, 0, 0)], [],
      World({}, [], []), done)
  }

  const NO_CONFIG := Config([], [], {})

  /** Restarted before the startup event fires; it fires after the reload, and then the event loop fails. */
  function FailingSessions(): seq<Session> {
    [Session(NO_CONFIG, OneSchedule(false), [], Restarted),
     Session(NO_CONFIG, OneSchedule(false), [Fire(START_EVENT, 0)], Failed),
     Session(NO_CONFIG, OneSchedule(true), [Fire(START_EVENT, 0)], Stopped)]
  }

  lemma FiresOnce(done: bool)
    ensures Run(NO_CONFIG, OneSchedule(done), [Fire(START_EVENT, 0)]).startupDone
    ensures Run(NO_CONFIG, OneSchedule(done), []) == OneSchedule(done)
    ensures Initial(OneSchedule(done))
  {
    var st := OneSchedule(done);
    var x := Fire(START_EVENT, 0);
    assert [x][..0] == [];
    InitialInv(st);
    StepDone(NO_CONFIG, st, x);
    assert SuppressCb(NO_CONFIG, st, START_EVENT, 0) == st;
    assert Begins(st.schedules[0], START_EVENT);
  }

  lemma DoneField()
    ensures OneSchedule(false).startupDone == false && OneSchedule(true).startupDone == true
  {
  }

  /**
   The restart flag is still set when the event loop fails; no restart has come since the startup
   event ran, and it runs a second time.
   */
  lemma FailureRepeatsStartup()
    ensures var ss := FailingSessions();
            Sessions(FRESH, ss) && RanStartup(ss[1]) && FiresStartup(ss[2].xs) && ss[1].ending == Failed
  {
    var ss := FailingSessions();
    FiresOnce(false);
    FiresOnce(true);
    hide Run, OneSchedule, AfterAll, Initial, Sessions;
    NoSessions(ss);
    AfterNext(FRESH, ss, 0);
    DoneField();
    assert !FiresStartup(ss[0].xs);
    SessionsNext(FRESH, ss, 0);
    assert AfterAll(FRESH, ss[..1]) == Flags(true, false, false);
    SessionsNext(FRESH, ss, 1);
    AfterNext(FRESH, ss, 1);
    assert AfterAll(FRESH, ss[..2]).restart && AfterAll(FRESH, ss[..2]).startupDone;
    assert ss[..2][..1] == ss[..1];
    StartupExactly(ss[..2], 1, ss[2]);
    assert Fire(START_EVENT, 0) in ss[2].xs;
    SessionsNext(FRESH, ss, 2);
    assert ss[..3] == ss;
  }

  // ------------------------------------------------------------------ the loop

  class Lmapd {
    var restart: bool
    var skipStartup: bool
    var startupDone: bool

    function View(): Flags
      reads this
    {
      Flags(restart, skipStartup, startupDone)
    }

    constructor ()
      ensures View() == FRESH
    {
      restart, skipStartup, startupDone := false, false, false;
    }

    /** lmapd_stop */
    method Stop()
      modifies this`restart
      ensures !restart
    {
      restart := false;
    }

    /** lmapd_restart */
    method Restart()
      modifies this`restart, this`skipStartup
      ensures restart && skipStartup == (old(skipStartup) || startupDone)
    {
      restart := true;
      if startupDone { skipStartup := true; }
    }

    /** lmapd_run on what the environment does to it. */
    method RunSession(ghost s: Session, done: bool, ending: Ending)
      requires Follows(View(), s) && ending == s.ending && done == Run(s.cfg, s.st, s.xs).startupDone
      modifies this
      ensures View() == After(old(View()), s)
    {
      startupDone := done;
      match ending {
        case Stopped => Stop();
        case Restarted => Restart();
        case Failed =>
      }
    }
  }

  lemma NoSessions(ss: seq<Session>)
    ensures AfterAll(FRESH, ss[..0]) == FRESH && Sessions(FRESH, ss[..0])
  {
  }

  /** The do-while loop of main over the sessions that are to come; used says how many took place. */
  method Loop(dones: seq<bool>, endings: seq<Ending>, ghost ss: seq<Session>) returns (used: nat)
    requires |dones| == |endings| == |ss| > 0
    requires forall n :: 0 <= n < |ss| ==>
               Follows(AfterAll(FRESH, ss[..n]), ss[n]) && endings[n] == ss[n].ending
                 && dones[n] == Run(ss[n].cfg, ss[n].st, ss[n].xs).startupDone
    ensures 0 < used <= |ss| && Sessions(FRESH, ss[..used])
    ensures used < |ss| ==> !AfterAll(FRESH, ss[..used]).restart
  {
    hide Follows, After, AfterAll, Sessions;
    var d := new Lmapd();
    used := 0;
    NoSessions(ss);
    while used == 0 || (used < |dones| && d.restart)
      invariant fresh(d) && used <= |ss| && d.View() == AfterAll(FRESH, ss[..used])
      invariant Sessions(FRESH, ss[..used])
      decreases |ss| - used
    {
      SessionsNext(FRESH, ss, used);
      AfterNext(FRESH, ss, used);
      d.RunSession(ss[used], dones[used], endings[used]);
      used := used + 1;
    }
  }
}

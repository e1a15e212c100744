/**
 The runner with its linked records, updated in place.  Every method is proved to change the
 abstract state exactly as the function of module Model says.
 */
module Runner {
  import opened Common
  import opened Model
  import opened Invariants
  import opened Tasks
  import opened Termination

  class ActionNode {
    const cfg: ActionCfg
    var state: ActionState
    var deferred: bool
    var pid: int
    var lastInvocation: int
    var lastCompletion: int
    var lastStatus: int
    var lastFailedCompletion: int
    var lastFailedStatus: int
    var invocations: nat
    var failures: nat
    var suppressions: nat
    var overlaps: nat
    var active: nat

    function View(): Action
      reads this
    {
      Action(cfg, state, deferred, pid, lastInvocation, lastCompletion, lastStatus, lastFailedCompletion,
        lastFailedStatus,
             invocations, failures, suppressions, overlaps, active)
    }

    constructor (cfg: ActionCfg, enabled: bool)
      ensures this.cfg == cfg && InitialAction(View())
    {
      this.cfg := cfg;
      state := if enabled then ActEnabled else ActDisabled;
      deferred, pid, active := false, 0, 0;
      lastInvocation, lastCompletion, lastStatus, lastFailedCompletion, lastFailedStatus := 0, 0, 0, 0, 0;
      invocations, failures, suppressions, overlaps := 0, 0, 0, 0;
    }

    method Start(p: int, now: nat)
      modifies this
      ensures View() == Started(old(View()), p, now)
    {
      pid := p;
      lastInvocation := now;
      state := ActRunning;
      invocations := invocations + 1;
    }

    method Complete(status: int, now: nat)
      modifies this
      ensures View() == Completed(old(View()), status, now)
    {
      pid := 0;
      state := ActEnabled;
      lastCompletion := now;
      lastStatus := status;
      if lastStatus != 0 {
        lastFailedCompletion := lastCompletion;
        lastFailedStatus := lastStatus;
        failures := failures + 1;
      }
    }

    method Hush(scheduleStops: bool, stops: bool)
      modifies this
      ensures View() == HushAction(old(View()), scheduleStops, stops)
    {
      if state == ActEnabled {
        state := ActSuppressed;
      } else if state == ActRunning && !scheduleStops && stops {
        state := ActSuppressed;
      }
      active := active + 1;
    }

    method Unhush()
      modifies this
      ensures View() == UnhushAction(old(View()))
    {
      if active > 0 { active := active - 1; }
      if active == 0 && state == ActSuppressed { state := ActEnabled; }
    }
  }

  class ScheduleNode {
    const cfg: ScheduleCfg
    const actions: seq<ActionNode>
    var state: ScheduleState
    var stop: bool
    var cycleNumber: int
    var lastInvocation: int
    var invocations: nat
    var failures: nat
    var suppressions: nat
    var overlaps: nat
    var active: nat

    function View(): (s: Schedule)
      reads this, actions
      ensures s.cfg == cfg && |s.actions| == |actions|
      ensures forall j :: 0 <= j < |actions| ==> s.actions[j] == actions[j].View()
      ensures s.state == state && s.stop == stop && s.active == active
    {
      Schedule(cfg, Views(actions), state, stop, cycleNumber, lastInvocation, invocations, failures, suppressions,
        overlaps, active)
    }

    static function Views(nodes: seq<ActionNode>): (r: seq<Action>)
      reads nodes
      ensures |r| == |nodes| && forall j :: 0 <= j < |nodes| ==> r[j] == nodes[j].View()
    {
      if nodes == [] then [] else Views(nodes[..|nodes| - 1]) + [nodes[|nodes| - 1].View()]
    }

    constructor (cfg: ScheduleCfg, actions: seq<ActionNode>, enabled: bool)
      requires forall a :: a in actions ==> InitialAction(a.View())
      ensures this.cfg == cfg && this.actions == actions && InitialSchedule(View())
    {
      this.cfg := cfg;
      this.actions := actions;
      state := if enabled then Enabled else Disabled;
      stop, cycleNumber, lastInvocation, active := false, 0, 0, 0;
      invocations, failures, suppressions, overlaps := 0, 0, 0, 0;
    }

    method Hush(stops: bool)
      modifies this
      ensures unchanged(actions) && View() == HushSchedule(old(View()), stops)
    {
      if state == Enabled { state := Suppressed; }
      if stops { stop := true; }
      active := active + 1;
    }

    method Unhush()
      modifies this
      ensures unchanged(actions) && View() == UnhushSchedule(old(View()))
    {
      if active > 0 { active := active - 1; }
      if active == 0 && state == Suppressed { state := Enabled; }
    }
  }

  class SuppNode {
    const cfg: SuppCfg
    var state: SuppState

    function View(): Supp
      reads this
    {
      Supp(cfg, state)
    }

    constructor (cfg: SuppCfg, enabled: bool)
      ensures this.cfg == cfg && View().state != SuppActive
    {
      this.cfg := cfg;
      state := if enabled then SuppEnabled else SuppDisabled;
    }
  }

  class Runner {
    const cfg: Config
    const schedules: seq<ScheduleNode>
    const supps: seq<SuppNode>
    var startupDone: bool
    var children: set<int>
    var forks: seq<int>
    var log: seq<Op>

    /** No record is linked twice. */
    ghost predicate Valid() {
      && (forall i, k :: 0 <= i < |schedules| && 0 <= k < |schedules| && schedules[i] == schedules[k] ==> i == k)
      && (forall i, k :: 0 <= i < |supps| && 0 <= k < |supps| && supps[i] == supps[k] ==> i == k)
      && (forall i, j, k, l ::
            (0 <= i < |schedules| && 0 <= k < |schedules| && 0 <= j < |schedules[i].actions|
              && 0 <= l < |schedules[k].actions|
             && schedules[i].actions[j] == schedules[k].actions[l]) ==> i == k && j == l)
    }

    ghost predicate Has(i: nat, j: nat) { i < |schedules| && j < |schedules[i].actions| }

    static ghost function Nodes(scheds: seq<ScheduleNode>): set<ActionNode> {
      set k, l | 0 <= k < |scheds| && 0 <= l < |scheds[k].actions| :: scheds[k].actions[l]
    }

    static function ScheduleViews(nodes: seq<ScheduleNode>): (r: seq<Schedule>)
      reads nodes, Nodes(nodes)
      ensures |r| == |nodes| && forall i :: 0 <= i < |nodes| ==> r[i] == nodes[i].View()
    {
      if nodes == [] then []
      else
        var last := nodes[|nodes| - 1];
        assert last in nodes && forall l :: 0 <= l < |last.actions| ==> last.actions[l] in Nodes(nodes);
        ScheduleViews(nodes[..|nodes| - 1]) + [last.View()]
    }

    static function SuppViews(nodes: seq<SuppNode>): (r: seq<Supp>)
      reads nodes
      ensures |r| == |nodes| && forall i :: 0 <= i < |nodes| ==> r[i] == nodes[i].View()
    {
      if nodes == [] then [] else SuppViews(nodes[..|nodes| - 1]) + [nodes[|nodes| - 1].View()]
    }

    function View(): (st: State)
      reads this, schedules, Nodes(schedules), supps
      ensures |st.schedules| == |schedules|
              && (forall i :: 0 <= i < |schedules| ==> st.schedules[i] == schedules[i].View())
      ensures |st.supps| == |supps| && (forall k :: 0 <= k < |supps| ==> st.supps[k] == supps[k].View())
    {
      State(ScheduleViews(schedules), SuppViews(supps), World(children, forks, log), startupDone)
    }

    constructor (cfg: Config, schedules: seq<ScheduleNode>, supps: seq<SuppNode>, children: set<int>, forks: seq<int>,
                 startupDone: bool)
      requires forall i, k :: 0 <= i < |schedules| && 0 <= k < |schedules| && schedules[i] == schedules[k] ==> i == k
      requires forall i, k :: 0 <= i < |supps| && 0 <= k < |supps| && supps[i] == supps[k] ==> i == k
      requires forall i, j, k, l ::
                 (0 <= i < |schedules| && 0 <= k < |schedules| && 0 <= j < |schedules[i].actions|
                   && 0 <= l < |schedules[k].actions|
                  && schedules[i].actions[j] == schedules[k].actions[l]) ==> i == k && j == l
      requires forall i :: 0 <= i < |schedules| ==> InitialSchedule(schedules[i].View())
      requires forall k :: 0 <= k < |supps| ==> supps[k].state != SuppActive
      requires forall p :: p in children ==> p > 0
      ensures Valid() && Initial(View()) && this.cfg == cfg && this.schedules == schedules && this.supps == supps
      ensures View().startupDone == startupDone && View().world == World(children, forks, [])
    {
      this.cfg := cfg;
      this.schedules := schedules;
      this.supps := supps;
      this.startupDone := startupDone;
      this.children := children;
      this.forks := forks;
      this.log := [];
    }

    // ---------------------------------------------------------------- glue between records and values

    /** Every record but action j of schedule i is as it was. */
    twostate predicate OthersUnchanged(i: nat, j: nat)
      reads schedules, Nodes(schedules), supps
    {
      && (forall k :: 0 <= k < |schedules| ==> unchanged(schedules[k]))
      && (forall k, l :: 0 <= k < |schedules| && 0 <= l < |schedules[k].actions| && (k != i || l != j) ==>
         unchanged(schedules[k].actions[l]))
      && (forall k :: 0 <= k < |supps| ==> unchanged(supps[k]))
    }

    /** At most the fields of action j of schedule i changed. */
    twostate lemma ActionChanged(at: (nat, nat))
      requires Valid() && Has(at.0, at.1) && OthersUnchanged(at.0, at.1)
      ensures View().(world := old(View()).world, startupDone := old(View()).startupDone)
              == SetAction(old(View()), at.0, at.1, schedules[at.0].actions[at.1].View())
    {
      var (i, j) := at;
      var a, b := old(View()), View();
      assert b.schedules[i].actions == a.schedules[i].actions[j := schedules[i].actions[j].View()];
      forall k | 0 <= k < |schedules| && k != i ensures b.schedules[k] == a.schedules[k] {
        assert b.schedules[k].actions == a.schedules[k].actions;
      }
      assert b.schedules == a.schedules[i := b.schedules[i]];
      assert b.supps == a.supps;
    }

    /** At most the own fields of schedule i changed. */
    twostate lemma ScheduleChanged(i: nat)
      requires Valid() && i < |schedules|
      requires forall k :: 0 <= k < |schedules| && k != i ==> unchanged(schedules[k])
      requires forall k, l :: 0 <= k < |schedules| && 0 <= l < |schedules[k].actions| ==>
               unchanged(schedules[k].actions[l])
      requires forall k :: 0 <= k < |supps| ==> unchanged(supps[k])
      ensures View().schedules[i].actions == old(View()).schedules[i].actions
      ensures View().(world := old(View()).world, startupDone := old(View()).startupDone) ==
              SetSchedule(old(View()), i, schedules[i].View())
    {
      var a, b := old(View()), View();
      forall k | 0 <= k < |schedules| ensures b.schedules[k].actions == a.schedules[k].actions {
        assert b.schedules[k].actions == a.schedules[k].actions;
      }
      assert b.schedules == a.schedules[i := b.schedules[i]];
      assert b.supps == a.supps;
    }

    /** No record of the configuration changed. */
    twostate lemma NothingChanged()
      requires forall k :: 0 <= k < |schedules| ==> unchanged(schedules[k])
      requires forall k, l :: 0 <= k < |schedules| && 0 <= l < |schedules[k].actions| ==>
               unchanged(schedules[k].actions[l])
      requires forall k :: 0 <= k < |supps| ==> unchanged(supps[k])
      ensures View().schedules == old(View()).schedules && View().supps == old(View()).supps
    {
      var a, b := old(View()), View();
      forall k | 0 <= k < |schedules| ensures b.schedules[k] == a.schedules[k] {
        assert b.schedules[k].actions == a.schedules[k].actions;
      }
      assert b.schedules == a.schedules;
      assert b.supps == a.supps;
    }

    method Record(op: Op)
      modifies this
      ensures View() == Model.Log(old(View()), op)
    {
      log := log + [op];
      NothingChanged();
    }

    /** fork: a failure, or a pid that no unreaped child has. */
    method Fork() returns (pid: int)
      modifies this
      ensures pid == ForkPid(old(View()).world)
      ensures View() == old(View()).(world := AfterFork(old(View()).world))
    {
      pid := 0;
      if forks != [] {
        if forks[0] > 0 && forks[0] !in children {
          pid := forks[0];
          children := children + {pid};
        }
        forks := forks[1..];
      }
      NothingChanged();
    }

    // ---------------------------------------------------------------- lookups

    method FindTask(name: string) returns (r: Option<Task>)
      ensures r == Model.FindTask(cfg.tasks, name)
    {
      for k := 0 to |cfg.tasks|
        invariant Model.FindTask(cfg.tasks[k..], name) == Model.FindTask(cfg.tasks, name)
      {
        if cfg.tasks[k].name != "" && cfg.tasks[k].name == name { return Some(cfg.tasks[k]); }
        assert cfg.tasks[k..][1..] == cfg.tasks[k + 1..];
      }
      r := None;
    }

    method HasCapability(program: string) returns (r: bool)
      ensures r == Capable(cfg.capabilities, program)
    {
      for k := 0 to |cfg.capabilities|
        invariant forall m :: 0 <= m < k ==> cfg.capabilities[m].program != Some(program)
      {
        if cfg.capabilities[k].program == Some(program) { return true; }
      }
      r := false;
    }

    method TagsMatch(patterns: seq<string>, tags: seq<string>) returns (r: bool)
      ensures r == BigTagMatch(cfg.fnmatch, patterns, tags)
    {
      for m := 0 to |patterns|
        invariant forall x, y :: 0 <= x < m && 0 <= y < |tags| ==> (patterns[x], tags[y]) !in cfg.fnmatch
      {
        for t := 0 to |tags|
          invariant forall y :: 0 <= y < t ==> (patterns[m], tags[y]) !in cfg.fnmatch
        {
          if (patterns[m], tags[t]) in cfg.fnmatch { return true; }
        }
      }
      r := false;
    }

    /**
     The argument vector: the program, the options of the task, those of the action, and nothing
     behind them.  It is given up when an option is met with the limit already reached.
     */
    method BuildArgv(task: Task, program: string, options: seq<Opt>) returns (ok: bool, argv: array<string>)
      ensures ok <==> ArgvAfter(options, |options|, ArgvAfter(task.options, |task.options|, Some(0))).Some?
      ensures ok <==> forall k :: 0 <= k < |task.options + options| ==>
              |Args((task.options + options)[..k])| < 252
      ensures fresh(argv) && argv.Length == 256 && (ok ==> |Args(task.options + options)| + 1 < argv.Length)
      ensures ok ==> var args := [program] + Args(task.options + options);
                     argv[..|args|] == args && forall k :: |args| <= k < argv.Length ==> argv[k] == ""
    {
      hide Args, ArgvAfter;
      argv := new string[ARGV_LIMIT + 4](_ => "");
      argv[0] := program;
      var n := 0;
      ghost var start := ArgvAfter(task.options, |task.options|, Some(0));
      assert argv[..1] == [program];
      ok, n := AddOptions(argv, task.options, 0, Some(0), [program]);
      if ok {
        ok, n := AddOptions(argv, options, n, start, [program] + Args(task.options));
      } else {
        NoneAfter(options, |options|);
      }
      ArgsJoin(task.options, options);
      assert [program] + Args(task.options) + Args(options) == [program] + (Args(task.options) + Args(options));
      Counted(task.options, options);
    }

    method AddOptions(argv: array<string>, options: seq<Opt>, first: nat, ghost start: Option<nat>,
                      ghost before: seq<string>)
      returns (ok: bool, n: nat)
      requires argv.Length == ARGV_LIMIT + 4 && start == Some(first) && first <= ARGV_LIMIT + 1
      requires Filled(argv, first, before)
      modifies argv
      ensures ok <==> ArgvAfter(options, |options|, start).Some?
      ensures ok ==> ArgvAfter(options, |options|, start) == Some(n) && n <= ARGV_LIMIT + 1
      ensures ok ==> Filled(argv, n, before + Args(options))
    {
      hide Args, ArgvAfter;
      n := first;
      ArgsNone(options, start);
      for k := 0 to |options|
        invariant n <= ARGV_LIMIT + 1 && ArgvAfter(options, k, start) == Some(n)
        invariant Filled(argv, n, before + Args(options[..k]))
      {
        if n >= ARGV_LIMIT {
          Overflow(options, k, |options|, start);
          return false, n;
        }
        ArgsNext(options, k, start);
        ghost var args := before + Args(options[..k]);
        if options[k].name.Some? { n := PutArg(argv, n, options[k].name.value, args); }
        args := args + (if options[k].name.Some? then [options[k].name.value] else []);
        if options[k].value.Some? { n := PutArg(argv, n, options[k].value.value, args); }
        args := args + (if options[k].value.Some? then [options[k].value.value] else []);
        assert args == before + Args(options[..k + 1]);
      }
      assert options[..|options|] == options;
      ok := true;
    }

    /** The arguments stand in the vector up to index n, and nothing behind them. */
    ghost predicate Filled(argv: array<string>, n: nat, args: seq<string>)
      reads argv
    {
      n + 1 == |args| < argv.Length && argv[..n + 1] == args && forall k :: n < k < argv.Length ==> argv[k] == ""
    }

    method PutArg(argv: array<string>, n: nat, x: string, ghost args: seq<string>) returns (m: nat)
      requires Filled(argv, n, args) && n + 2 < argv.Length
      modifies argv
      ensures m == n + 1 && Filled(argv, m, args + [x])
    {
      m := n + 1;
      argv[m] := x;
      assert argv[..m + 1] == argv[..n + 1] + [x];
    }

    // ---------------------------------------------------------------- action_exec, schedule_exec

    method CountSuppression(i: nat, j: nat)
      requires Valid() && Has(i, j)
      modifies schedules[i].actions[j]
      ensures View() == SetAction(old(View()), i, j, var a := old(View()).schedules[i].actions[j];
              a.(suppressions := a.suppressions + 1))
    {
      schedules[i].actions[j].suppressions := schedules[i].actions[j].suppressions + 1;
      ActionChanged((i, j));
    }

    method CountOverlap(i: nat, j: nat)
      requires Valid() && Has(i, j)
      modifies schedules[i].actions[j]
      ensures View() == SetAction(old(View()), i, j, var a := old(View()).schedules[i].actions[j];
              a.(overlaps := a.overlaps + 1))
    {
      schedules[i].actions[j].overlaps := schedules[i].actions[j].overlaps + 1;
      ActionChanged((i, j));
    }

    method ActionExec(i: nat, j: nat, now: nat) returns (rc: int)
      requires Valid() && Has(i, j)
      modifies this, schedules[i].actions[j]
      ensures View() == Model.ActionExec(cfg, old(View()), i, j, now).st
              && rc == Model.ActionExec(cfg, old(View()), i, j, now).rc
    {
      var a := schedules[i].actions[j];
      assert View().schedules[i].actions[j] == a.View();
      rc := 0;
      if a.cfg.name != "" && a.cfg.task.Some? && a.cfg.workspace {
        if a.state == ActSuppressed {
          CountSuppression(i, j);
        } else if a.state != ActDisabled {
          rc := RunTask(i, j, now);
        }
      }
    }

    method CheckTask(a: ActionCfg) returns (ok: bool, task: Option<Task>)
      ensures ok == Permitted(cfg, a)
      ensures ok ==> task == Model.FindTask(cfg.tasks, a.task.value) && task.Some?
    {
      ok, task := false, None;
      if a.task.Some? {
        task := FindTask(a.task.value);
        if task.Some? && task.value.program.Some? { ok := HasCapability(task.value.program.value); }
      }
    }

    method CheckArguments(a: ActionCfg, task: Task) returns (ok: bool, argv: array<string>)
      requires Permitted(cfg, a) && Model.FindTask(cfg.tasks, a.task.value) == Some(task)
      ensures ok == ArgsFit(cfg, a)
      ensures ok ==> var args := [task.program.value] + Args(task.options + a.options);
                     |args| < argv.Length && argv[..|args|] == args
      ensures View() == old(View())
    {
      ok, argv := BuildArgv(task, task.program.value, a.options);
      NothingChanged();
    }

    /** The part of action_exec for an action that is neither DISABLED nor SUPPRESSED. */
    method RunTask(i: nat, j: nat, now: nat) returns (rc: int)
      requires Valid() && Has(i, j)
      modifies this, schedules[i].actions[j]
      ensures View() == Model.RunTask(cfg, old(View()), i, j, now).st
              && rc == Model.RunTask(cfg, old(View()), i, j, now).rc
    {
      hide Permitted, Attempt;
      var a := schedules[i].actions[j];
      assert View().schedules[i].actions[j] == a.View();
      ghost var st := View();
      var permitted, task := CheckTask(a.cfg);
      assert View() == st;
      rc := -1;
      if permitted { rc := TryTask(i, j, task.value, now); }
    }

    method TryTask(i: nat, j: nat, task: Task, now: nat) returns (rc: int)
      requires Valid() && Has(i, j)
      requires var a := View().schedules[i].actions[j].cfg;
               Permitted(cfg, a) && Model.FindTask(cfg.tasks, a.task.value) == Some(task)
      modifies this, schedules[i].actions[j]
      ensures View() == Attempt(cfg, old(View()), i, j, now).st && rc == Attempt(cfg, old(View()), i, j, now).rc
    {
      hide Model.Spawn, Permitted, ArgsFit;
      var a := schedules[i].actions[j];
      assert View().schedules[i].actions[j] == a.View();
      rc := -1;
      if a.pid != 0 {
        CountOverlap(i, j);
      } else {
        ghost var st := View();
        var fits, argv := CheckArguments(a.cfg, task);
        assert View() == st;
        if fits { rc := Spawn(i, j, now); }
      }
    }

    method Spawn(i: nat, j: nat, now: nat) returns (rc: int)
      requires Valid() && Has(i, j)
      modifies this, schedules[i].actions[j]
      ensures View() == Model.Spawn(old(View()), i, j, now).st && rc == Model.Spawn(old(View()), i, j, now).rc
    {
      var pid := Fork();
      if pid == 0 { return -1; }
      label forked:
      schedules[i].actions[j].Start(pid, now);
      ActionChanged@forked((i, j));
      Record(Launched(i, j, pid));
      rc := 1;
    }

    method SetState(i: nat, x: ScheduleState)
      requires Valid() && i < |schedules|
      modifies schedules[i]
      ensures View() == SetSchedule(old(View()), i, old(View()).schedules[i].(state := x))
    {
      schedules[i].state := x;
      ScheduleChanged(i);
    }

    method LaunchAt(i: nat, j: nat, now: nat)
      requires Valid() && Has(i, j)
      modifies this, schedules[i], schedules[i].actions[j]
      ensures View() == Model.LaunchAt(cfg, old(View()), i, j, now)
    {
      var rc := ActionExec(i, j, now);
      if rc == 1 { SetState(i, Running); }
    }

    method ScheduleExec(i: nat, now: nat)
      requires Valid() && i < |schedules|
      modifies this, schedules[i], schedules[i].actions
      ensures View() == Model.ScheduleExec(cfg, old(View()), i, now)
    {
      var s := schedules[i];
      if s.cfg.name == "" { return; }
      CleanAll(i);
      match s.cfg.mode {
        case Sequential =>
          CountInvocation(i, now);
          if s.actions != [] { LaunchAt(i, 0, now); }
        case Parallel =>
          CountInvocation(i, now);
          LaunchAll(i, now);
        case Pipelined =>
          SetState(i, Disabled);
      }
    }

    method CleanAll(i: nat)
      requires i < |schedules|
      modifies this
      ensures View() == CleanUpTo(old(View()), i, |schedules[i].actions|)
    {
      for j := 0 to |schedules[i].actions|
        invariant View() == CleanUpTo(old(View()), i, j)
      {
        Record(ActionCleaned(i, j));
      }
    }

    /** The first n actions have been tried, starting from st. */
    ghost predicate LaunchedTo(st: State, i: nat, now: nat, n: nat)
      reads this, schedules, Nodes(schedules), supps
    {
      && i < |schedules| == |st.schedules| && |st.schedules[i].actions| == |schedules[i].actions|
         && n <= |schedules[i].actions|
      && View() == LaunchUpTo(cfg, st, i, now, n)
    }

    lemma NoneLaunched(i: nat, now: nat)
      requires i < |schedules|
      ensures LaunchedTo(View(), i, now, 0)
    {
    }

    method LaunchAll(i: nat, now: nat)
      requires Valid() && i < |schedules|
      modifies this, schedules[i], schedules[i].actions
      ensures LaunchedTo(old(View()), i, now, |schedules[i].actions|)
    {
      hide LaunchedTo, LaunchUpTo, Valid;
      ghost var st := View();
      NoneLaunched(i, now);
      for j := 0 to |schedules[i].actions|
        invariant LaunchedTo(st, i, now, j)
      {
        LaunchNext(st, i, j, now);
      }
    }

    method LaunchNext(ghost st: State, i: nat, j: nat, now: nat)
      requires Valid() && Has(i, j) && LaunchedTo(st, i, now, j)
      modifies this, schedules[i], schedules[i].actions[j]
      ensures LaunchedTo(st, i, now, j + 1)
    {
      LaunchAt(i, j, now);
    }

    method CountInvocation(i: nat, now: nat)
      requires Valid() && i < |schedules|
      modifies this, schedules[i]
      ensures View() == Model.CountInvocation(old(View()), i, now)
    {
      hide Invoke, Valid;
      MarkInvocation(i, now);
      Record(Invoked(i));
    }

    method MarkInvocation(i: nat, now: nat)
      requires Valid() && i < |schedules|
      modifies schedules[i]
      ensures View() == SetSchedule(old(View()), i, Invoke(old(View()).schedules[i], now))
    {
      schedules[i].lastInvocation := now;
      schedules[i].invocations := schedules[i].invocations + 1;
      ScheduleChanged(i);
    }

    // ---------------------------------------------------------------- action_kill, schedule_kill

    method ActionKill(i: nat, j: nat)
      requires Valid() && Has(i, j)
      modifies this
      ensures View() == KillAction(old(View()), i, j)
    {
      var a := schedules[i].actions[j];
      assert View().schedules[i].actions[j] == a.View();
      if a.cfg.name != "" && a.state == ActRunning && a.pid != 0 { Record(Killed(a.pid)); }
    }

    method ScheduleKill(i: nat)
      requires Valid() && i < |schedules|
      modifies this
      ensures View() == Model.ScheduleKill(old(View()), i)
    {
      if schedules[i].cfg.name == "" { return; }
      KillAll(i);
    }

    /** The first n actions of schedule i have been signalled, starting from st. */
    ghost predicate KilledTo(st: State, i: nat, n: nat)
      reads this, schedules, Nodes(schedules), supps
    {
      && i < |schedules| == |st.schedules| && n <= |schedules[i].actions| == |st.schedules[i].actions|
      && View() == KillUpTo(st, i, n)
    }

    lemma NoneKilled(i: nat)
      requires i < |schedules|
      ensures KilledTo(View(), i, 0)
    {
    }

    method KillNext(ghost st: State, i: nat, j: nat)
      requires Valid() && Has(i, j) && KilledTo(st, i, j)
      modifies this
      ensures KilledTo(st, i, j + 1)
    {
      hide KillAction;
      ActionKill(i, j);
    }

    method KillAll(i: nat)
      requires Valid() && i < |schedules|
      modifies this
      ensures KilledTo(old(View()), i, |schedules[i].actions|)
    {
      hide KilledTo, KillUpTo, Valid;
      ghost var st := View();
      NoneKilled(i);
      for j := 0 to |schedules[i].actions|
        invariant KilledTo(st, i, j)
      {
        KillNext(st, i, j);
      }
    }

    // ---------------------------------------------------------------- suppression_start, suppression_end

    method SuppressSchedule(i: nat, sup: SuppCfg)
      requires Valid() && i < |schedules|
      modifies schedules[i]
      ensures View() == SetSchedule(old(View()), i, Model.SuppressSchedule(cfg, old(View()).schedules[i], sup))
    {
      var m := TagsMatch(sup.match_, schedules[i].cfg.suppressionTags);
      if m { schedules[i].Hush(sup.stop); }
      ScheduleChanged(i);
    }

    method SuppressAction(i: nat, j: nat, sup: SuppCfg)
      requires Valid() && Has(i, j)
      modifies this, schedules[i].actions[j]
      ensures View() == SuppressAt(cfg, old(View()), sup, i, j)
    {
      hide HushAction, StopAt;
      var a := schedules[i].actions[j];
      assert View().schedules[i].actions[j] == a.View();
      if a.state != ActDisabled {
        var m := TagsMatch(sup.match_, a.cfg.suppressionTags);
        assert View() == old(View());
        StopRunning(i, j, sup, m);
        HushIf(i, j, m, schedules[i].stop, sup.stop);
      }
    }

    method StopRunning(i: nat, j: nat, sup: SuppCfg, m: bool)
      requires Valid() && Has(i, j)
      requires m == BigTagMatch(cfg.fnmatch, sup.match_, schedules[i].actions[j].cfg.suppressionTags)
      modifies this
      ensures View() == StopAt(cfg, old(View()), sup, i, j)
    {
      hide BigTagMatch, KillAction;
      var s, a := schedules[i], schedules[i].actions[j];
      assert View().schedules[i].actions[j] == a.View();
      if s.stop || (m && a.state == ActRunning && sup.stop) { ActionKill(i, j); }
    }

    method HushIf(i: nat, j: nat, m: bool, scheduleStops: bool, stops: bool)
      requires Valid() && Has(i, j)
      modifies schedules[i].actions[j]
      ensures var a := old(View()).schedules[i].actions[j];
              View() == SetAction(old(View()), i, j, if m then HushAction(a, scheduleStops, stops) else a)
    {
      if m { schedules[i].actions[j].Hush(scheduleStops, stops); }
      ActionChanged((i, j));
    }

    method SuppressOne(i: nat, sup: SuppCfg)
      requires Valid() && i < |schedules|
      modifies this, schedules[i], schedules[i].actions
      ensures View() == Model.SuppressOne(cfg, old(View()), sup, i)
    {
      if schedules[i].state == Disabled { return; }
      SuppressSchedule(i, sup);
      SuppressAll(i, sup);
    }

    /** The first n actions of schedule i have been told of the suppression, starting from st. */
    ghost predicate HushedTo(st: State, sup: SuppCfg, i: nat, n: nat)
      reads this, schedules, Nodes(schedules), supps
    {
      && i < |schedules| == |st.schedules| && n <= |schedules[i].actions| == |st.schedules[i].actions|
      && View() == SuppressActions(cfg, st, sup, i, n)
    }

    lemma NoneHushed(sup: SuppCfg, i: nat)
      requires i < |schedules|
      ensures HushedTo(View(), sup, i, 0)
    {
    }

    method HushNext(ghost st: State, sup: SuppCfg, i: nat, j: nat)
      requires Valid() && Has(i, j) && HushedTo(st, sup, i, j)
      modifies this, schedules[i].actions[j]
      ensures HushedTo(st, sup, i, j + 1)
    {
      hide SuppressAt;
      SuppressAction(i, j, sup);
    }

    method SuppressAll(i: nat, sup: SuppCfg)
      requires Valid() && i < |schedules|
      modifies this, schedules[i].actions
      ensures HushedTo(old(View()), sup, i, |schedules[i].actions|)
    {
      hide HushedTo, SuppressActions, Valid;
      ghost var st := View();
      NoneHushed(sup, i);
      for j := 0 to |schedules[i].actions|
        invariant HushedTo(st, sup, i, j)
      {
        HushNext(st, sup, i, j);
      }
    }

    method SuppressionStart(k: nat)
      requires Valid() && k < |supps|
      modifies this, supps[k], schedules, Nodes(schedules)
      ensures View() == Model.SuppressionStart(cfg, old(View()), k)
    {
      var sup := supps[k].cfg;
      if sup.match_ == [] || sup.name == "" { return; }
      SetSuppState(k, SuppActive);
      SuppressEvery(sup);
    }

    method SuppressEvery(sup: SuppCfg)
      requires Valid()
      modifies this, schedules, Nodes(schedules)
      ensures SuppressedTo(old(View()), sup, |schedules|)
    {
      hide SuppressedTo, SuppressUpTo, Valid;
      ghost var st := View();
      NoneSuppressed(sup);
      for i := 0 to |schedules|
        invariant SuppressedTo(st, sup, i)
      {
        OwnNodes(i);
        SuppressNext(st, sup, i);
      }
    }

    /** The first n schedules have been told of the suppression, starting from st. */
    ghost predicate SuppressedTo(st: State, sup: SuppCfg, n: nat)
      reads this, schedules, Nodes(schedules), supps
    {
      n <= |schedules| == |st.schedules| && View() == SuppressUpTo(cfg, st, sup, n)
    }

    lemma OwnNodes(i: nat)
      requires i < |schedules|
      ensures forall a :: a in schedules[i].actions ==> a in Nodes(schedules)
    {
      assert forall l :: 0 <= l < |schedules[i].actions| ==> schedules[i].actions[l] in Nodes(schedules);
    }

    lemma NoneSuppressed(sup: SuppCfg)
      ensures SuppressedTo(View(), sup, 0)
    {
    }

    method SuppressNext(ghost st: State, sup: SuppCfg, i: nat)
      requires Valid() && i < |schedules| && SuppressedTo(st, sup, i)
      modifies this, schedules[i], schedules[i].actions
      ensures SuppressedTo(st, sup, i + 1)
    {
      hide Model.SuppressOne;
      SuppressOne(i, sup);
    }

    method SetSuppState(k: nat, x: SuppState)
      requires Valid() && k < |supps|
      modifies supps[k]
      ensures View() == SetSupp(old(View()), k, x)
    {
      supps[k].state := x;
      SuppChanged(k);
    }

    twostate lemma SuppChanged(k: nat)
      requires Valid() && k < |supps|
      requires forall i :: 0 <= i < |schedules| ==> unchanged(schedules[i])
      requires forall i, j :: 0 <= i < |schedules| && 0 <= j < |schedules[i].actions| ==>
               unchanged(schedules[i].actions[j])
      requires forall l :: 0 <= l < |supps| && l != k ==> unchanged(supps[l])
      ensures View().schedules == old(View()).schedules && View().supps == old(View()).supps[k := supps[k].View()]
    {
      var a, b := old(View()), View();
      forall i | 0 <= i < |schedules| ensures b.schedules[i] == a.schedules[i] {
        assert b.schedules[i].actions == a.schedules[i].actions;
      }
      assert b.schedules == a.schedules;
      assert b.supps == a.supps[k := supps[k].View()];
    }

    method ReleaseSchedule(i: nat, sup: SuppCfg)
      requires Valid() && i < |schedules|
      modifies schedules[i]
      ensures View() == SetSchedule(old(View()), i, Model.ReleaseSchedule(cfg, old(View()).schedules[i], sup))
    {
      var m := TagsMatch(sup.match_, schedules[i].cfg.suppressionTags);
      if m { schedules[i].Unhush(); }
      ScheduleChanged(i);
    }

    method ReleaseAction(i: nat, j: nat, sup: SuppCfg)
      requires Valid() && Has(i, j)
      modifies schedules[i].actions[j]
      ensures View() == SetAction(old(View()), i, j, ReleasedAction(cfg, old(View()).schedules[i].actions[j], sup))
    {
      var a := schedules[i].actions[j];
      assert View().schedules[i].actions[j] == a.View();
      var m := TagsMatch(sup.match_, a.cfg.suppressionTags);
      if a.state != ActDisabled && m { a.Unhush(); }
      ActionChanged((i, j));
    }

    method ReleaseOne(i: nat, sup: SuppCfg)
      requires Valid() && i < |schedules|
      modifies schedules[i], schedules[i].actions
      ensures View() == Model.ReleaseOne(cfg, old(View()), sup, i)
    {
      if schedules[i].state == Disabled { return; }
      ReleaseSchedule(i, sup);
      ReleaseAll(i, sup);
    }

    /** The first n actions of schedule i have been released from the suppression, starting from st. */
    ghost predicate UnhushedTo(st: State, sup: SuppCfg, i: nat, n: nat)
      reads this, schedules, Nodes(schedules), supps
    {
      && i < |schedules| == |st.schedules| && n <= |schedules[i].actions| == |st.schedules[i].actions|
      && View() == ReleaseActions(cfg, st, sup, i, n)
    }

    lemma NoneUnhushed(sup: SuppCfg, i: nat)
      requires i < |schedules|
      ensures UnhushedTo(View(), sup, i, 0)
    {
    }

    method UnhushNext(ghost st: State, sup: SuppCfg, i: nat, j: nat)
      requires Valid() && Has(i, j) && UnhushedTo(st, sup, i, j)
      modifies schedules[i].actions[j]
      ensures UnhushedTo(st, sup, i, j + 1)
    {
      hide ReleasedAction;
      ReleaseAction(i, j, sup);
    }

    method ReleaseAll(i: nat, sup: SuppCfg)
      requires Valid() && i < |schedules|
      modifies schedules[i].actions
      ensures UnhushedTo(old(View()), sup, i, |schedules[i].actions|)
    {
      hide UnhushedTo, ReleaseActions, Valid;
      ghost var st := View();
      NoneUnhushed(sup, i);
      for j := 0 to |schedules[i].actions|
        invariant UnhushedTo(st, sup, i, j)
      {
        UnhushNext(st, sup, i, j);
      }
    }

    method SuppressionEnd(k: nat)
      requires Valid() && k < |supps|
      modifies supps[k], schedules, Nodes(schedules)
      ensures View() == Model.SuppressionEnd(cfg, old(View()), k)
    {
      var sup := supps[k].cfg;
      if sup.match_ == [] || sup.name == "" { return; }
      SetSuppState(k, SuppEnabled);
      ReleaseEvery(sup);
    }

    method ReleaseEvery(sup: SuppCfg)
      requires Valid()
      modifies schedules, Nodes(schedules)
      ensures ReleasedTo(old(View()), sup, |schedules|)
    {
      hide ReleasedTo, ReleaseUpTo, Valid;
      ghost var st := View();
      NoneReleased(sup);
      for i := 0 to |schedules|
        invariant ReleasedTo(st, sup, i)
      {
        OwnNodes(i);
        ReleaseNext(st, sup, i);
      }
    }

    ghost predicate ReleasedTo(st: State, sup: SuppCfg, n: nat)
      reads this, schedules, Nodes(schedules), supps
    {
      n <= |schedules| == |st.schedules| && View() == ReleaseUpTo(cfg, st, sup, n)
    }

    lemma NoneReleased(sup: SuppCfg)
      ensures ReleasedTo(View(), sup, 0)
    {
    }

    method ReleaseNext(ghost st: State, sup: SuppCfg, i: nat)
      requires Valid() && i < |schedules| && ReleasedTo(st, sup, i)
      modifies schedules[i], schedules[i].actions
      ensures ReleasedTo(st, sup, i + 1)
    {
      hide Model.ReleaseOne;
      ReleaseOne(i, sup);
    }

    // ---------------------------------------------------------------- suppress_cb

    method SuppressCbStart(e: Event, k: nat)
      requires Valid() && k < |supps|
      modifies this, supps[k], schedules, Nodes(schedules)
      ensures View() == Model.SuppressCbStart(cfg, old(View()), e, k)
    {
      hide Model.SuppressionStart;
      assert View().supps[k] == supps[k].View();
      if supps[k].cfg.start != "" && supps[k].cfg.start == e.name {
        if supps[k].state == SuppEnabled { SuppressionStart(k); }
      }
    }

    method SuppressCbEnd(e: Event, k: nat)
      requires Valid() && k < |supps|
      modifies supps[k], schedules, Nodes(schedules)
      ensures View() == Model.SuppressCbEnd(cfg, old(View()), e, k)
    {
      hide Model.SuppressionEnd;
      assert View().supps[k] == supps[k].View();
      if supps[k].cfg.end != "" && supps[k].cfg.end == e.name {
        if supps[k].state == SuppActive { SuppressionEnd(k); }
      }
    }

    method SuppressCbOne(e: Event, k: nat)
      requires Valid() && k < |supps|
      modifies this, supps[k], schedules, Nodes(schedules)
      ensures View() == Model.SuppressCbOne(cfg, old(View()), e, k)
    {
      hide Model.SuppressCbStart, Model.SuppressCbEnd;
      assert View().supps[k] == supps[k].View();
      if supps[k].state == SuppDisabled { return; }
      if supps[k].cfg.name == "" {
        SetSuppState(k, SuppDisabled);
        return;
      }
      SuppressCbStart(e, k);
      SuppressCbEnd(e, k);
    }

    /** suppress_cb has visited the first n suppressions, starting from st. */
    ghost predicate VisitedTo(st: State, e: Event, n: nat)
      reads this, schedules, Nodes(schedules), supps
    {
      n <= |supps| == |st.supps| && View() == Model.SuppressCb(cfg, st, e, n)
    }

    lemma NoneVisited(e: Event)
      ensures VisitedTo(View(), e, 0)
    {
    }

    method VisitNext(ghost st: State, e: Event, k: nat)
      requires Valid() && k < |supps| && VisitedTo(st, e, k)
      modifies this, supps[k], schedules, Nodes(schedules)
      ensures VisitedTo(st, e, k + 1)
    {
      hide Model.SuppressCbOne;
      SuppressCbOne(e, k);
    }

    method SuppressCb(e: Event)
      requires Valid()
      modifies this, supps, schedules, Nodes(schedules)
      ensures VisitedTo(old(View()), e, |supps|)
    {
      hide VisitedTo, Model.SuppressCb, Valid;
      ghost var st := View();
      NoneVisited(e);
      for k := 0 to |supps|
        invariant VisitedTo(st, e, k)
      {
        VisitNext(st, e, k);
      }
    }

    // ---------------------------------------------------------------- execute_cb

    method TakeOver(e: Event, now: nat, i: nat)
      requires Valid() && i < |schedules|
      modifies this, schedules[i]
      ensures View() == Model.TakeOver(old(View()), e, now, i)
    {
      schedules[i].cycleNumber := 0;
      if e.cycleInterval != 0 { schedules[i].cycleNumber := (now / e.cycleInterval) * e.cycleInterval; }
      ScheduleChanged(i);
      Record(ScheduleMoved(i));
    }

    method Begin(e: Event, now: nat, i: nat)
      requires Valid() && i < |schedules|
      modifies this, schedules[i], schedules[i].actions
      ensures View() == Model.Begin(cfg, old(View()), e, now, i)
    {
      hide Model.TakeOver, Model.ScheduleExec;
      TakeOver(e, now, i);
      ScheduleExec(i, now);
      if OneShot(e.kind) { SetState(i, Disabled); }
      if e.kind == Startup { SetStartupDone(); }
    }

    method SetStartupDone()
      modifies this
      ensures View() == old(View()).(startupDone := true)
    {
      startupDone := true;
      NothingChanged();
    }

    method CountScheduleSuppression(i: nat)
      requires Valid() && i < |schedules|
      modifies schedules[i]
      ensures View() == SetSchedule(old(View()), i, var s := old(View()).schedules[i];
              s.(suppressions := s.suppressions + 1))
    {
      schedules[i].suppressions := schedules[i].suppressions + 1;
      ScheduleChanged(i);
    }

    method CountScheduleOverlap(i: nat)
      requires Valid() && i < |schedules|
      modifies schedules[i]
      ensures View() == SetSchedule(old(View()), i, var s := old(View()).schedules[i]; s.(overlaps := s.overlaps + 1))
    {
      schedules[i].overlaps := schedules[i].overlaps + 1;
      ScheduleChanged(i);
    }

    method ExecuteStart(e: Event, now: nat, i: nat)
      requires Valid() && i < |schedules|
      modifies this, schedules[i], schedules[i].actions
      ensures View() == Model.ExecuteStart(cfg, old(View()), e, now, i)
    {
      hide Model.Begin;
      var s := schedules[i];
      if s.state == Disabled { return; }
      if s.cfg.name == "" {
        SetState(i, Disabled);
        return;
      }
      if s.cfg.start != "" && s.cfg.start == e.name {
        if s.state == Suppressed {
          CountScheduleSuppression(i);
        } else if s.state == Running {
          CountScheduleOverlap(i);
        } else {
          Begin(e, now, i);
        }
      }
    }

    method ExecuteOne(e: Event, now: nat, i: nat)
      requires Valid() && i < |schedules|
      modifies this, schedules[i], schedules[i].actions
      ensures View() == Model.ExecuteOne(cfg, old(View()), e, now, i)
    {
      hide Model.ExecuteStart, Model.ScheduleKill;
      ExecuteStart(e, now, i);
      if schedules[i].cfg.end != "" && schedules[i].cfg.end == e.name { ScheduleKill(i); }
    }

    /** execute_cb has visited the first n schedules, starting from st. */
    ghost predicate ExecutedTo(st: State, e: Event, now: nat, n: nat)
      reads this, schedules, Nodes(schedules), supps
    {
      n <= |schedules| == |st.schedules| && View() == Model.ExecuteCb(cfg, st, e, now, n)
    }

    lemma NoneExecuted(e: Event, now: nat)
      ensures ExecutedTo(View(), e, now, 0)
    {
    }

    method ExecuteNext(ghost st: State, e: Event, now: nat, i: nat)
      requires Valid() && i < |schedules| && ExecutedTo(st, e, now, i)
      modifies this, schedules[i], schedules[i].actions
      ensures ExecutedTo(st, e, now, i + 1)
    {
      hide Model.ExecuteOne;
      ExecuteOne(e, now, i);
    }

    method ExecuteCb(e: Event, now: nat)
      requires Valid()
      modifies this, schedules, Nodes(schedules)
      ensures ExecutedTo(old(View()), e, now, |schedules|)
    {
      hide ExecutedTo, Model.ExecuteCb, Valid;
      ghost var st := View();
      NoneExecuted(e, now);
      for i := 0 to |schedules|
        invariant ExecutedTo(st, e, now, i)
      {
        OwnNodes(i);
        ExecuteNext(st, e, now, i);
      }
    }

    /** An event fires. */
    method FireEvent(e: Event, now: nat)
      requires Valid()
      modifies this, supps, schedules, Nodes(schedules)
      ensures View() == Step(cfg, old(View()), Fire(e, now))
    {
      SuppressCb(e);
      ExecuteCb(e, now);
    }

    // ---------------------------------------------------------------- lmapd_cleanup

    /** find_action_by_pid: the schedule and the action as positions in their lists. */
    method FindActionByPid(pid: int) returns (r: Option<(nat, nat)>)
      ensures r == Locate(View(), pid)
    {
      ghost var st := View();
      for i := 0 to |schedules|
        invariant LocateFrom(st.schedules, pid, 0) == LocateFrom(st.schedules, pid, i)
      {
        for j := 0 to |schedules[i].actions|
          invariant IndexOfPid(st.schedules[i].actions, pid, 0) == IndexOfPid(st.schedules[i].actions, pid, j)
        {
          if schedules[i].actions[j].pid == pid { return Some((i, j)); }
        }
      }
      r := None;
    }

    /** find_schedule_by_pid: the owner of what FindActionByPid finds. */
    method FindScheduleByPid(pid: int) returns (r: Option<nat>)
      ensures r == (if Locate(View(), pid).Some? then Some(Locate(View(), pid).value.0) else None)
    {
      ghost var st := View();
      for i := 0 to |schedules|
        invariant LocateFrom(st.schedules, pid, 0) == LocateFrom(st.schedules, pid, i)
      {
        for j := 0 to |schedules[i].actions|
          invariant IndexOfPid(st.schedules[i].actions, pid, 0) == IndexOfPid(st.schedules[i].actions, pid, j)
        {
          if schedules[i].actions[j].pid == pid { return Some(i); }
        }
      }
      r := None;
    }

    /** lmap_find_schedule. */
    method FindSchedule(name: string) returns (r: Option<nat>)
      ensures r == Resolve(Names(View().schedules), name)
    {
      ghost var names := Names(View().schedules);
      if name == "" { return None; }
      for i := 0 to |schedules|
        invariant ResolveFrom(names, name, 0) == ResolveFrom(names, name, i)
      {
        assert names[i] == View().schedules[i].cfg.name;
        if schedules[i].cfg.name == name { return Some(i); }
      }
      r := None;
    }

    method CompleteAction(i: nat, j: nat, status: int, now: nat)
      requires Valid() && Has(i, j)
      modifies schedules[i].actions[j]
      ensures View() == SetAction(old(View()), i, j, Completed(old(View()).schedules[i].actions[j], status, now))
    {
      schedules[i].actions[j].Complete(status, now);
      ActionChanged((i, j));
    }

    method SetDeferred(i: nat, j: nat, x: bool)
      requires Valid() && Has(i, j)
      modifies schedules[i].actions[j]
      ensures View() == SetAction(old(View()), i, j, old(View()).schedules[i].actions[j].(deferred := x))
    {
      schedules[i].actions[j].deferred := x;
      ActionChanged((i, j));
    }

    /** lmapd_workspace_action_move as the scheduler sees it: 1 for a move that is put off. */
    method ActionMove(i: nat, j: nat, d: nat, defer: bool) returns (rc: int)
      modifies this
      ensures rc == (if defer && d != i then 1 else 0)
      ensures View() == if defer && d != i then old(View()) else Model.Log(old(View()), ActionMoved(i, j, d))
    {
      if defer && d != i { return 1; }
      Record(ActionMoved(i, j, d));
      rc := 0;
    }

    /** The result of a move that is put off is the flag of the action. */
    method MoveResult(i: nat, j: nat, d: nat, defer: bool)
      requires Valid() && Has(i, j)
      modifies this, schedules[i].actions[j]
      ensures View() == if defer && d != i then
              SetAction(old(View()), i, j, old(View()).schedules[i].actions[j].(deferred := true))
                        else Model.Log(old(View()), ActionMoved(i, j, d))
    {
      var rc := ActionMove(i, j, d, defer);
      if rc > 0 { SetDeferred(i, j, true); }
    }

    /** The state after the results of action j have gone to the first n of its destinations. */
    static ghost function Moving(st: State, i: nat, j: nat, n: nat, defer: bool): State
      requires At(st, i, j) && n <= |st.schedules[i].actions[j].cfg.destinations|
    {
      var dests := Dests(Names(st.schedules), st.schedules[i].actions[j].cfg.destinations, n);
      if defer then MoveOwnUpTo(st, i, j, dests, |dests|) else MoveAllUpTo(st, i, j, dests, |dests|)
    }

    static lemma {:induction false} MovePrefix(st: State, i: nat, j: nat, dests: seq<nat>, d: nat, n: nat)
      requires At(st, i, j) && n <= |dests|
      ensures MoveOwnUpTo(st, i, j, dests + [d], n) == MoveOwnUpTo(st, i, j, dests, n)
      ensures MoveAllUpTo(st, i, j, dests + [d], n) == MoveAllUpTo(st, i, j, dests, n)
    {
      if n > 0 { MovePrefix(st, i, j, dests, d, n - 1); }
    }

    static lemma MovingNext(st: State, i: nat, j: nat, n: nat, defer: bool)
      requires At(st, i, j) && n < |st.schedules[i].actions[j].cfg.destinations|
      ensures var d := Resolve(Names(st.schedules), st.schedules[i].actions[j].cfg.destinations[n]);
              var st1 := Moving(st, i, j, n, defer);
              && At(st1, i, j)
              && Moving(st, i, j, n + 1, defer) ==
                 if d.None? then st1
                 else if defer && d.value != i then SetAction(st1, i, j, st1.schedules[i].actions[j].(deferred := true))
                 else Model.Log(st1, ActionMoved(i, j, d.value))
    {
      var tags := st.schedules[i].actions[j].cfg.destinations;
      var dests := Dests(Names(st.schedules), tags, n);
      var d := Resolve(Names(st.schedules), tags[n]);
      if d.Some? {
        MovePrefix(st, i, j, dests, d.value, |dests|);
      } else {
        assert dests + [] == dests;
      }
    }

    static lemma MovingKeeps(st: State, i: nat, j: nat, n: nat, defer: bool)
      requires At(st, i, j) && n <= |st.schedules[i].actions[j].cfg.destinations|
      ensures Names(Moving(st, i, j, n, defer).schedules) == Names(st.schedules)
    {
      var dests := Dests(Names(st.schedules), st.schedules[i].actions[j].cfg.destinations, n);
      MoveOwnFacts(st, i, j, dests, |dests|);
    }

    ghost predicate MovedTo(st: State, i: nat, j: nat, n: nat, defer: bool)
      reads this, schedules, Nodes(schedules), supps
    {
      && At(st, i, j) && Has(i, j) && st.schedules[i].actions[j].cfg == schedules[i].actions[j].cfg
      && n <= |schedules[i].actions[j].cfg.destinations| && View() == Moving(st, i, j, n, defer)
    }

    lemma NoneMoved(i: nat, j: nat, defer: bool)
      requires Has(i, j)
      ensures MovedTo(View(), i, j, 0, defer)
    {
    }

    method MoveNext(ghost st: State, i: nat, j: nat, n: nat, defer: bool)
      requires Valid() && MovedTo(st, i, j, n, defer) && n < |schedules[i].actions[j].cfg.destinations|
      modifies this, schedules[i].actions[j]
      ensures MovedTo(st, i, j, n + 1, defer)
    {
      hide Moving, Resolve;
      MovingKeeps(st, i, j, n, defer);
      MovingNext(st, i, j, n, defer);
      var d := FindSchedule(schedules[i].actions[j].cfg.destinations[n]);
      assert View() == Moving(st, i, j, n, defer);
      if d.Some? { MoveResult(i, j, d.value, defer); }
    }

    method MoveEvery(i: nat, j: nat, defer: bool)
      requires Valid() && Has(i, j)
      modifies this, schedules[i].actions[j]
      ensures MovedTo(old(View()), i, j, |schedules[i].actions[j].cfg.destinations|, defer)
    {
      hide MovedTo, Valid;
      ghost var st := View();
      NoneMoved(i, j, defer);
      for n := 0 to |schedules[i].actions[j].cfg.destinations|
        invariant MovedTo(st, i, j, n, defer)
      {
        MoveNext(st, i, j, n, defer);
      }
    }

    method Gather(i: nat, j: nat, status: int, now: nat)
      requires Valid() && Has(i, j)
      modifies this, schedules[i].actions[j]
      ensures View() == Model.Gather(old(View()), i, j, status, now)
    {
      hide Completed;
      CompleteAction(i, j, status, now);
      assert Names(View().schedules) == Names(old(View()).schedules);
      Record(Reaped(i, j, status));
      Record(MetaEnded(i, j));
      if status == 0 { MoveEvery(i, j, true); }
    }

    method Collect(i: nat, j: nat, status: int, now: nat)
      requires Valid() && Has(i, j)
      modifies this, schedules[i].actions[j]
      ensures View() == Model.Collect(old(View()), i, j, status, now)
    {
      hide Model.Gather;
      Gather(i, j, status, now);
      assert View().schedules[i].actions[j] == schedules[i].actions[j].View();
      if !schedules[i].actions[j].deferred { Record(ActionCleaned(i, j)); }
    }

    method Continue(i: nat, j: nat, now: nat)
      requires Valid() && Has(i, j)
      modifies this, schedules[i].actions
      ensures View() == Model.Continue(cfg, old(View()), i, j, now)
    {
      hide Model.ActionExec;
      var s := schedules[i];
      if j + 1 < |s.actions| && s.cfg.mode == Sequential {
        if s.state != Suppressed && !s.stop { var rc := ActionExec(i, j + 1, now); }
      }
    }

    method Deliver(i: nat, j: nat)
      requires Valid() && Has(i, j)
      modifies this, schedules[i].actions[j]
      ensures View() == Model.Deliver(old(View()), i, j)
    {
      assert View().schedules[i].actions[j] == schedules[i].actions[j].View();
      if schedules[i].actions[j].deferred { MoveEvery(i, j, false); }
    }

    method FlushAt(i: nat, j: nat)
      requires Valid() && Has(i, j)
      modifies this, schedules[i].actions[j]
      ensures View() == Model.FlushAt(old(View()), i, j)
    {
      hide Model.Deliver;
      Deliver(i, j);
      SetDeferred(i, j, false);
      Record(ActionCleaned(i, j));
    }

    ghost predicate FlushedTo(st: State, i: nat, n: nat)
      reads this, schedules, Nodes(schedules), supps
    {
      && i < |schedules| == |st.schedules| && |st.schedules[i].actions| == |schedules[i].actions|
         && n <= |schedules[i].actions|
      && View() == FlushUpTo(st, i, n)
    }

    lemma NoneFlushed(i: nat)
      requires i < |schedules|
      ensures FlushedTo(View(), i, 0)
    {
    }

    method FlushNext(ghost st: State, i: nat, j: nat)
      requires Valid() && Has(i, j) && FlushedTo(st, i, j)
      modifies this, schedules[i].actions[j]
      ensures FlushedTo(st, i, j + 1)
    {
      hide Model.FlushAt;
      FlushAt(i, j);
    }

    method FlushAll(i: nat)
      requires Valid() && i < |schedules|
      modifies this, schedules[i].actions
      ensures FlushedTo(old(View()), i, |schedules[i].actions|)
    {
      hide FlushedTo, FlushUpTo, Valid;
      ghost var st := View();
      NoneFlushed(i);
      for j := 0 to |schedules[i].actions|
        invariant FlushedTo(st, i, j)
      {
        FlushNext(st, i, j);
      }
    }

    method FlushSchedule(i: nat)
      requires Valid() && i < |schedules|
      modifies this, schedules[i].actions
      ensures View() == FlushUpTo(old(View()), i, |schedules[i].actions|)
    {
      hide FlushUpTo;
      FlushAll(i);
    }

    /** The two flags computed over the action list. */
    method Survey(i: nat) returns (stillRunning: bool, succeeded: bool)
      requires i < |schedules|
      ensures stillRunning == StillRunning(View().schedules[i]) && succeeded == SomeSuccess(View().schedules[i])
    {
      stillRunning, succeeded := false, false;
      ghost var acts := View().schedules[i].actions;
      for j := 0 to |schedules[i].actions|
        invariant stillRunning <==> exists k :: 0 <= k < j && acts[k].state == ActRunning
        invariant succeeded <==> exists k :: 0 <= k < j && acts[k].lastStatus == 0
      {
        assert acts[j] == schedules[i].actions[j].View();
        stillRunning := stillRunning || schedules[i].actions[j].state == ActRunning;
        succeeded := succeeded || schedules[i].actions[j].lastStatus == 0;
      }
      assert stillRunning ==> exists a :: a in acts && a.state == ActRunning;
      assert succeeded ==> exists a :: a in acts && a.lastStatus == 0;
    }

    method Settle(i: nat)
      requires Valid() && i < |schedules|
      modifies schedules[i]
      ensures View() == SetSchedule(old(View()), i, Model.Settle(old(View()).schedules[i]))
    {
      if schedules[i].state == Running {
        schedules[i].state := Enabled;
        if schedules[i].active > 0 { schedules[i].state := Suppressed; }
      }
      ScheduleChanged(i);
    }

    method CountFailure(i: nat)
      requires Valid() && i < |schedules|
      modifies schedules[i]
      ensures View() == SetSchedule(old(View()), i, var s := old(View()).schedules[i]; s.(failures := s.failures + 1))
    {
      schedules[i].failures := schedules[i].failures + 1;
      ScheduleChanged(i);
    }

    method Conclude(i: nat, succeeded: bool)
      requires Valid() && i < |schedules| && succeeded == SomeSuccess(View().schedules[i])
      modifies this, schedules[i], schedules[i].actions
      ensures View() == Model.Conclude(old(View()), i)
    {
      hide FlushUpTo, SomeSuccess, Valid, Model.Settle, AccountRun;
      Settle(i);
      FlushSchedule(i);
      Account(i, succeeded);
    }

    method Account(i: nat, succeeded: bool)
      requires Valid() && i < |schedules|
      modifies this, schedules[i]
      ensures View() == AccountRun(old(View()), i, succeeded)
    {
      if succeeded {
        Record(ScheduleCleaned(i));
      } else {
        CountFailure(i);
      }
    }

    /** A schedule none of whose actions is RUNNING is concluded. */
    method Finish(i: nat)
      requires Valid() && i < |schedules|
      modifies this, schedules[i], schedules[i].actions
      ensures View() == if StillRunning(old(View()).schedules[i]) then old(View()) else Model.Conclude(old(View()), i)
    {
      hide StillRunning, SomeSuccess, Model.Conclude;
      var stillRunning, succeeded := Survey(i);
      assert View() == old(View());
      if !stillRunning { Conclude(i, succeeded); }
    }

    method ReapAt(i: nat, j: nat, status: int, now: nat)
      requires Valid() && Has(i, j)
      modifies this, schedules[i], schedules[i].actions
      ensures View() == Model.ReapAt(cfg, old(View()), i, j, status, now)
    {
      hide Model.Collect, Model.Continue, Model.Conclude, StillRunning;
      Collect(i, j, status, now);
      Continue(i, j, now);
      Finish(i);
    }

    method Dispatch(pid: int, status: WaitStatus, now: nat)
      requires Valid()
      modifies this, schedules, Nodes(schedules)
      ensures View() == match Locate(old(View()), pid)
                        case None => old(View())
                        case Some(at) => Model.ReapAt(cfg, old(View()), at.0, at.1, StatusOf(status), now)
    {
      hide Model.ReapAt, Valid, Locate;
      ghost var st := View();
      var action := FindActionByPid(pid);
      var schedule := FindScheduleByPid(pid);
      assert View() == st;
      LocateAt(st, pid);
      if action.Some? && schedule.Some? { ReapFound(schedule.value, action.value.1, StatusOf(status), now); }
    }

    static lemma LocateAt(st: State, pid: int)
      ensures Locate(st, pid).Some? ==> At(st, Locate(st, pid).value.0, Locate(st, pid).value.1)
    {
    }

    method ReapFound(i: nat, j: nat, status: int, now: nat)
      requires Valid() && Has(i, j)
      modifies this, schedules, Nodes(schedules)
      ensures View() == Model.ReapAt(cfg, old(View()), i, j, status, now)
    {
      hide Model.ReapAt;
      OwnNodes(i);
      ReapAt(i, j, status, now);
    }

    method Forget(pid: int)
      modifies this
      ensures View() == old(View()).(world := old(View()).world.(children := old(View()).world.children - {pid}))
    {
      children := children - {pid};
      NothingChanged();
    }

    /** One iteration of the loop of lmapd_cleanup. */
    method Reap(pid: int, status: WaitStatus, now: nat)
      requires Valid() && pid > 0 && pid in children
      modifies this, schedules, Nodes(schedules)
      ensures View() == Model.Reap(cfg, old(View()), pid, status, now)
    {
      hide Model.ReapAt, Valid, LocateFrom;
      Forget(pid);
      Dispatch(pid, status, now);
    }

    /** waitpid with WNOHANG: some dead child, or 0. */
    method Waitpid() returns (pid: int, status: WaitStatus)
      ensures pid == 0 || pid in children
    {
      pid, status := 0, Exited(0);
      var some: bool := *;
      if some {
        if p :| p in children { pid, status := p, *; }
      }
    }

    /**
     lmapd_cleanup.  waitpid hands over any dead child, or says that there is none: both are
     choices of the environment.  The deaths are those of one run of the transition system, and
     there are no more of them than the measure of the state at the start.
     */
    method Cleanup(now: nat) returns (ghost deaths: seq<Input>)
      requires Valid() && Inv(View())
      modifies this, schedules, Nodes(schedules)
      ensures forall x :: x in deaths ==> x.Death? && x.now == now
      ensures View() == Run(cfg, old(View()), deaths) && Inv(View())
      ensures |deaths| <= Measure(old(View()))
    {
      hide Valid, Inv, Measure;
      deaths := [];
      ghost var st := View();
      while true
        invariant Inv(View()) && View() == Run(cfg, st, deaths) && |deaths| + Measure(View()) <= Measure(st)
        invariant forall x :: x in deaths ==> x.Death? && x.now == now
        decreases Measure(View())
      {
        var pid, status := Waitpid();
        if pid == 0 { return; }
        DeathSteps(st, deaths, Death(pid, status, now));
        Reap(pid, status, now);
        deaths := deaths + [Death(pid, status, now)];
      }
    }

    lemma DeathSteps(st: State, deaths: seq<Input>, x: Input)
      requires View() == Run(cfg, st, deaths) && Inv(View()) && x.Death? && x.pid in children
      ensures x.pid > 0 && Run(cfg, st, deaths + [x]) == Model.Reap(cfg, View(), x.pid, x.status, x.now)
      ensures Inv(Model.Reap(cfg, View(), x.pid, x.status, x.now))
      ensures Measure(Model.Reap(cfg, View(), x.pid, x.status, x.now)) < Measure(View())
    {
      assert x.pid in View().world.children;
      assert (deaths + [x])[..|deaths|] == deaths;
      ReapKeeps(cfg, View(), x.pid, x.status, x.now);
      ReapDecreases(cfg, View(), x.pid, x.status, x.now);
    }
  }
}

/**
 The scheduler of src/runner.c as functions on values.

 Every C function that updates the schedules is a function from State to State here; a loop
 over a list is a function whose last parameter says how many elements have been processed.
 The classes of module Runner are proved against these functions.

 Conventions: an absent name (NULL) is the empty string, which no identifier may be;
 fnmatch is an arbitrary relation; the results of fork are read from the oracle
 World.forks, in which a value that is not a pid free for use stands for a failed fork.
 */
module Model {
  import opened Common

  datatype ActionState = ActEnabled | ActDisabled | ActRunning | ActSuppressed
  datatype ScheduleState = Enabled | Disabled | Running | Suppressed
  datatype SuppState = SuppEnabled | SuppDisabled | SuppActive
  datatype Mode = Sequential | Parallel | Pipelined
  datatype EventType = Periodic | Calendar | OneOff | Immediate | Startup | ControllerLost | ControllerConnected

  datatype ActionCfg = ActionCfg(name: string, task: Option<string>, workspace: bool, destinations: seq<string>,
                                 options: seq<Opt>, suppressionTags: seq<string>)

  datatype Action = Action(cfg: ActionCfg, state: ActionState, deferred: bool, pid: int,
                           lastInvocation: int, lastCompletion: int, lastStatus: int,
                           lastFailedCompletion: int, lastFailedStatus: int,
                           invocations: nat, failures: nat, suppressions: nat, overlaps: nat, active: nat)

  datatype ScheduleCfg = ScheduleCfg(name: string, start: string, end: string, mode: Mode, suppressionTags: seq<string>)

  datatype Schedule = Schedule(cfg: ScheduleCfg, actions: seq<Action>, state: ScheduleState, stop: bool,
                               cycleNumber: int, lastInvocation: int,
                               invocations: nat, failures: nat, suppressions: nat, overlaps: nat, active: nat)

  datatype SuppCfg = SuppCfg(name: string, start: string, end: string, match_: seq<string>, stop: bool)
  datatype Supp = Supp(cfg: SuppCfg, state: SuppState)

  datatype Event = Event(name: string, kind: EventType, cycleInterval: nat)

  datatype Task = Task(name: string, program: Option<string>, options: seq<Opt>)
  datatype Config = Config(tasks: seq<Task>, capabilities: seq<Task>, fnmatch: set<(string, string)>)

  /** What the runner does to the outside world, in order. */
  datatype Op =
    | Invoked(s: nat)
    | Launched(s: nat, a: nat, pid: int)
    | Reaped(s: nat, a: nat, status: int)
    | MetaEnded(s: nat, a: nat)
    | Killed(pid: int)
    | ActionCleaned(s: nat, a: nat)
    | ActionMoved(s: nat, a: nat, dst: nat)
    | ScheduleMoved(s: nat)
    | ScheduleCleaned(s: nat)

  datatype World = World(children: set<int>, forks: seq<int>, log: seq<Op>)

  datatype State = State(schedules: seq<Schedule>, supps: seq<Supp>, world: World, startupDone: bool)

  // ------------------------------------------------------------------ updates of one element

  predicate At(st: State, i: nat, j: nat) {
    i < |st.schedules| && j < |st.schedules[i].actions|
  }

  function SetSchedule(st: State, i: nat, s: Schedule): State
    requires i < |st.schedules|
  {
    st.(schedules := st.schedules[i := s])
  }

  function SetAction(st: State, i: nat, j: nat, a: Action): State
    requires At(st, i, j)
  {
    SetSchedule(st, i, st.schedules[i].(actions := st.schedules[i].actions[j := a]))
  }

  function Log(st: State, op: Op): State {
    st.(world := st.world.(log := st.world.log + [op]))
  }

  function Names(scheds: seq<Schedule>): seq<string> {
    seq(|scheds|, i requires 0 <= i < |scheds| => scheds[i].cfg.name)
  }

  /** lmap_find_schedule: the first schedule of that name. */
  function Resolve(names: seq<string>, name: string): Option<nat> {
    ResolveFrom(names, name, 0)
  }

  function ResolveFrom(names: seq<string>, name: string, i: nat): (r: Option<nat>)
    ensures r.Some? ==> i <= r.value < |names| && names[r.value] == name && name != ""
    ensures r.Some? ==> forall k :: i <= k < r.value ==> names[k] != name
    ensures r.None? && name != "" ==> forall k :: i <= k < |names| ==> names[k] != name
    decreases |names| - i
  {
    if i >= |names| || name == "" then None
    else if names[i] == name then Some(i)
    else ResolveFrom(names, name, i + 1)
  }

  function BigTagMatch(fnmatch: set<(string, string)>, patterns: seq<string>, tags: seq<string>): bool {
    exists m, t :: m in patterns && t in tags && (m, t) in fnmatch
  }

  // ------------------------------------------------------------------ action_exec

  function FindTask(tasks: seq<Task>, name: string): Option<Task> {
    if tasks == [] then None
    else if tasks[0].name != "" && tasks[0].name == name then Some(tasks[0])
    else FindTask(tasks[1..], name)
  }

  function Capable(capabilities: seq<Task>, program: string): bool {
    exists t :: t in capabilities && t.program == Some(program)
  }

  /** An action may be run: its task exists and has a program, which is a capability. */
  function Permitted(cfg: Config, a: ActionCfg): bool {
    a.task.Some? &&
    var t := FindTask(cfg.tasks, a.task.value);
    t.Some? && t.value.program.Some? && Capable(cfg.capabilities, t.value.program.value)
  }

  const ARGV_LIMIT := 252

  /** The index of the last used argv slot after n options, None when there are too many. */
  function ArgvAfter(opts: seq<Opt>, n: nat, start: Option<nat>): (r: Option<nat>)
    requires n <= |opts|
    ensures start.Some? && start.value <= ARGV_LIMIT + 1 && r.Some? ==> start.value <= r.value <= ARGV_LIMIT + 1
  {
    if n == 0 then start
    else
      var r := ArgvAfter(opts, n - 1, start);
      if r.None? || r.value >= ARGV_LIMIT then None
      else Some(r.value + (if opts[n - 1].name.Some? then 1 else 0) + (if opts[n - 1].value.Some? then 1 else 0))
  }

  /** The arguments that options stand for, in order. */
  function Args(opts: seq<Opt>): seq<string> {
    if opts == [] then []
    else
      var o := opts[|opts| - 1];
      Args(opts[..|opts| - 1]) + (if o.name.Some? then [o.name.value] else [])
        + (if o.value.Some? then [o.value.value] else [])
  }

  function ArgsFit(cfg: Config, a: ActionCfg): bool
    requires Permitted(cfg, a)
  {
    var t := FindTask(cfg.tasks, a.task.value).value;
    ArgvAfter(a.options, |a.options|, ArgvAfter(t.options, |t.options|, Some(0))).Some?
  }

  /** The pid fork returns, 0 for a failure: never that of a child that is still to be reaped. */
  function ForkPid(w: World): int {
    if w.forks != [] && w.forks[0] > 0 && w.forks[0] !in w.children then w.forks[0] else 0
  }

  function AfterFork(w: World): World {
    w.(children := if ForkPid(w) == 0 then w.children else w.children + {ForkPid(w)},
       forks := if w.forks == [] then [] else w.forks[1..])
  }

  /** The state and the return code of action_exec. */
  datatype Outcome = Outcome(st: State, rc: int)

  /** action_exec; the result is 1 for a started action. */
  function ActionExec(cfg: Config, st: State, i: nat, j: nat, now: nat): Outcome
    requires At(st, i, j)
  {
    var a := st.schedules[i].actions[j];
    if a.cfg.name == "" || a.cfg.task.None? || !a.cfg.workspace then Outcome(st, 0)
    else if a.state == ActSuppressed then Outcome(SetAction(st, i, j, a.(suppressions := a.suppressions + 1)), 0)
    else if a.state == ActDisabled then Outcome(st, 0)
    else RunTask(cfg, st, i, j, now)
  }

  function RunTask(cfg: Config, st: State, i: nat, j: nat, now: nat): Outcome
    requires At(st, i, j)
  {
    if !Permitted(cfg, st.schedules[i].actions[j].cfg) then Outcome(st, -1) else Attempt(cfg, st, i, j, now)
  }

  function Attempt(cfg: Config, st: State, i: nat, j: nat, now: nat): Outcome
    requires At(st, i, j) && Permitted(cfg, st.schedules[i].actions[j].cfg)
  {
    var a := st.schedules[i].actions[j];
    if a.pid != 0 then Outcome(SetAction(st, i, j, a.(overlaps := a.overlaps + 1)), -1)
    else if !ArgsFit(cfg, a.cfg) then Outcome(st, -1)
    else Spawn(st, i, j, now)
  }

  function Spawn(st: State, i: nat, j: nat, now: nat): Outcome
    requires At(st, i, j)
  {
    var p := ForkPid(st.world);
    var st1 := st.(world := AfterFork(st.world));
    if p == 0 then Outcome(st1, -1)
    else Outcome(Log(SetAction(st1, i, j, Started(st.schedules[i].actions[j], p, now)), Launched(i, j, p)), 1)
  }

  function Started(a: Action, pid: int, now: nat): Action {
    a.(pid := pid, lastInvocation := now, state := ActRunning, invocations := a.invocations + 1)
  }

  // ------------------------------------------------------------------ schedule_exec

  function CleanUpTo(st: State, i: nat, n: nat): (r: State)
    ensures r.schedules == st.schedules && r.supps == st.supps && r.startupDone == st.startupDone
    ensures r.world.(log := st.world.log) == st.world
  {
    if n == 0 then st else Log(CleanUpTo(st, i, n - 1), ActionCleaned(i, n - 1))
  }

  /** A started action makes the schedule RUNNING. */
  function MarkRunning(r: Outcome, i: nat): State
    requires i < |r.st.schedules|
  {
    if r.rc == 1 then SetSchedule(r.st, i, r.st.schedules[i].(state := Running)) else r.st
  }

  /** action_exec called from schedule_exec. */
  function LaunchAt(cfg: Config, st: State, i: nat, j: nat, now: nat): State
    requires At(st, i, j)
  {
    MarkRunning(ActionExec(cfg, st, i, j, now), i)
  }

  function LaunchUpTo(cfg: Config, st: State, i: nat, now: nat, n: nat): (r: State)
    requires i < |st.schedules| && n <= |st.schedules[i].actions|
    ensures |r.schedules| == |st.schedules| && |r.schedules[i].actions| == |st.schedules[i].actions|
  {
    if n == 0 then st else LaunchAt(cfg, LaunchUpTo(cfg, st, i, now, n - 1), i, n - 1, now)
  }

  function Invoke(s: Schedule, now: nat): Schedule { s.(lastInvocation := now, invocations := s.invocations + 1) }

  function CountInvocation(st: State, i: nat, now: nat): State
    requires i < |st.schedules|
  {
    Log(SetSchedule(st, i, Invoke(st.schedules[i], now)), Invoked(i))
  }

  function ScheduleExec(cfg: Config, st: State, i: nat, now: nat): (r: State)
    requires i < |st.schedules|
    ensures |r.schedules| == |st.schedules|
  {
    var s := st.schedules[i];
    if s.cfg.name == "" then st
    else
      var st1 := CleanUpTo(st, i, |s.actions|);
      match s.cfg.mode
      case Sequential =>
        var st2 := CountInvocation(st1, i, now);
        if s.actions == [] then st2 else LaunchAt(cfg, st2, i, 0, now)
      case Parallel => LaunchUpTo(cfg, CountInvocation(st1, i, now), i, now, |s.actions|)
      case Pipelined => SetSchedule(st1, i, s.(state := Disabled))
  }

  // ------------------------------------------------------------------ killing

  function KillAction(st: State, i: nat, j: nat): State
    requires At(st, i, j)
  {
    var a := st.schedules[i].actions[j];
    if a.cfg.name != "" && a.state == ActRunning && a.pid != 0 then Log(st, Killed(a.pid)) else st
  }

  function KillUpTo(st: State, i: nat, n: nat): (r: State)
    requires i < |st.schedules| && n <= |st.schedules[i].actions|
    ensures r.schedules == st.schedules && r.supps == st.supps && r.startupDone == st.startupDone
    ensures r.world.(log := st.world.log) == st.world
  {
    if n == 0 then st else KillAction(KillUpTo(st, i, n - 1), i, n - 1)
  }

  function ScheduleKill(st: State, i: nat): State
    requires i < |st.schedules|
  {
    if st.schedules[i].cfg.name == "" then st else KillUpTo(st, i, |st.schedules[i].actions|)
  }

  // ------------------------------------------------------------------ suppression_start / _end

  /** What a starting suppression does to a schedule and to an action that it matches. */
  function HushSchedule(s: Schedule, stop: bool): Schedule {
    s.(state := if s.state == Enabled then Suppressed else s.state, stop := s.stop || stop, active := s.active + 1)
  }

  function HushAction(a: Action, scheduleStops: bool, stop: bool): Action {
    a.(state := if a.state == ActEnabled || (a.state == ActRunning && !scheduleStops && stop) then ActSuppressed
                else a.state,
       active := a.active + 1)
  }

  function SuppressSchedule(cfg: Config, s: Schedule, sup: SuppCfg): Schedule {
    if BigTagMatch(cfg.fnmatch, sup.match_, s.cfg.suppressionTags) then HushSchedule(s, sup.stop) else s
  }

  /** The running action is stopped through its own tags, not through those of its schedule. */
  predicate StopsAction(cfg: Config, scheduleStops: bool, a: Action, sup: SuppCfg) {
    a.state == ActRunning && !scheduleStops && sup.stop && BigTagMatch(cfg.fnmatch, sup.match_, a.cfg.suppressionTags)
  }

  function SuppressedAction(cfg: Config, scheduleStops: bool, a: Action, sup: SuppCfg): (b: Action)
    ensures b.cfg == a.cfg
  {
    if a.state != ActDisabled && BigTagMatch(cfg.fnmatch, sup.match_, a.cfg.suppressionTags)
    then HushAction(a, scheduleStops, sup.stop) else a
  }

  function StopAt(cfg: Config, st: State, sup: SuppCfg, i: nat, j: nat): (r: State)
    requires At(st, i, j)
    ensures r.schedules == st.schedules && r.supps == st.supps && r.startupDone == st.startupDone
    ensures r.world.(log := st.world.log) == st.world
  {
    var s := st.schedules[i];
    if s.stop || StopsAction(cfg, s.stop, s.actions[j], sup) then KillAction(st, i, j) else st
  }

  function SuppressAt(cfg: Config, st: State, sup: SuppCfg, i: nat, j: nat): State
    requires At(st, i, j)
  {
    var s := st.schedules[i];
    if s.actions[j].state == ActDisabled then st
    else SetAction(StopAt(cfg, st, sup, i, j), i, j, SuppressedAction(cfg, s.stop, s.actions[j], sup))
  }

  function SuppressActions(cfg: Config, st: State, sup: SuppCfg, i: nat, n: nat): (r: State)
    requires i < |st.schedules| && n <= |st.schedules[i].actions|
    ensures r.supps == st.supps
    ensures |r.schedules| == |st.schedules| && |r.schedules[i].actions| == |st.schedules[i].actions|
  {
    if n == 0 then st else SuppressAt(cfg, SuppressActions(cfg, st, sup, i, n - 1), sup, i, n - 1)
  }

  function SuppressOne(cfg: Config, st: State, sup: SuppCfg, i: nat): (r: State)
    requires i < |st.schedules|
    ensures r.supps == st.supps && |r.schedules| == |st.schedules|
  {
    var s := st.schedules[i];
    if s.state == Disabled then st
    else SuppressActions(cfg, SetSchedule(st, i, SuppressSchedule(cfg, s, sup)), sup, i, |s.actions|)
  }

  function SuppressUpTo(cfg: Config, st: State, sup: SuppCfg, n: nat): (r: State)
    requires n <= |st.schedules|
    ensures r.supps == st.supps && |r.schedules| == |st.schedules|
  {
    if n == 0 then st else SuppressOne(cfg, SuppressUpTo(cfg, st, sup, n - 1), sup, n - 1)
  }

  function SetSupp(st: State, k: nat, x: SuppState): State
    requires k < |st.supps|
  {
    st.(supps := st.supps[k := st.supps[k].(state := x)])
  }

  function SuppressionStart(cfg: Config, st: State, k: nat): (r: State)
    requires k < |st.supps|
    ensures |r.supps| == |st.supps| && |r.schedules| == |st.schedules|
  {
    var sup := st.supps[k].cfg;
    if sup.match_ == [] || sup.name == "" then st
    else SuppressUpTo(cfg, SetSupp(st, k, SuppActive), sup, |st.schedules|)
  }

  function Decrement(n: nat): nat { if n > 0 then n - 1 else 0 }

  /** What an ending suppression does to a schedule and to an action that it matches. */
  function UnhushSchedule(s: Schedule): Schedule {
    s.(active := Decrement(s.active),
       state := if Decrement(s.active) == 0 && s.state == Suppressed then Enabled else s.state)
  }

  function UnhushAction(a: Action): Action {
    a.(active := Decrement(a.active),
       state := if Decrement(a.active) == 0 && a.state == ActSuppressed then ActEnabled else a.state)
  }

  function ReleaseSchedule(cfg: Config, s: Schedule, sup: SuppCfg): Schedule {
    if BigTagMatch(cfg.fnmatch, sup.match_, s.cfg.suppressionTags) then UnhushSchedule(s) else s
  }

  function ReleasedAction(cfg: Config, a: Action, sup: SuppCfg): (b: Action)
    ensures b.cfg == a.cfg
  {
    if a.state != ActDisabled && BigTagMatch(cfg.fnmatch, sup.match_, a.cfg.suppressionTags) then UnhushAction(a) else a
  }

  function ReleaseActions(cfg: Config, st: State, sup: SuppCfg, i: nat, n: nat): (r: State)
    requires i < |st.schedules| && n <= |st.schedules[i].actions|
    ensures r.supps == st.supps
    ensures |r.schedules| == |st.schedules| && |r.schedules[i].actions| == |st.schedules[i].actions|
  {
    if n == 0 then st
    else
      var st1 := ReleaseActions(cfg, st, sup, i, n - 1);
      SetAction(st1, i, n - 1, ReleasedAction(cfg, st1.schedules[i].actions[n - 1], sup))
  }

  function ReleaseOne(cfg: Config, st: State, sup: SuppCfg, i: nat): (r: State)
    requires i < |st.schedules|
    ensures r.supps == st.supps && |r.schedules| == |st.schedules|
  {
    var s := st.schedules[i];
    if s.state == Disabled then st
    else ReleaseActions(cfg, SetSchedule(st, i, ReleaseSchedule(cfg, s, sup)), sup, i, |s.actions|)
  }

  function ReleaseUpTo(cfg: Config, st: State, sup: SuppCfg, n: nat): (r: State)
    requires n <= |st.schedules|
    ensures r.supps == st.supps && |r.schedules| == |st.schedules|
  {
    if n == 0 then st else ReleaseOne(cfg, ReleaseUpTo(cfg, st, sup, n - 1), sup, n - 1)
  }

  function SuppressionEnd(cfg: Config, st: State, k: nat): (r: State)
    requires k < |st.supps|
    ensures |r.supps| == |st.supps| && |r.schedules| == |st.schedules|
  {
    var sup := st.supps[k].cfg;
    if sup.match_ == [] || sup.name == "" then st
    else ReleaseUpTo(cfg, SetSupp(st, k, SuppEnabled), sup, |st.schedules|)
  }

  // ------------------------------------------------------------------ suppress_cb

  function SuppressCbStart(cfg: Config, st: State, e: Event, k: nat): (r: State)
    requires k < |st.supps|
    ensures |r.supps| == |st.supps| && |r.schedules| == |st.schedules|
  {
    var x := st.supps[k];
    if x.cfg.start != "" && x.cfg.start == e.name && x.state == SuppEnabled then SuppressionStart(cfg, st, k) else st
  }

  function SuppressCbEnd(cfg: Config, st: State, e: Event, k: nat): (r: State)
    requires k < |st.supps|
    ensures |r.supps| == |st.supps| && |r.schedules| == |st.schedules|
  {
    var x := st.supps[k];
    if x.cfg.end != "" && x.cfg.end == e.name && x.state == SuppActive then SuppressionEnd(cfg, st, k) else st
  }

  function SuppressCbOne(cfg: Config, st: State, e: Event, k: nat): (r: State)
    requires k < |st.supps|
    ensures |r.supps| == |st.supps| && |r.schedules| == |st.schedules|
  {
    if st.supps[k].state == SuppDisabled then st
    else if st.supps[k].cfg.name == "" then SetSupp(st, k, SuppDisabled)
    else
      var st1 := SuppressCbStart(cfg, st, e, k);
      SuppressCbEnd(cfg, st1, e, k)
  }

  function SuppressCb(cfg: Config, st: State, e: Event, n: nat): (r: State)
    requires n <= |st.supps|
    ensures |r.supps| == |st.supps| && |r.schedules| == |st.schedules|
  {
    if n == 0 then st else SuppressCbOne(cfg, SuppressCb(cfg, st, e, n - 1), e, n - 1)
  }

  // ------------------------------------------------------------------ execute_cb

  predicate OneShot(kind: EventType) { kind == OneOff || kind == Immediate || kind == Startup }

  function CycleNumber(e: Event, now: nat): int {
    if e.cycleInterval == 0 then 0 else (now / e.cycleInterval) * e.cycleInterval
  }

  /** The cycle number is set and the incoming queue taken over. */
  function TakeOver(st: State, e: Event, now: nat, i: nat): State
    requires i < |st.schedules|
  {
    Log(SetSchedule(st, i, st.schedules[i].(cycleNumber := CycleNumber(e, now))), ScheduleMoved(i))
  }

  /** The start event of a schedule that is ENABLED: take over the queue and run. */
  function Begin(cfg: Config, st: State, e: Event, now: nat, i: nat): (r: State)
    requires i < |st.schedules|
    ensures |r.schedules| == |st.schedules|
  {
    var st2 := ScheduleExec(cfg, TakeOver(st, e, now, i), i, now);
    var st3 := if OneShot(e.kind) then SetSchedule(st2, i, st2.schedules[i].(state := Disabled)) else st2;
    if e.kind == Startup then st3.(startupDone := true) else st3
  }

  function ExecuteStart(cfg: Config, st: State, e: Event, now: nat, i: nat): (r: State)
    requires i < |st.schedules|
    ensures |r.schedules| == |st.schedules|
  {
    var s := st.schedules[i];
    if s.state == Disabled then st
    else if s.cfg.name == "" then SetSchedule(st, i, s.(state := Disabled))
    else if s.cfg.start == "" || s.cfg.start != e.name then st
    else if s.state == Suppressed then SetSchedule(st, i, s.(suppressions := s.suppressions + 1))
    else if s.state == Running then SetSchedule(st, i, s.(overlaps := s.overlaps + 1))
    else Begin(cfg, st, e, now, i)
  }

  function ExecuteOne(cfg: Config, st: State, e: Event, now: nat, i: nat): (r: State)
    requires i < |st.schedules|
    ensures |r.schedules| == |st.schedules|
  {
    var st1 := ExecuteStart(cfg, st, e, now, i);
    if st.schedules[i].cfg.end != "" && st.schedules[i].cfg.end == e.name then ScheduleKill(st1, i) else st1
  }

  function ExecuteCb(cfg: Config, st: State, e: Event, now: nat, n: nat): (r: State)
    requires n <= |st.schedules|
    ensures |r.schedules| == |st.schedules|
  {
    if n == 0 then st else ExecuteOne(cfg, ExecuteCb(cfg, st, e, now, n - 1), e, now, n - 1)
  }

  // ------------------------------------------------------------------ lmapd_cleanup, one child

  function IndexOfPid(acts: seq<Action>, pid: int, j: nat): (r: Option<nat>)
    ensures r.Some? ==> j <= r.value < |acts| && acts[r.value].pid == pid
    ensures r.None? ==> forall k :: j <= k < |acts| ==> acts[k].pid != pid
    decreases |acts| - j
  {
    if j >= |acts| then None else if acts[j].pid == pid then Some(j) else IndexOfPid(acts, pid, j + 1)
  }

  function LocateFrom(scheds: seq<Schedule>, pid: int, i: nat): (r: Option<(nat, nat)>)
    ensures r.Some? ==> i <= r.value.0 < |scheds| && r.value.1 < |scheds[r.value.0].actions|
                        && scheds[r.value.0].actions[r.value.1].pid == pid
    ensures r.None? ==> forall k, l :: i <= k < |scheds| && 0 <= l < |scheds[k].actions| ==>
            scheds[k].actions[l].pid != pid
    decreases |scheds| - i
  {
    if i >= |scheds| then None
    else
      var j := IndexOfPid(scheds[i].actions, pid, 0);
      if j.Some? then Some((i, j.value)) else LocateFrom(scheds, pid, i + 1)
  }

  function Locate(st: State, pid: int): Option<(nat, nat)> { LocateFrom(st.schedules, pid, 0) }

  /** The wait status of a dead child; waitpid reports no other change without WUNTRACED. */
  type signal = n: int | n >= 1 witness 1
  datatype WaitStatus = Exited(code: nat) | Signaled(sig: signal)

  function StatusOf(s: WaitStatus): int {
    match s case Exited(c) => c case Signaled(g) => -(g as int)
  }

  function Completed(a: Action, status: int, now: nat): Action {
    var b := a.(pid := 0, state := ActEnabled, lastCompletion := now, lastStatus := status);
    if status == 0 then b
    else b.(lastFailedCompletion := now, lastFailedStatus := status, failures := a.failures + 1)
  }

  /** The destinations of an action as indices; unknown names are dropped. */
  function Dests(names: seq<string>, tags: seq<string>, n: nat): (r: seq<nat>)
    requires n <= |tags|
    ensures forall d :: d in r ==> d < |names|
  {
    if n == 0 then []
    else
      var d := Resolve(names, tags[n - 1]);
      Dests(names, tags, n - 1) + (if d.Some? then [d.value] else [])
  }

  function DestsOf(st: State, i: nat, j: nat): (r: seq<nat>)
    requires At(st, i, j)
    ensures forall d :: d in r ==> d < |st.schedules|
  {
    var tags := st.schedules[i].actions[j].cfg.destinations;
    Dests(Names(st.schedules), tags, |tags|)
  }

  /** First round of moves: only those to the own schedule happen, the others are deferred. */
  function MoveOwnUpTo(st: State, i: nat, j: nat, dests: seq<nat>, n: nat): (r: State)
    requires At(st, i, j) && n <= |dests|
    ensures |r.schedules| == |st.schedules| && |r.schedules[i].actions| == |st.schedules[i].actions|
  {
    if n == 0 then st
    else
      var st1 := MoveOwnUpTo(st, i, j, dests, n - 1);
      if dests[n - 1] != i then SetAction(st1, i, j, st1.schedules[i].actions[j].(deferred := true))
      else Log(st1, ActionMoved(i, j, i))
  }

  function MoveAllUpTo(st: State, i: nat, j: nat, dests: seq<nat>, n: nat): (r: State)
    requires n <= |dests|
    ensures r.schedules == st.schedules && r.supps == st.supps && r.startupDone == st.startupDone
    ensures r.world.(log := st.world.log) == st.world
  {
    if n == 0 then st else Log(MoveAllUpTo(st, i, j, dests, n - 1), ActionMoved(i, j, dests[n - 1]))
  }

  /** The bookkeeping of a reaped action, the end of its meta file, and the first round of moves. */
  function Gather(st: State, i: nat, j: nat, status: int, now: nat): (r: State)
    requires At(st, i, j)
    ensures |r.schedules| == |st.schedules| && |r.schedules[i].actions| == |st.schedules[i].actions|
  {
    var dests := DestsOf(st, i, j);
    var st1 := SetAction(st, i, j, Completed(st.schedules[i].actions[j], status, now));
    var st2 := Log(Log(st1, Reaped(i, j, status)), MetaEnded(i, j));
    if status == 0 then MoveOwnUpTo(st2, i, j, dests, |dests|) else st2
  }

  /** A workspace without deferred results is cleaned at once. */
  function Collect(st: State, i: nat, j: nat, status: int, now: nat): (r: State)
    requires At(st, i, j)
    ensures |r.schedules| == |st.schedules| && |r.schedules[i].actions| == |st.schedules[i].actions|
  {
    var st1 := Gather(st, i, j, status, now);
    if st1.schedules[i].actions[j].deferred then st1 else Log(st1, ActionCleaned(i, j))
  }

  /** The next action of a sequential schedule is started unless the schedule was told to stop. */
  function Continue(cfg: Config, st: State, i: nat, j: nat, now: nat): (r: State)
    requires At(st, i, j)
    ensures |r.schedules| == |st.schedules| && |r.schedules[i].actions| == |st.schedules[i].actions|
  {
    var s := st.schedules[i];
    if j + 1 < |s.actions| && s.cfg.mode == Sequential && s.state != Suppressed && !s.stop
    then ActionExec(cfg, st, i, j + 1, now).st
    else st
  }

  /** The deferred moves of an action. */
  function Deliver(st: State, i: nat, j: nat): (r: State)
    requires At(st, i, j)
    ensures r.schedules == st.schedules && r.supps == st.supps && r.startupDone == st.startupDone
    ensures r.world.(log := st.world.log) == st.world
  {
    var dests := DestsOf(st, i, j);
    if st.schedules[i].actions[j].deferred then MoveAllUpTo(st, i, j, dests, |dests|) else st
  }

  function FlushAt(st: State, i: nat, j: nat): (r: State)
    requires At(st, i, j)
    ensures |r.schedules| == |st.schedules| && |r.schedules[i].actions| == |st.schedules[i].actions|
  {
    var st1 := Deliver(st, i, j);
    Log(SetAction(st1, i, j, st1.schedules[i].actions[j].(deferred := false)), ActionCleaned(i, j))
  }

  function FlushUpTo(st: State, i: nat, n: nat): (r: State)
    requires i < |st.schedules| && n <= |st.schedules[i].actions|
    ensures |r.schedules| == |st.schedules| && |r.schedules[i].actions| == |st.schedules[i].actions|
  {
    if n == 0 then st else FlushAt(FlushUpTo(st, i, n - 1), i, n - 1)
  }

  predicate StillRunning(s: Schedule) { exists a :: a in s.actions && a.state == ActRunning }
  predicate SomeSuccess(s: Schedule) { exists a :: a in s.actions && a.lastStatus == 0 }

  /** A RUNNING schedule becomes ENABLED or, while suppressions are in force, SUPPRESSED. */
  function Settle(s: Schedule): Schedule {
    if s.state == Running then s.(state := if s.active > 0 then Suppressed else Enabled) else s
  }

  /** The queue of a schedule is cleaned when some action succeeded; otherwise the run is a failure. */
  function AccountRun(st: State, i: nat, succeeded: bool): State
    requires i < |st.schedules|
  {
    if succeeded then Log(st, ScheduleCleaned(i))
    else SetSchedule(st, i, st.schedules[i].(failures := st.schedules[i].failures + 1))
  }

  /** A schedule none of whose actions is RUNNING any more. */
  function Conclude(st: State, i: nat): State
    requires i < |st.schedules|
  {
    var s := st.schedules[i];
    AccountRun(FlushUpTo(SetSchedule(st, i, Settle(s)), i, |s.actions|), i, SomeSuccess(s))
  }

  function ReapAt(cfg: Config, st: State, i: nat, j: nat, status: int, now: nat): State
    requires At(st, i, j)
  {
    var st1 := Continue(cfg, Collect(st, i, j, status, now), i, j, now);
    if StillRunning(st1.schedules[i]) then st1 else Conclude(st1, i)
  }

  function Reap(cfg: Config, st: State, pid: int, status: WaitStatus, now: nat): State {
    if pid <= 0 || pid !in st.world.children then st
    else
      var st0 := st.(world := st.world.(children := st.world.children - {pid}));
      match Locate(st, pid)
      case None => st0
      case Some((i, j)) => ReapAt(cfg, st0, i, j, StatusOf(status), now)
  }

  // ------------------------------------------------------------------ runs

  datatype Input =
    | Fire(e: Event, now: nat)
    | Death(pid: int, status: WaitStatus, now: nat)

  function Step(cfg: Config, st: State, x: Input): State {
    match x
    case Fire(e, now) =>
      var st1 := SuppressCb(cfg, st, e, |st.supps|);
      ExecuteCb(cfg, st1, e, now, |st1.schedules|)
    case Death(pid, status, now) => Reap(cfg, st, pid, status, now)
  }

  function Run(cfg: Config, st: State, xs: seq<Input>): State {
    if xs == [] then st else Step(cfg, Run(cfg, st, xs[..|xs| - 1]), xs[|xs| - 1])
  }

  /** The state a configuration is loaded in. */
  predicate Initial(st: State) {
    && st.world.log == []
    && (forall k :: 0 <= k < |st.supps| ==> st.supps[k].state != SuppActive)
    && (forall i :: 0 <= i < |st.schedules| ==> InitialSchedule(st.schedules[i]))
    && (forall p :: p in st.world.children ==> p > 0)
  }

  predicate InitialSchedule(s: Schedule) {
    && (s.state == Enabled || s.state == Disabled) && !s.stop
    && s.invocations == s.failures == s.suppressions == s.overlaps == s.active == 0
    && (forall j :: 0 <= j < |s.actions| ==> InitialAction(s.actions[j]))
  }

  predicate InitialAction(a: Action) {
    && (a.state == ActEnabled || a.state == ActDisabled) && !a.deferred && a.pid == 0
    && a.invocations == a.failures == a.suppressions == a.overlaps == a.active == 0
  }
}

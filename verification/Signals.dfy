/**
 Which processes are signalled: by the end event of their schedule, and by suppressions that start.
 Everything is said about one step, its log and its result.
 */
module Signals {
  import opened Model
  import opened Invariants
  import opened Protocol
  import opened Isolation
  import opened Spoiling
  import opened Firing
  import opened Suppressions

  // ------------------------------------------------------------------ lists of signals

  /** The action is named and RUNNING, with a process. */
  predicate Signalled(a: Action) { a.cfg.name != "" && a.state == ActRunning && a.pid != 0 }

  /** The signals for the chosen ones among the actions that can be signalled, in list order. */
  ghost function SignalsTo(acts: seq<Action>, chosen: Action -> bool): seq<Op> {
    if acts == [] then []
    else
      var a := acts[|acts| - 1];
      SignalsTo(acts[..|acts| - 1], chosen) + (if Signalled(a) && chosen(a) then [Killed(a.pid)] else [])
  }

  ghost function Everyone(): Action -> bool { a => true }

  lemma SignalsNone(chosen: Action -> bool)
    ensures SignalsTo([], chosen) == []
  {
  }

  lemma SignalsNext(acts: seq<Action>, n: nat, chosen: Action -> bool)
    requires n < |acts|
    ensures SignalsTo(acts[..n + 1], chosen) ==
            SignalsTo(acts[..n], chosen) + (if Signalled(acts[n]) && chosen(acts[n]) then [Killed(acts[n].pid)] else [])
  {
    assert acts[..n + 1][..n] == acts[..n];
  }

  lemma {:induction false} SignalsExactly(acts: seq<Action>, chosen: Action -> bool, p: int)
    ensures Killed(p) in SignalsTo(acts, chosen) <==>
            exists j :: 0 <= j < |acts| && Signalled(acts[j]) && chosen(acts[j]) && acts[j].pid == p
    ensures forall op :: op in SignalsTo(acts, chosen) ==> op.Killed?
  {
    if acts != [] {
      hide Signalled;
      var n := |acts| - 1;
      SignalsExactly(acts[..n], chosen, p);
      assert forall j :: 0 <= j < n ==> acts[..n][j] == acts[j];
    }
  }

  // ------------------------------------------------------------------ the end event of a schedule

  /** The event ends schedule s. */
  predicate Ends(s: Schedule, e: Event) { s.cfg.name != "" && s.cfg.end != "" && s.cfg.end == e.name }

  lemma {:induction false} KillUpToLogs(st: State, i: nat, n: nat)
    requires i < |st.schedules| && n <= |st.schedules[i].actions|
    ensures KillUpTo(st, i, n).world.log == st.world.log + SignalsTo(st.schedules[i].actions[..n], Everyone())
  {
    if n > 0 {
      KillUpToLogs(st, i, n - 1);
      SignalsNext(st.schedules[i].actions, n - 1, Everyone());
    }
  }

  /** From log to log' something happened to schedule i, but no signal was sent. */
  ghost predicate Unsignalled(log: seq<Op>, log': seq<Op>, i: nat) {
    Grows(log, log') && forall k :: |log| <= k < |log'| ==> !log'[k].Killed? && log'[k].s == i
  }

  lemma BeginUnsignalled(cfg: Config, st: State, st': State, e: Event, now: nat, i: nat)
    requires i < |st.schedules| && RunBegins(cfg, st, st', e, now, i)
    ensures forall k :: |st.world.log| <= k < |st'.world.log| ==> !st'.world.log[k].Killed?
    ensures Grows(st.world.log, st'.world.log) && |st'.schedules| == |st.schedules|
    ensures st'.schedules[i].cfg == st.schedules[i].cfg
  {
    hide FirstTried, AllTried, OnCycle;
    var b, n := |st.world.log|, |st.schedules[i].actions|;
    forall k | b <= k < |st'.world.log| ensures !st'.world.log[k].Killed? {
      if b < k <= b + n { assert st'.world.log[b + 1 + (k - b - 1)] == ActionCleaned(i, k - b - 1); }
    }
  }

  /** A visit: first what the start logs, then the signals if the event ends the schedule. */
  lemma VisitSignals(cfg: Config, st: State, e: Event, now: nat, i: nat)
    requires i < |st.schedules|
    ensures var st1, st' := ExecuteStart(cfg, st, e, now, i), ExecuteOne(cfg, st, e, now, i);
            && Unsignalled(st.world.log, st1.world.log, i) && st'.schedules == st1.schedules
            && st'.schedules[i].cfg == st.schedules[i].cfg
            && st'.world.log == st1.world.log
                 + if Ends(st'.schedules[i], e) then SignalsTo(st'.schedules[i].actions, Everyone()) else []
  {
    hide ExecuteStart, KillUpTo, SignalsTo, RunBegins;
    var st1 := ExecuteStart(cfg, st, e, now, i);
    StartUnsignalled(cfg, st, e, now, i);
    var acts := st1.schedules[i].actions;
    KillUpToLogs(st1, i, |acts|);
    assert acts[..|acts|] == acts;
  }

  lemma StartUnsignalled(cfg: Config, st: State, e: Event, now: nat, i: nat)
    requires i < |st.schedules|
    ensures var st1 := ExecuteStart(cfg, st, e, now, i);
            Unsignalled(st.world.log, st1.world.log, i) && st1.schedules[i].cfg == st.schedules[i].cfg
  {
    hide Begin, RunBegins;
    var st1 := ExecuteStart(cfg, st, e, now, i);
    if BegunBy(st.schedules[i], e) {
      RunBegun(cfg, st, e, now, i);
      BeginUnsignalled(cfg, st, st1, e, now, i);
      BeginAbout(cfg, st, e, now, i);
      AboutUnsignalled(st.world.log, st1.world.log, i);
    } else {
      NotBegun(cfg, st, e, now, i);
    }
  }

  lemma BeginAbout(cfg: Config, st: State, e: Event, now: nat, i: nat)
    requires i < |st.schedules|
    ensures Extends(st.world.log, Begin(cfg, st, e, now, i).world.log, i)
  {
    hide ScheduleExec, Extends;
    var log, st0 := st.world.log, TakeOver(st, e, now, i);
    NothingAbout(log, i);
    ExtendsSnoc(log, log, ScheduleMoved(i), i);
    ScheduleExecAbout(cfg, st0, i, now);
    ExtendsTrans(log, st0.world.log, ScheduleExec(cfg, st0, i, now).world.log, i);
  }

  lemma AboutUnsignalled(log: seq<Op>, log': seq<Op>, i: nat)
    requires Extends(log, log', i) && forall k :: |log| <= k < |log'| ==> !log'[k].Killed?
    ensures Unsignalled(log, log', i)
  {
  }

  // ------------------------------------------------------------------ suppressions that start

  /**
   The actions that a starting suppression signals: all if the schedule has been told to stop, or
   those it stops by their own tags.
   */
  ghost function Stopped(cfg: Config, sup: SuppCfg, told: bool): Action -> bool {
    (a: Action) => told || (sup.stop && Strikes(cfg, sup, a.cfg.suppressionTags))
  }

  /** The signals for one schedule. */
  ghost function StopSignals(cfg: Config, sup: SuppCfg, s: Schedule): seq<Op> {
    if s.state == Disabled then []
    else SignalsTo(s.actions, Stopped(cfg, sup, s.stop || (sup.stop && Strikes(cfg, sup, s.cfg.suppressionTags))))
  }

  ghost function AllStopSignals(cfg: Config, sup: SuppCfg, scheds: seq<Schedule>): seq<Op> {
    if scheds == [] then []
    else AllStopSignals(cfg, sup, scheds[..|scheds| - 1]) + StopSignals(cfg, sup, scheds[|scheds| - 1])
  }

  lemma {:induction false} SuppressActionsLogs(cfg: Config, st: State, sup: SuppCfg, i: nat, n: nat)
    requires i < |st.schedules| && n <= |st.schedules[i].actions|
    ensures var s := st.schedules[i];
            SuppressActions(cfg, st, sup, i, n).world.log ==
              st.world.log + SignalsTo(s.actions[..n], Stopped(cfg, sup, s.stop))
  {
    hide SuppressedAction, BigTagMatch, Strikes, SignalsTo;
    SignalsNone(Stopped(cfg, sup, st.schedules[i].stop));
    if n > 0 {
      SuppressActionsLogs(cfg, st, sup, i, n - 1);
      SuppressActionsFacts(cfg, st, sup, i, n - 1);
      var s := st.schedules[i];
      SuppressAtLogs(cfg, SuppressActions(cfg, st, sup, i, n - 1), sup, i, n - 1);
      hide SuppressAt, Stopped;
      SignalsNext(s.actions, n - 1, Stopped(cfg, sup, s.stop));
    }
  }

  lemma SuppressAtLogs(cfg: Config, st: State, sup: SuppCfg, i: nat, j: nat)
    requires At(st, i, j)
    ensures var s, a := st.schedules[i], st.schedules[i].actions[j];
            SuppressAt(cfg, st, sup, i, j).world.log ==
            st.world.log + if Signalled(a) && Stopped(cfg, sup, s.stop)(a) then [Killed(a.pid)] else []
  {
    hide SuppressedAction, BigTagMatch, Strikes;
    StrikesExactly(cfg, sup, st.schedules[i].actions[j].cfg.suppressionTags);
  }

  lemma SuppressOneLogs(cfg: Config, st: State, sup: SuppCfg, i: nat)
    requires i < |st.schedules|
    ensures SuppressOne(cfg, st, sup, i).world.log == st.world.log + StopSignals(cfg, sup, st.schedules[i])
  {
    hide SuppressActions, BigTagMatch, Strikes, SignalsTo;
    var s := st.schedules[i];
    assert s.actions[..|s.actions|] == s.actions;
    StrikesExactly(cfg, sup, s.cfg.suppressionTags);
    SuppressActionsLogs(cfg, SetSchedule(st, i, SuppressSchedule(cfg, s, sup)), sup, i, |s.actions|);
  }

  lemma {:induction false} SuppressUpToLogs(cfg: Config, st: State, sup: SuppCfg, n: nat)
    requires n <= |st.schedules|
    ensures SuppressUpTo(cfg, st, sup, n).world.log == st.world.log + AllStopSignals(cfg, sup, st.schedules[..n])
  {
    hide SuppressOne, StopSignals, Suppressing;
    if n > 0 {
      SuppressUpToLogs(cfg, st, sup, n - 1);
      SuppressUpToFacts(cfg, st, sup, n - 1);
      SuppressOneLogs(cfg, SuppressUpTo(cfg, st, sup, n - 1), sup, n - 1);
      assert st.schedules[..n][..n - 1] == st.schedules[..n - 1];
    }
  }

  /** The event starts suppression x. */
  predicate Starts(x: Supp, e: Event) {
    x.state == SuppEnabled && x.cfg.name != "" && x.cfg.match_ != [] && StartsAt(x, e)
  }

  /** One suppression and one event: a start logs exactly these signals, an end none. */
  lemma {:induction false} SuppressionSignals(cfg: Config, st: State, e: Event, k: nat)
    requires k < |st.supps|
    ensures SuppressCbOne(cfg, st, e, k).world.log ==
            st.world.log + if Starts(st.supps[k], e) then AllStopSignals(cfg, st.supps[k].cfg, st.schedules) else []
  {
    hide SuppressUpTo, ReleaseUpTo, AllStopSignals, Suppressing, Releasing;
    var st1 := SuppressCbStart(cfg, st, e, k);
    assert st.schedules[..|st.schedules|] == st.schedules;
    SuppressUpToLogs(cfg, SetSupp(st, k, SuppActive), st.supps[k].cfg, |st.schedules|);
    ReleaseUpToFacts(cfg, SetSupp(st1, k, SuppEnabled), st1.supps[k].cfg, |st1.schedules|);
  }

  // ------------------------------------------------------------------ all suppressions of one event

  /** The pid is signalled between log and log'. */
  ghost predicate KilledIn(log: seq<Op>, log': seq<Op>, p: int) {
    exists k :: |log| <= k < |log'| && log'[k] == Killed(p)
  }

  /** Event e starts suppression k, which stops what it matches, and it matches these tags. */
  ghost predicate StopsBy(cfg: Config, st: State, e: Event, k: nat, tags: seq<string>)
    requires k < |st.supps|
  {
    Starts(st.supps[k], e) && st.supps[k].cfg.stop && Strikes(cfg, st.supps[k].cfg, tags)
  }

  /** Some of the first n suppressions that start with e stops what has these tags. */
  ghost predicate SomeStops(cfg: Config, st: State, e: Event, n: nat, tags: seq<string>)
    requires n <= |st.supps|
  {
    exists k :: 0 <= k < n && StopsBy(cfg, st, e, k, tags)
  }

  ghost predicate SomeStarts(st: State, e: Event, n: nat)
    requires n <= |st.supps|
  {
    exists k :: 0 <= k < n && Starts(st.supps[k], e)
  }

  /** The first n suppressions leave no process of action a of schedule s unsignalled. */
  ghost predicate Doomed(cfg: Config, st: State, e: Event, n: nat, s: Schedule, a: Action)
    requires n <= |st.supps|
  {
    && s.state != Disabled && a.state == ActRunning
    && ((s.stop && SomeStarts(st, e, n))
        || SomeStops(cfg, st, e, n, s.cfg.suppressionTags)
        || SomeStops(cfg, st, e, n, a.cfg.suppressionTags))
  }

  lemma SomeNext(cfg: Config, st: State, e: Event, n: nat, tags: seq<string>)
    requires n < |st.supps|
    ensures SomeStops(cfg, st, e, n + 1, tags) <==> SomeStops(cfg, st, e, n, tags) || StopsBy(cfg, st, e, n, tags)
    ensures SomeStarts(st, e, n + 1) <==> SomeStarts(st, e, n) || Starts(st.supps[n], e)
    ensures SomeStops(cfg, st, e, n, tags) ==> SomeStarts(st, e, n)
  {
    hide Starts, Strikes;
    if SomeStops(cfg, st, e, n, tags) {
      var k :| 0 <= k < n && StopsBy(cfg, st, e, k, tags);
      assert Starts(st.supps[k], e);
    }
  }

  /** The signal for action (i, j) among those of a suppression that starts. */
  lemma {:induction false} StopSignalsExactly(cfg: Config, sup: SuppCfg, scheds: seq<Schedule>, p: int)
    ensures Killed(p) in AllStopSignals(cfg, sup, scheds) <==>
            exists i :: 0 <= i < |scheds| && Killed(p) in StopSignals(cfg, sup, scheds[i])
  {
    hide StopSignals;
    if scheds != [] {
      var n := |scheds| - 1;
      StopSignalsExactly(cfg, sup, scheds[..n], p);
      assert forall i :: 0 <= i < n ==> scheds[..n][i] == scheds[i];
    }
  }

  /** Suppression sup signals action a of schedule s when it starts. */
  ghost predicate Hits(cfg: Config, sup: SuppCfg, s: Schedule, a: Action) {
    && s.state != Disabled && Signalled(a)
    && (s.stop || (sup.stop && (Strikes(cfg, sup, s.cfg.suppressionTags) || Strikes(cfg, sup, a.cfg.suppressionTags))))
  }

  lemma OneSignalExactly(cfg: Config, st: State, sup: SuppCfg, i: nat, j: nat)
    requires PidsOk(st) && At(st, i, j) && Live(st.schedules[i].actions[j])
    ensures Killed(PidAt(st, i, j)) in AllStopSignals(cfg, sup, st.schedules) <==>
            Hits(cfg, sup, st.schedules[i], st.schedules[i].actions[j])
  {
    hide StopSignals, AllStopSignals, Strikes;
    var p := PidAt(st, i, j);
    StopSignalsExactly(cfg, sup, st.schedules, p);
    forall k: nat | k < |st.schedules|
      ensures Killed(p) in StopSignals(cfg, sup, st.schedules[k]) <==>
              exists l :: 0 <= l < |st.schedules[k].actions|
                && Hits(cfg, sup, st.schedules[k], st.schedules[k].actions[l])
                          && PidAt(st, k, l) == p
    {
      OneScheduleSignals(cfg, sup, st.schedules[k], p);
    }
    if k: nat :| k < |st.schedules| && Killed(p) in StopSignals(cfg, sup, st.schedules[k]) {
      var l :| 0 <= l < |st.schedules[k].actions| && Hits(cfg, sup, st.schedules[k], st.schedules[k].actions[l])
        && PidAt(st, k, l) == p;
      assert At(st, k, l);
    }
  }

  lemma OneScheduleSignals(cfg: Config, sup: SuppCfg, s: Schedule, p: int)
    ensures Killed(p) in StopSignals(cfg, sup, s) <==>
            exists l :: 0 <= l < |s.actions| && Hits(cfg, sup, s, s.actions[l]) && s.actions[l].pid == p
  {
    hide Strikes;
    SignalsExactly(s.actions, Stopped(cfg, sup, s.stop || (sup.stop && Strikes(cfg, sup, s.cfg.suppressionTags))), p);
  }

  /** One of the first n suppressions stops action a by its own tags, while its schedule has not been told to stop. */
  ghost predicate Quelled(cfg: Config, st: State, e: Event, n: nat, s: Schedule, a: Action)
    requires n <= |st.supps|
  {
    && s.state != Disabled && a.state == ActRunning && !s.stop
    && exists k :: 0 <= k < n && StopsBy(cfg, st, e, k, a.cfg.suppressionTags)
                   && !SomeStops(cfg, st, e, k + 1, s.cfg.suppressionTags)
  }

  lemma QuelledNext(cfg: Config, st: State, e: Event, n: nat, s: Schedule, a: Action)
    requires n < |st.supps|
    ensures Quelled(cfg, st, e, n + 1, s, a) <==>
            || Quelled(cfg, st, e, n, s, a)
            || (s.state != Disabled && a.state == ActRunning && !s.stop && StopsBy(cfg, st, e, n, a.cfg.suppressionTags)
                && !SomeStops(cfg, st, e, n + 1, s.cfg.suppressionTags))
    ensures Quelled(cfg, st, e, n, s, a) ==> Doomed(cfg, st, e, n, s, a)
  {
    hide StopsBy, SomeStops;
    if Quelled(cfg, st, e, n, s, a) { QuelledDoomed(cfg, st, e, n, s, a); }
  }

  lemma QuelledDoomed(cfg: Config, st: State, e: Event, n: nat, s: Schedule, a: Action)
    requires n <= |st.supps| && Quelled(cfg, st, e, n, s, a)
    ensures Doomed(cfg, st, e, n, s, a)
  {
    hide StopsBy;
    var k :| 0 <= k < n && StopsBy(cfg, st, e, k, a.cfg.suppressionTags);
    assert SomeStops(cfg, st, e, n, a.cfg.suppressionTags);
  }

  /** What the first n suppressions have done to action j of schedule i. */
  ghost predicate DoneSoFar(cfg: Config, st: State, st': State, e: Event, n: nat, i: nat, j: nat)
    requires At(st, i, j) && n <= |st.supps|
  {
    && At(st', i, j) && |st'.supps| == |st.supps| && (forall m :: n <= m < |st.supps| ==> st'.supps[m] == st.supps[m])
    && Grows(st.world.log, st'.world.log)
    && var s, s', a, b := st.schedules[i], st'.schedules[i], st.schedules[i].actions[j], st'.schedules[i].actions[j];
    && s'.cfg == s.cfg && (s'.state == Disabled <==> s.state == Disabled) && b.cfg == a.cfg && b.pid == a.pid
    && (s'.stop <==> s.stop || (s.state != Disabled && SomeStops(cfg, st, e, n, s.cfg.suppressionTags)))
    && (b.state == ActRunning <==> a.state == ActRunning && !Quelled(cfg, st, e, n, s, a))
    && (Live(a) ==> (KilledIn(st.world.log, st'.world.log, a.pid) <==> a.cfg.name != "" && Doomed(cfg, st, e, n, s, a)))
  }

  /** One suppression and one event, seen from one action. */
  ghost predicate OneDoes(cfg: Config, sup: SuppCfg, starts: bool, s: Schedule, s': Schedule, a: Action, b: Action) {
    var told := s.stop || (starts && s.state != Disabled && sup.stop && Strikes(cfg, sup, s.cfg.suppressionTags));
    && s'.cfg == s.cfg && (s'.state == Disabled <==> s.state == Disabled) && b.cfg == a.cfg && b.pid == a.pid
    && (s'.stop <==> told)
    && (b.state == ActRunning <==>
          && a.state == ActRunning
          && !(starts && s.state != Disabled && !told && sup.stop && Strikes(cfg, sup, a.cfg.suppressionTags)))
  }

  lemma StartDoes(cfg: Config, sup: SuppCfg, s: Schedule, s': Schedule, j: nat)
    requires Suppressing(cfg, sup, s, s') && j < |s.actions|
    ensures OneDoes(cfg, sup, true, s, s', s.actions[j], s'.actions[j])
  {
    hide BigTagMatch, Strikes;
    StrikesExactly(cfg, sup, s.cfg.suppressionTags);
    StrikesExactly(cfg, sup, s.actions[j].cfg.suppressionTags);
  }

  lemma EndDoes(cfg: Config, sup: SuppCfg, s: Schedule, s': Schedule, j: nat)
    requires Releasing(cfg, sup, s, s') && j < |s.actions|
    ensures OneDoes(cfg, sup, false, s, s', s.actions[j], s'.actions[j])
  {
    hide BigTagMatch, Strikes;
  }

  lemma SuppressOneDoes(cfg: Config, st: State, e: Event, k: nat, i: nat, j: nat)
    requires k < |st.supps| && At(st, i, j)
    ensures var st' := SuppressCbOne(cfg, st, e, k);
            && At(st', i, j) && (forall m :: 0 <= m < |st.supps| && m != k ==> st'.supps[m] == st.supps[m])
            && OneDoes(cfg, st.supps[k].cfg, Starts(st.supps[k], e), st.schedules[i], st'.schedules[i],
                       st.schedules[i].actions[j], st'.schedules[i].actions[j])
  {
    hide Suppressing, Releasing, Strikes, OneDoes;
    var sup, s := st.supps[k].cfg, st.schedules[i];
    SuppressUpToFacts(cfg, SetSupp(st, k, SuppActive), sup, |st.schedules|);
    var st1 := SuppressCbStart(cfg, st, e, k);
    ReleaseUpToFacts(cfg, SetSupp(st1, k, SuppEnabled), st1.supps[k].cfg, |st1.schedules|);
    var st2 := SuppressCbEnd(cfg, st1, e, k);
    NothingDoes(cfg, sup, s, s.actions[j]);
    if Starts(st.supps[k], e) && sup.name != "" {
      assert Suppressing(cfg, sup, s, st1.schedules[i]);
      SameLength(cfg, sup, s, st1.schedules[i]);
      StartDoes(cfg, sup, s, st1.schedules[i], j);
    }
    var s1 := st1.schedules[i];
    NothingDoes(cfg, sup, s1, s1.actions[j]);
    if st2 != st1 {
      SameLength(cfg, sup, s1, st2.schedules[i]);
      EndDoes(cfg, sup, s1, st2.schedules[i], j);
    }
    DoesTrans(cfg, sup, Starts(st.supps[k], e), s, s1, st2.schedules[i], s.actions[j], s1.actions[j],
      st2.schedules[i].actions[j]);
  }

  lemma SameLength(cfg: Config, sup: SuppCfg, s: Schedule, s': Schedule)
    requires Suppressing(cfg, sup, s, s') || Releasing(cfg, sup, s, s')
    ensures |s'.actions| == |s.actions|
  {
  }

  lemma NothingDoes(cfg: Config, sup: SuppCfg, s: Schedule, a: Action)
    ensures OneDoes(cfg, sup, false, s, s, a, a)
  {
  }

  lemma DoesTrans(cfg: Config, sup: SuppCfg, starts: bool, s: Schedule, s1: Schedule, s2: Schedule, a: Action,
                  b: Action, c: Action)
    requires OneDoes(cfg, sup, starts, s, s1, a, b) && OneDoes(cfg, sup, false, s1, s2, b, c)
    ensures OneDoes(cfg, sup, starts, s, s2, a, c)
  {
    hide Strikes;
  }

  lemma KilledTrans(a: seq<Op>, b: seq<Op>, ops: seq<Op>, p: int)
    requires Grows(a, b)
    ensures Grows(a, b + ops) && (KilledIn(a, b + ops, p) <==> KilledIn(a, b, p) || Killed(p) in ops)
  {
    var c := b + ops;
    if k :| |a| <= k < |b| && b[k] == Killed(p) { assert c[k] == Killed(p); }
    if k :| 0 <= k < |ops| && ops[k] == Killed(p) { assert c[|b| + k] == Killed(p); }
    if k :| |a| <= k < |c| && c[k] == Killed(p) { assert k < |b| ==> b[k] == Killed(p); }
    assert c[..|a|] == b[..|a|];
  }

  lemma DoneNext(cfg: Config, st: State, st1: State, e: Event, n: nat, i: nat, j: nat)
    requires At(st, i, j) && n < |st.supps| && DoneSoFar(cfg, st, st1, e, n, i, j) && PidsOk(st1)
    ensures DoneSoFar(cfg, st, SuppressCbOne(cfg, st1, e, n), e, n + 1, i, j)
  {
    hide SuppressCbOne, Starts, StopsBy, Strikes, Quelled, SomeStops, AllStopSignals, KilledIn, SomeStarts, PidsOk,
      Grows;
    var s, a := st.schedules[i], st.schedules[i].actions[j];
    var x, st2 := st.supps[n], SuppressCbOne(cfg, st1, e, n);
    SuppressOneDoes(cfg, st1, e, n, i, j);
    SuppressionSignals(cfg, st1, e, n);
    SomeNext(cfg, st, e, n, s.cfg.suppressionTags);
    SomeNext(cfg, st, e, n, a.cfg.suppressionTags);
    QuelledNext(cfg, st, e, n, s, a);
    StopsByMeans(cfg, st, e, n, s.cfg.suppressionTags);
    StopsByMeans(cfg, st, e, n, a.cfg.suppressionTags);
    var ops := if Starts(x, e) then AllStopSignals(cfg, x.cfg, st1.schedules) else [];
    KilledTrans(st.world.log, st1.world.log, ops, a.pid);
    if Live(a) { OneSignalExactly(cfg, st1, x.cfg, i, j); }
  }

  lemma StopsByMeans(cfg: Config, st: State, e: Event, k: nat, tags: seq<string>)
    requires k < |st.supps|
    ensures StopsBy(cfg, st, e, k, tags) <==>
            Starts(st.supps[k], e) && st.supps[k].cfg.stop && Strikes(cfg, st.supps[k].cfg, tags)
  {
  }

  lemma {:induction false} SuppressCbDoes(cfg: Config, st: State, e: Event, n: nat, i: nat, j: nat)
    requires Inv(st) && At(st, i, j) && n <= |st.supps|
    ensures DoneSoFar(cfg, st, SuppressCb(cfg, st, e, n), e, n, i, j)
  {
    hide SuppressCbOne, StopsBy, DoneSoFar;
    if n == 0 {
      NothingDone(cfg, st, e, i, j);
    } else {
      SuppressCbDoes(cfg, st, e, n - 1, i, j);
      var st1 := SuppressCb(cfg, st, e, n - 1);
      SuppressCbCalm(cfg, st, e, n - 1);
      AllCalmKeeps(st, st1);
      DoneNext(cfg, st, st1, e, n - 1, i, j);
    }
  }

  lemma NothingDone(cfg: Config, st: State, e: Event, i: nat, j: nat)
    requires At(st, i, j)
    ensures DoneSoFar(cfg, st, st, e, 0, i, j)
  {
  }

  /**
   All suppressions that an event starts: the pids they signal, and what they leave RUNNING, from the
   state before.
   */
  lemma {:induction false} StartSignals(cfg: Config, st: State, e: Event, p: int)
    requires Inv(st)
    ensures var st1 := SuppressCb(cfg, st, e, |st.supps|);
            && Grows(st.world.log, st1.world.log)
            && (KilledIn(st.world.log, st1.world.log, p) <==> exists i: nat, j: nat :: StoppedAt(cfg, st, e, i, j, p))
  {
    hide SuppressCb, Inv, DoneSoFar, Doomed;
    var st1 := SuppressCb(cfg, st, e, |st.supps|);
    SuppressCbFine(cfg, st, e, |st.supps|, {});
    SuppressCbCalm(cfg, st, e, |st.supps|);
    forall i: nat, j: nat | At(st, i, j) && PidAt(st, i, j) == p && p != 0
      ensures KilledIn(st.world.log, st1.world.log, p) <==> StoppedAt(cfg, st, e, i, j, p)
    {
      SuppressCbDoes(cfg, st, e, |st.supps|, i, j);
      DoneMeans(cfg, st, st1, e, i, j);
    }
    if KilledIn(st.world.log, st1.world.log, p) { KilledRuns(st, st1, p); }
    forall i: nat, j: nat ensures StoppedAt(cfg, st, e, i, j, p) ==> p != 0 {
      if StoppedAt(cfg, st, e, i, j, p) { StoppedLive(cfg, st, e, i, j, p); }
    }
  }

  /** The process p of action j of schedule i is signalled by a suppression that e starts. */
  ghost predicate StoppedAt(cfg: Config, st: State, e: Event, i: nat, j: nat, p: int) {
    && At(st, i, j) && var s, a := st.schedules[i], st.schedules[i].actions[j];
    && a.pid == p && a.cfg.name != "" && Doomed(cfg, st, e, |st.supps|, s, a)
  }

  lemma StoppedLive(cfg: Config, st: State, e: Event, i: nat, j: nat, p: int)
    requires Inv(st) && StoppedAt(cfg, st, e, i, j, p)
    ensures p != 0
  {
    hide SomeStops;
    assert ActionCore(st.schedules[i], st.schedules[i].actions[j]);
  }

  lemma DoneMeans(cfg: Config, st: State, st1: State, e: Event, i: nat, j: nat)
    requires At(st, i, j) && DoneSoFar(cfg, st, st1, e, |st.supps|, i, j) && PidAt(st, i, j) != 0
    ensures KilledIn(st.world.log, st1.world.log, PidAt(st, i, j)) <==> StoppedAt(cfg, st, e, i, j, PidAt(st, i, j))
  {
    hide Doomed, Quelled, SomeStops, KilledIn;
  }

  lemma KilledRuns(st: State, st1: State, p: int)
    requires Fine(st, st1, {}) && AllCalm(st, st1) && KilledIn(st.world.log, st1.world.log, p)
    ensures exists i: nat, j: nat :: At(st, i, j) && PidAt(st, i, j) == p && p != 0
  {
    var k :| |st.world.log| <= k < |st1.world.log| && st1.world.log[k] == Killed(p);
    assert Allowed(st1, st1.world.log[k]);
    var i: nat, j: nat :| At(st1, i, j) && PidAt(st1, i, j) == p != 0;
    assert Calm(st.schedules[i], st1.schedules[i])
           && CalmAction(st.schedules[i].actions[j], st1.schedules[i].actions[j]);
  }

  /**
   What an event leaves of the state of a RUNNING action: it is SUPPRESSED only by a suppression that
   stops it by its own tags.
   */
  lemma {:induction false} QuelledExactly(cfg: Config, st: State, e: Event, i: nat, j: nat)
    requires Inv(st) && At(st, i, j)
    ensures var st1 := SuppressCb(cfg, st, e, |st.supps|);
            && At(st1, i, j)
            && var s, a, b := st.schedules[i], st.schedules[i].actions[j], st1.schedules[i].actions[j];
            && b.cfg == a.cfg && b.pid == a.pid
            && (b.state == ActRunning <==> a.state == ActRunning && !Quelled(cfg, st, e, |st.supps|, s, a))
  {
    hide SuppressCb, Inv, Quelled, Doomed;
    SuppressCbDoes(cfg, st, e, |st.supps|, i, j);
  }

  // ------------------------------------------------------------------ one step

  /**
   The visit of schedule i, as the last thing of its step that concerns it: after whatever its start
   has logged come the signals for its RUNNING actions, in list order, if the event ends it, and
   nothing otherwise.  The actions are those the step ends with, so those just started are signalled.
   */
  lemma {:induction false} EndSignals(cfg: Config, st: State, e: Event, now: nat, i: nat)
    requires Inv(st) && i < |st.schedules|
    ensures var st' := Step(cfg, st, Fire(e, now));
            && |st'.schedules| == |st.schedules| == |SuppressCb(cfg, st, e, |st.supps|).schedules|
            && var pre, post, t := Visited(cfg, st, e, now, i), Visited(cfg, st, e, now, i + 1), st'.schedules[i];
            && SilentOn(st.world.log, pre.world.log, i) && SilentOn(post.world.log, st'.world.log, i)
            && exists log :: Unsignalled(pre.world.log, log, i)
                 && post.world.log == log + if Ends(t, e) then SignalsTo(t.actions, Everyone()) else []
  {
    hide ExecuteOne, SilentOn, Inv, SuppressCb, Step, SignalsTo, ExecuteStart, Unsignalled;
    StepSplit(cfg, st, e, now, i);
    VisitSignals(cfg, Visited(cfg, st, e, now, i), e, now, i);
  }

  /** The process p of action j of schedule i is signalled as the event ends the schedule. */
  ghost predicate EndedAt(scheds: seq<Schedule>, e: Event, i: nat, j: nat, p: int) {
    && i < |scheds| && j < |scheds[i].actions| && Ends(scheds[i], e)
    && Signalled(scheds[i].actions[j]) && scheds[i].actions[j].pid == p
  }

  /** The same for the schedules before n. */
  ghost predicate EndedBefore(scheds: seq<Schedule>, e: Event, n: nat, p: int) {
    exists i: nat, j: nat :: i < n && EndedAt(scheds, e, i, j, p)
  }

  lemma EndedNext(scheds: seq<Schedule>, scheds': seq<Schedule>, e: Event, n: nat, p: int)
    requires n < |scheds| == |scheds'| && forall i :: 0 <= i < n ==> scheds'[i] == scheds[i]
    ensures EndedBefore(scheds', e, n + 1, p) <==>
            EndedBefore(scheds, e, n, p) || (Ends(scheds'[n], e)
              && Killed(p) in SignalsTo(scheds'[n].actions, Everyone()))
  {
    hide SignalsTo, Ends, Signalled;
    SignalsExactly(scheds'[n].actions, Everyone(), p);
    if i: nat, j: nat :| i < n && EndedAt(scheds, e, i, j, p) { assert EndedAt(scheds', e, i, j, p); }
    if i: nat, j: nat :| i < n + 1 && EndedAt(scheds', e, i, j, p) { assert i < n ==> EndedAt(scheds, e, i, j, p); }
    if Ends(scheds'[n], e) {
      forall j: nat | j < |scheds'[n].actions| && Signalled(scheds'[n].actions[j]) && scheds'[n].actions[j].pid == p
        ensures EndedAt(scheds', e, n, j, p) {}
    }
  }

  lemma UnsignalledNone(log: seq<Op>, log': seq<Op>, i: nat, p: int)
    requires Unsignalled(log, log', i)
    ensures Grows(log, log') && !KilledIn(log, log', p)
  {
  }

  lemma KilledJoin(a: seq<Op>, b: seq<Op>, c: seq<Op>, p: int)
    requires Grows(a, b) && Grows(b, c)
    ensures Grows(a, c) && (KilledIn(a, c, p) <==> KilledIn(a, b, p) || KilledIn(b, c, p))
  {
    assert c[..|a|] == c[..|b|][..|a|];
    assert forall k :: 0 <= k < |b| ==> c[k] == c[..|b|][k];
    if k :| |a| <= k < |b| && b[k] == Killed(p) { assert c[k] == Killed(p); }
  }

  lemma OnlyVisited(cfg: Config, st: State, e: Event, now: nat, n: nat)
    requires Inv(st) && n < |st.schedules|
    ensures forall i :: 0 <= i < |st.schedules| && i != n ==>
            ExecuteOne(cfg, st, e, now, n).schedules[i] == st.schedules[i]
  {
    hide ExecuteOne;
    ExecuteOneKeeps(cfg, st, e, now, n);
  }

  lemma VisitKills(cfg: Config, st: State, e: Event, now: nat, n: nat, p: int)
    requires Inv(st) && n < |st.schedules|
    ensures var st' := ExecuteOne(cfg, st, e, now, n);
            && (forall i :: 0 <= i < |st.schedules| && i != n ==> st'.schedules[i] == st.schedules[i])
            && Grows(st.world.log, st'.world.log)
            && (KilledIn(st.world.log, st'.world.log, p) <==>
                  Ends(st'.schedules[n], e) && Killed(p) in SignalsTo(st'.schedules[n].actions, Everyone()))
  {
    hide ExecuteOne, ExecuteStart, SignalsTo, Ends, Unsignalled, KilledIn, Inv, Grows;
    var st1, st' := ExecuteStart(cfg, st, e, now, n), ExecuteOne(cfg, st, e, now, n);
    OnlyVisited(cfg, st, e, now, n);
    VisitSignals(cfg, st, e, now, n);
    UnsignalledNone(st.world.log, st1.world.log, n, p);
    var ops := if Ends(st'.schedules[n], e) then SignalsTo(st'.schedules[n].actions, Everyone()) else [];
    KilledTrans(st.world.log, st1.world.log, ops, p);
  }

  lemma {:induction false} ExecuteKills(cfg: Config, st: State, e: Event, now: nat, n: nat, p: int)
    requires Inv(st) && n <= |st.schedules|
    ensures var st' := ExecuteCb(cfg, st, e, now, n);
            && Grows(st.world.log, st'.world.log)
            && (KilledIn(st.world.log, st'.world.log, p) <==> EndedBefore(st'.schedules, e, n, p))
  {
    hide ExecuteOne, SignalsTo, Ends, KilledIn, Inv, EndedBefore, Grows;
    if n == 0 {
      KilledNone(st, e, p);
    } else {
      ExecuteKills(cfg, st, e, now, n - 1, p);
      ExecuteCbKeeps(cfg, st, e, now, n - 1);
      var st1 := ExecuteCb(cfg, st, e, now, n - 1);
      VisitKills(cfg, st1, e, now, n - 1, p);
      var st' := ExecuteCb(cfg, st, e, now, n);
      KilledJoin(st.world.log, st1.world.log, st'.world.log, p);
      EndedNext(st1.schedules, st'.schedules, e, n - 1, p);
    }
  }

  lemma KilledNone(st: State, e: Event, p: int)
    ensures Grows(st.world.log, st.world.log) && !KilledIn(st.world.log, st.world.log, p)
            && !EndedBefore(st.schedules, e, 0, p)
  {
  }

  /**
   An event signals a process if and only if it runs a named RUNNING action that a suppression
   started by the event stops, or one that is RUNNING when the event has ended its schedule.
   A suppression stops, unless the schedule is DISABLED: what it matches, or whose schedule it
   matches, if it is told to stop running actions; and everything in a schedule that had been told
   to stop before.
   */
  lemma {:induction false} FireSignals(cfg: Config, st: State, e: Event, now: nat, p: int)
    requires Inv(st)
    ensures var st' := Step(cfg, st, Fire(e, now));
            KilledIn(st.world.log, st'.world.log, p) <==>
            || (exists i: nat, j: nat :: StoppedAt(cfg, st, e, i, j, p))
            || (exists i: nat, j: nat :: EndedAt(st'.schedules, e, i, j, p))
  {
    hide SuppressCb, ExecuteCb, Inv, KilledIn, StoppedAt, EndedAt, Grows;
    var st1 := SuppressCb(cfg, st, e, |st.supps|);
    var st' := Step(cfg, st, Fire(e, now));
    SuppressCbCalm(cfg, st, e, |st.supps|);
    AllCalmKeeps(st, st1);
    StartSignals(cfg, st, e, p);
    ExecuteKills(cfg, st1, e, now, |st1.schedules|, p);
    KilledJoin(st.world.log, st1.world.log, st'.world.log, p);
    AllEnded(cfg, st1, e, now, p);
  }

  lemma AllEnded(cfg: Config, st: State, e: Event, now: nat, p: int)
    ensures var scheds := ExecuteCb(cfg, st, e, now, |st.schedules|).schedules;
            EndedBefore(scheds, e, |st.schedules|, p) <==> exists i: nat, j: nat :: EndedAt(scheds, e, i, j, p)
  {
    hide ExecuteCb;
  }

  /** The death of a process signals nobody. */
  lemma DeathSignals(cfg: Config, st: State, pid: int, status: WaitStatus, now: nat, p: int)
    ensures !KilledIn(st.world.log, Reap(cfg, st, pid, status, now).world.log, p)
  {
    hide Reap;
    DeathTidy(cfg, st, pid, status, now);
  }
}

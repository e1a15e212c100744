/**
 When the workspace of an action is cleaned while a process is at work in it.

 The scheduler concludes a schedule as soon as none of its actions counts as RUNNING, and then
 cleans the workspaces of all of them.  An action that a suppression has stopped through its own
 tags no longer counts as RUNNING although its process may live on.  The theorem of this module
 says for every run which inputs clean a workspace under a live process, and no others do.
 */
module Spoiling {
  import opened Model
  import opened Invariants
  import opened Protocol
  import opened Dataflow

  // ------------------------------------------------------------------ cleaning under a process

  ghost predicate CleanedUnder(log: seq<Op>, p: nat, i: nat, k: nat)
    requires p < |log|
  {
    log[p] == ActionCleaned(i, k) && AtWorkIn(log[..p], i, k)
  }

  /** At or after position m the workspace of action k is cleaned while its process is at work. */
  ghost predicate SpoiltSince(log: seq<Op>, m: nat, i: nat, k: nat) {
    exists p :: m <= p < |log| && CleanedUnder(log, p, i, k)
  }

  /**
   The input is the death of another process of schedule i, no further action of the schedule is
   RUNNING, and action k has a live process all the same.
   */
  ghost predicate CutsOff(st: State, x: Input, i: nat, k: nat)
    requires At(st, i, k)
  {
    && x.Death? && x.pid > 0 && x.pid in st.world.children && Live(st.schedules[i].actions[k])
    && (exists j: nat :: At(st, i, j) && j != k && PidAt(st, i, j) == x.pid)
    && (forall l: nat :: At(st, i, l) && PidAt(st, i, l) != x.pid ==> st.schedules[i].actions[l].state != ActRunning)
  }

  ghost predicate WorkOp(op: Op, i: nat, k: nat) { (op.Launched? || op.Reaped?) && op.s == i && op.a == k }

  ghost predicate Grows(log: seq<Op>, log': seq<Op>) { |log| <= |log'| && log'[..|log|] == log }

  /** No process of action k comes or goes. */
  ghost predicate Inert(log: seq<Op>, log': seq<Op>, i: nat, k: nat) {
    Grows(log, log') && forall n :: |log| <= n < |log'| ==> !WorkOp(log'[n], i, k)
  }

  /** The workspace of action k is not cleaned. */
  ghost predicate Unclean(log: seq<Op>, log': seq<Op>, i: nat, k: nat) {
    Grows(log, log') && forall n :: |log| <= n < |log'| ==> log'[n] != ActionCleaned(i, k)
  }

  lemma UncleanTrans(a: seq<Op>, b: seq<Op>, c: seq<Op>, i: nat, k: nat)
    requires Unclean(a, b, i, k) && Unclean(b, c, i, k)
    ensures Unclean(a, c, i, k)
  {
    assert c[..|a|] == c[..|b|][..|a|];
    forall n | |a| <= n < |c| ensures c[n] != ActionCleaned(i, k) { if n < |b| { assert c[n] == c[..|b|][n]; } }
  }

  lemma InertTrans(a: seq<Op>, b: seq<Op>, c: seq<Op>, i: nat, k: nat)
    requires Inert(a, b, i, k) && Inert(b, c, i, k)
    ensures Inert(a, c, i, k)
  {
    assert c[..|a|] == c[..|b|][..|a|];
    forall n | |a| <= n < |c| ensures !WorkOp(c[n], i, k) { if n < |b| { assert c[n] == c[..|b|][n]; } }
  }

  lemma {:induction false} InertWork(log: seq<Op>, log': seq<Op>, i: nat, k: nat)
    requires Inert(log, log', i, k)
    ensures AtWorkIn(log', i, k) == AtWorkIn(log, i, k)
    decreases |log'|
  {
    if |log'| == |log| {
      assert log' == log;
    } else {
      var m := |log'| - 1;
      assert log'[..m][..|log|] == log;
      assert !WorkOp(log'[m], i, k);
      InertWork(log, log'[..m], i, k);
    }
  }

  lemma InertPrefix(log: seq<Op>, log': seq<Op>, p: nat, i: nat, k: nat)
    requires Inert(log, log', i, k) && |log| <= p <= |log'|
    ensures Inert(log, log'[..p], i, k)
  {
    assert log'[..p][..|log|] == log;
  }

  /** While no process comes or goes, a cleaning spoils exactly the process that is at work. */
  lemma InertSpoils(log: seq<Op>, log': seq<Op>, i: nat, k: nat)
    requires Inert(log, log', i, k)
    ensures SpoiltSince(log', |log|, i, k) <==> AtWorkIn(log, i, k) && !Unclean(log, log', i, k)
  {
    forall p | |log| <= p < |log'| ensures AtWorkIn(log'[..p], i, k) == AtWorkIn(log, i, k) {
      InertPrefix(log, log', p, i, k);
      InertWork(log, log'[..p], i, k);
    }
    if AtWorkIn(log, i, k) && !Unclean(log, log', i, k) {
      var p :| |log| <= p < |log'| && log'[p] == ActionCleaned(i, k);
      assert CleanedUnder(log', p, i, k);
    }
  }

  lemma SpoiltSplit(log: seq<Op>, log': seq<Op>, m: nat, i: nat, k: nat)
    requires Grows(log, log') && m <= |log|
    ensures SpoiltSince(log', m, i, k) <==> SpoiltSince(log, m, i, k) || SpoiltSince(log', |log|, i, k)
  {
    forall p | m <= p < |log| ensures CleanedUnder(log', p, i, k) == CleanedUnder(log, p, i, k) {
      assert log'[p] == log'[..|log|][p] && log'[..p] == log'[..|log|][..p];
    }
  }

  // ------------------------------------------------------------------ an event

  lemma {:induction false} CleanUpToInert(st: State, i: nat, n: nat, k: nat)
    ensures Inert(st.world.log, CleanUpTo(st, i, n).world.log, i, k)
  {
    if n > 0 {
      CleanUpToInert(st, i, n - 1, k);
      var log1 := CleanUpTo(st, i, n - 1).world.log;
      InertTrans(st.world.log, log1, log1 + [ActionCleaned(i, n - 1)], i, k);
    }
  }

  /** Some actions of schedule i were launched, which made it RUNNING. */
  ghost predicate Launches(st: State, st': State, i: nat, k: nat)
    requires i < |st.schedules| && i < |st'.schedules|
  {
    var s, s' := st.schedules[i], st'.schedules[i];
    && |s'.actions| == |s.actions| && Unclean(st.world.log, st'.world.log, i, k)
    && (s'.state == s.state || s'.state == Running)
    && (forall l :: 0 <= l < |s.actions| ==> s'.actions[l].pid == s.actions[l].pid || s'.state == Running)
  }

  lemma LaunchAtLaunches(cfg: Config, st: State, i: nat, j: nat, now: nat, k: nat)
    requires At(st, i, j)
    ensures |LaunchAt(cfg, st, i, j, now).schedules| == |st.schedules|
    ensures Launches(st, LaunchAt(cfg, st, i, j, now), i, k)
  {
    hide ActionExec;
    ActionExecFacts(cfg, st, i, j, now);
  }

  lemma LaunchesTrans(a: State, b: State, c: State, i: nat, k: nat)
    requires i < |a.schedules| && i < |b.schedules| && i < |c.schedules| && Launches(a, b, i, k) && Launches(b, c, i, k)
    ensures Launches(a, c, i, k)
  {
    UncleanTrans(a.world.log, b.world.log, c.world.log, i, k);
    forall l | 0 <= l < |a.schedules[i].actions|
      ensures c.schedules[i].actions[l].pid == a.schedules[i].actions[l].pid || c.schedules[i].state == Running
    {
      assert b.schedules[i].actions[l].pid == a.schedules[i].actions[l].pid || b.schedules[i].state == Running;
    }
  }

  lemma {:induction false} LaunchUpToLaunches(cfg: Config, st: State, i: nat, now: nat, n: nat, k: nat)
    requires i < |st.schedules| && n <= |st.schedules[i].actions|
    ensures Launches(st, LaunchUpTo(cfg, st, i, now, n), i, k)
  {
    hide LaunchAt;
    if n > 0 {
      LaunchUpToLaunches(cfg, st, i, now, n - 1, k);
      LaunchAtLaunches(cfg, LaunchUpTo(cfg, st, i, now, n - 1), i, n - 1, now, k);
      hide Launches;
      LaunchesTrans(st, LaunchUpTo(cfg, st, i, now, n - 1), LaunchUpTo(cfg, st, i, now, n), i, k);
    }
  }

  /**
   A step of schedule i that can only clean a workspace before it launches anything, and that
   leaves the schedule busy if it has launched something.
   */
  ghost predicate Opens(st: State, st': State, i: nat, k: nat)
    requires At(st, i, k)
  {
    && At(st', i, k) && Grows(st.world.log, st'.world.log)
    && (SpoiltSince(st'.world.log, |st.world.log|, i, k) ==> Live(st.schedules[i].actions[k]) && !Busy(st.schedules[i]))
    && (Live(st'.schedules[i].actions[k]) && !Busy(st'.schedules[i]) ==>
       Live(st.schedules[i].actions[k]) && !Busy(st.schedules[i]))
  }

  lemma UncleanUnspoilt(log: seq<Op>, log': seq<Op>, i: nat, k: nat)
    requires Unclean(log, log', i, k)
    ensures !SpoiltSince(log', |log|, i, k)
  {
  }

  /** First only cleanings, then no cleaning. */
  lemma CleanThenWork(log: seq<Op>, log1: seq<Op>, log': seq<Op>, i: nat, k: nat)
    requires Inert(log, log1, i, k) && Unclean(log1, log', i, k)
    ensures Grows(log, log') && (SpoiltSince(log', |log|, i, k) ==> AtWorkIn(log, i, k))
  {
    assert log'[..|log|] == log'[..|log1|][..|log|];
    InertSpoils(log, log1, i, k);
    UncleanUnspoilt(log1, log', i, k);
    SpoiltSplit(log1, log', |log|, i, k);
  }

  lemma ScheduleExecWork(cfg: Config, st: State, i: nat, now: nat, k: nat)
    requires At(st, i, k)
    ensures var st1, st' := CleanUpTo(st, i, |st.schedules[i].actions|), ScheduleExec(cfg, st, i, now);
            st' == st || (i < |st'.schedules| && Unclean(st1.world.log, st'.world.log, i, k))
    ensures var s, s' := st.schedules[i], ScheduleExec(cfg, st, i, now).schedules[i];
            |s'.actions| == |s.actions| && (s'.actions[k].pid == s.actions[k].pid || Busy(s'))
  {
    var s := st.schedules[i];
    var st1 := CleanUpTo(st, i, |s.actions|);
    var st2 := CountInvocation(st1, i, now);
    match s.cfg.mode {
      case Sequential =>
        if s.actions != [] { LaunchAtLaunches(cfg, st2, i, 0, now, k); }
        UncleanTrans(st1.world.log, st2.world.log,
          (if s.actions != [] then LaunchAt(cfg, st2, i, 0, now) else st2).world.log, i, k);
      case Parallel =>
        LaunchUpToLaunches(cfg, st2, i, now, |s.actions|, k);
        UncleanTrans(st1.world.log, st2.world.log, LaunchUpTo(cfg, st2, i, now, |s.actions|).world.log, i, k);
      case Pipelined =>
    }
  }

  lemma BeginOpens(cfg: Config, st: State, e: Event, now: nat, i: nat, k: nat)
    requires At(st, i, k) && !Busy(st.schedules[i]) && AtWorkIn(st.world.log, i, k) == Live(st.schedules[i].actions[k])
    ensures Opens(st, Begin(cfg, st, e, now, i), i, k)
  {
    hide ScheduleExec, CleanUpTo, AtWorkIn;
    var log, st0 := st.world.log, TakeOver(st, e, now, i);
    var log0, st2 := st0.world.log, ScheduleExec(cfg, st0, i, now);
    assert Inert(log, log0, i, k);
    CleanUpToInert(st0, i, |st.schedules[i].actions|, k);
    var log1 := CleanUpTo(st0, i, |st.schedules[i].actions|).world.log;
    InertTrans(log, log0, log1, i, k);
    ScheduleExecWork(cfg, st0, i, now, k);
    if st2 == st0 {
      CleanThenWork(log, log0, log0, i, k);
    } else {
      CleanThenWork(log, log1, st2.world.log, i, k);
    }
  }

  lemma OpensQuiet(st: State, st': State, i: nat, k: nat)
    requires At(st, i, k) && At(st', i, k) && Unclean(st.world.log, st'.world.log, i, k)
    requires st'.schedules[i].actions[k].pid == st.schedules[i].actions[k].pid
    requires (Busy(st.schedules[i]) ==> Busy(st'.schedules[i]))
    ensures Opens(st, st', i, k)
  {
    UncleanUnspoilt(st.world.log, st'.world.log, i, k);
  }

  lemma ExecuteStartOpens(cfg: Config, st: State, e: Event, now: nat, i: nat, k: nat)
    requires At(st, i, k) && AtWorkIn(st.world.log, i, k) == Live(st.schedules[i].actions[k])
    ensures Opens(st, ExecuteStart(cfg, st, e, now, i), i, k)
  {
    hide Begin, Opens, AtWorkIn;
    var s := st.schedules[i];
    if s.state == Enabled && s.cfg.name != "" && s.cfg.start != "" && s.cfg.start == e.name {
      BeginOpens(cfg, st, e, now, i, k);
    } else {
      OpensQuiet(st, ExecuteStart(cfg, st, e, now, i), i, k);
    }
  }

  lemma {:induction false} KillUpToUnclean(st: State, i: nat, n: nat, k: nat)
    requires i < |st.schedules| && n <= |st.schedules[i].actions|
    ensures Unclean(st.world.log, KillUpTo(st, i, n).world.log, i, k)
  {
    if n > 0 {
      KillUpToUnclean(st, i, n - 1, k);
      var st1 := KillUpTo(st, i, n - 1);
      UncleanTrans(st.world.log, st1.world.log, KillAction(st1, i, n - 1).world.log, i, k);
    }
  }

  lemma ExecuteOneOpens(cfg: Config, st: State, e: Event, now: nat, i: nat, k: nat)
    requires At(st, i, k) && AtWorkIn(st.world.log, i, k) == Live(st.schedules[i].actions[k])
    ensures Opens(st, ExecuteOne(cfg, st, e, now, i), i, k)
  {
    hide ExecuteStart, AtWorkIn;
    ExecuteStartOpens(cfg, st, e, now, i, k);
    var st1 := ExecuteStart(cfg, st, e, now, i);
    var log, log1 := st.world.log, st1.world.log;
    var st2 := KillUpTo(st1, i, |st1.schedules[i].actions|);
    KillUpToUnclean(st1, i, |st1.schedules[i].actions|, k);
    UncleanUnspoilt(log1, st2.world.log, i, k);
    SpoiltSplit(log1, st2.world.log, |log|, i, k);
    assert st2.world.log[..|log|] == st2.world.log[..|log1|][..|log|];
  }

  /** A process that its schedule no longer waits for has had its workspace cleaned. */
  ghost predicate Marked(st: State) {
    forall i: nat, k: nat :: At(st, i, k) && Live(st.schedules[i].actions[k]) && !Busy(st.schedules[i]) ==>
      SpoiltSince(st.world.log, 0, i, k)
  }

  /** No workspace has been cleaned under a process for the first time. */
  ghost predicate NoneSpoilt(st: State, st': State) {
    && Grows(st.world.log, st'.world.log) && Marked(st')
    && forall i: nat, k: nat :: At(st, i, k) ==>
       (SpoiltSince(st'.world.log, 0, i, k) <==> SpoiltSince(st.world.log, 0, i, k))
  }

  lemma SoundWork(names: seq<string>, st: State, i: nat, k: nat)
    requires Sound(names, st, i) && At(st, i, k)
    ensures AtWorkIn(st.world.log, i, k) == Live(st.schedules[i].actions[k])
  {
    var a := st.schedules[i].actions[k];
    assert ActionLinked(names, a, i, k, st.world.log);
    WorkingPhase(DestsIn(names, a), i, k, st.world.log);
  }

  lemma ExtendsUnspoilt(log: seq<Op>, log': seq<Op>, n: nat, i: nat, k: nat)
    requires (Extends(log, log', n) && i != n) || OnlyKills(log, log')
    ensures Grows(log, log') && (SpoiltSince(log', 0, i, k) <==> SpoiltSince(log, 0, i, k))
  {
    assert Unclean(log, log', i, k);
    UncleanUnspoilt(log, log', i, k);
    SpoiltSplit(log, log', 0, i, k);
  }

  lemma OpensSame(st: State, st': State, i: nat, k: nat)
    requires At(st, i, k) && Opens(st, st', i, k) && Marked(st)
    ensures SpoiltSince(st'.world.log, 0, i, k) <==> SpoiltSince(st.world.log, 0, i, k)
    ensures Live(st'.schedules[i].actions[k]) && !Busy(st'.schedules[i]) ==> SpoiltSince(st'.world.log, 0, i, k)
  {
    SpoiltSplit(st.world.log, st'.world.log, 0, i, k);
  }

  lemma ExecuteOneSpoilsNone(names: seq<string>, cfg: Config, st0: State, st: State, e: Event, now: nat, n: nat)
    requires Executing(names, st0, st) && Marked(st) && n < |st.schedules|
    ensures NoneSpoilt(st, ExecuteOne(cfg, st, e, now, n))
  {
    hide ExecuteOne, SpoiltSince, Opens;
    var st' := ExecuteOne(cfg, st, e, now, n);
    ExecuteOneKeeps(cfg, st, e, now, n);
    assert Sound(names, st, n);
    ExecuteOneSound(names, cfg, st, e, now, n);
    forall i: nat, k: nat | At(st, i, k)
      ensures SpoiltSince(st'.world.log, 0, i, k) <==> SpoiltSince(st.world.log, 0, i, k)
      ensures Live(st'.schedules[i].actions[k]) && !Busy(st'.schedules[i]) ==> SpoiltSince(st'.world.log, 0, i, k)
    {
      if i == n {
        SoundWork(names, st, i, k);
        ExecuteOneOpens(cfg, st, e, now, i, k);
        OpensSame(st, st', i, k);
      } else {
        ExtendsUnspoilt(st.world.log, st'.world.log, n, i, k);
      }
    }
  }

  lemma NoneSpoiltTrans(a: State, b: State, c: State)
    requires NoneSpoilt(a, b) && NoneSpoilt(b, c) && SameConfig(a, b)
    ensures NoneSpoilt(a, c)
  {
    hide SpoiltSince, Marked;
    assert c.world.log[..|a.world.log|] == c.world.log[..|b.world.log|][..|a.world.log|];
    forall i: nat, k: nat | At(a, i, k)
      ensures SpoiltSince(c.world.log, 0, i, k) <==> SpoiltSince(a.world.log, 0, i, k)
    {
      assert At(b, i, k);
    }
  }

  lemma {:induction false} ExecuteCbSpoilsNone(names: seq<string>, cfg: Config, st: State, e: Event, now: nat, n: nat)
    requires Executing(names, st, st) && Marked(st) && n <= |st.schedules|
    ensures NoneSpoilt(st, ExecuteCb(cfg, st, e, now, n)) && SameConfig(st, ExecuteCb(cfg, st, e, now, n))
  {
    hide ExecuteOne, SpoiltSince;
    ExecuteCbSound(names, cfg, st, e, now, n);
    if n > 0 {
      ExecuteCbSpoilsNone(names, cfg, st, e, now, n - 1);
      ExecuteCbSound(names, cfg, st, e, now, n - 1);
      var st1 := ExecuteCb(cfg, st, e, now, n - 1);
      ExecuteOneSpoilsNone(names, cfg, st, st1, e, now, n - 1);
      NoneSpoiltTrans(st, st1, ExecuteOne(cfg, st1, e, now, n - 1));
    }
  }

  /** An event cleans the workspace of a live process only if that has happened to it before. */
  lemma FireSpoilsNone(names: seq<string>, cfg: Config, st: State, e: Event, now: nat)
    requires Inv(st) && AllSound(names, st) && Marked(st)
    ensures NoneSpoilt(st, Step(cfg, st, Fire(e, now)))
  {
    hide SpoiltSince;
    var st1 := SuppressCb(cfg, st, e, |st.supps|);
    SuppressCbHushes(cfg, st, e, |st.supps|);
    HushesSound(names, st, st1);
    SuppressCbCalm(cfg, st, e, |st.supps|);
    AllCalmKeeps(st, st1);
    HushesSpoilNone(st, st1);
    ExecuteCbSpoilsNone(names, cfg, st1, e, now, |st1.schedules|);
    NoneSpoiltTrans(st, st1, ExecuteCb(cfg, st1, e, now, |st1.schedules|));
  }

  lemma HushesSpoilNone(st: State, st': State)
    requires Hushes(st, st') && AllCalm(st, st') && Marked(st)
    ensures NoneSpoilt(st, st')
  {
    hide SpoiltSince;
    forall i: nat, k: nat | At(st, i, k)
      ensures SpoiltSince(st'.world.log, 0, i, k) <==> SpoiltSince(st.world.log, 0, i, k)
      ensures Live(st'.schedules[i].actions[k]) && !Busy(st'.schedules[i]) ==> SpoiltSince(st'.world.log, 0, i, k)
    {
      ExtendsUnspoilt(st.world.log, st'.world.log, 0, i, k);
      assert Calm(st.schedules[i], st'.schedules[i])
             && CalmAction(st.schedules[i].actions[k], st'.schedules[i].actions[k]);
    }
    assert Grows(st.world.log, st'.world.log);
  }

  // ------------------------------------------------------------------ a death

  lemma {:induction false} NeverAtWork(log: seq<Op>, log': seq<Op>, i: nat, k: nat)
    requires Grows(log, log') && !AtWorkIn(log, i, k)
    requires forall n :: |log| <= n < |log'| ==> !(log'[n].Launched? && log'[n].s == i && log'[n].a == k)
    ensures !SpoiltSince(log', |log|, i, k) && !AtWorkIn(log', i, k)
    decreases |log'|
  {
    if |log'| == |log| {
      assert log' == log;
    } else {
      var m := |log'| - 1;
      assert log'[..m][..|log|] == log;
      NeverAtWork(log, log'[..m], i, k);
      SpoiltSplit(log'[..m], log', |log|, i, k);
    }
  }

  lemma ContinueWork(cfg: Config, st: State, i: nat, j: nat, now: nat, k: nat)
    requires At(st, i, j) && k < |st.schedules[i].actions|
    ensures var st' := Continue(cfg, st, i, j, now);
            && Unclean(st.world.log, st'.world.log, i, k) && i < |st'.schedules|
            && (k != j + 1 ==> st'.schedules[i].actions[k] == st.schedules[i].actions[k])
            && (forall n :: |st.world.log| <= n < |st'.world.log| ==>
               st'.world.log[n].Launched? && st'.world.log[n].a == j + 1)
  {
    hide ActionExec;
    if j + 1 < |st.schedules[i].actions| { ActionExecFacts(cfg, st, i, j + 1, now); }
  }

  /** The final round cleans every workspace of the schedule; no process comes or goes. */
  lemma {:induction false} FlushUpToCleans(st: State, i: nat, n: nat, k: nat)
    requires i < |st.schedules| && n <= |st.schedules[i].actions|
    ensures Inert(st.world.log, FlushUpTo(st, i, n).world.log, i, k)
    ensures k < n ==> !Unclean(st.world.log, FlushUpTo(st, i, n).world.log, i, k)
  {
    hide Deliver;
    if n > 0 {
      FlushUpToCleans(st, i, n - 1, k);
      var st1 := FlushUpTo(st, i, n - 1);
      FlushAtLog(st1, i, n - 1);
      DeliverInert(st1, i, n - 1, k);
      var log1, log2 := st1.world.log, Deliver(st1, i, n - 1).world.log;
      InertTrans(st.world.log, log1, log2, i, k);
      InertTrans(st.world.log, log2, log2 + [ActionCleaned(i, n - 1)], i, k);
      if k < n - 1 {
        var p :| |st.world.log| <= p < |log1| && log1[p] == ActionCleaned(i, k);
        assert log2[..|log1|][p] == ActionCleaned(i, k);
      }
      assert (log2 + [ActionCleaned(i, n - 1)])[|log2|] == ActionCleaned(i, n - 1);
    }
  }

  lemma DeliverInert(st: State, i: nat, j: nat, k: nat)
    requires At(st, i, j)
    ensures Inert(st.world.log, Deliver(st, i, j).world.log, i, k)
  {
    MoveAllInert(st, i, j, DestsOf(st, i, j), |DestsOf(st, i, j)|, k);
  }

  lemma {:induction false} MoveAllInert(st: State, i: nat, j: nat, dests: seq<nat>, n: nat, k: nat)
    requires n <= |dests|
    ensures Inert(st.world.log, MoveAllUpTo(st, i, j, dests, n).world.log, i, k)
  {
    if n > 0 {
      MoveAllInert(st, i, j, dests, n - 1, k);
      var log1 := MoveAllUpTo(st, i, j, dests, n - 1).world.log;
      InertTrans(st.world.log, log1, log1 + [ActionMoved(i, j, dests[n - 1])], i, k);
    }
  }

  lemma ConcludeCleans(st: State, i: nat, k: nat)
    requires At(st, i, k)
    ensures var log, log' := st.world.log, Conclude(st, i).world.log;
            Inert(log, log', i, k) && !Unclean(log, log', i, k)
  {
    var s := st.schedules[i];
    var st1 := SetSchedule(st, i, Settle(s));
    FlushUpToCleans(st1, i, |s.actions|, k);
    var log, log1, log' := st.world.log, FlushUpTo(st1, i, |s.actions|).world.log, Conclude(st, i).world.log;
    assert Inert(log1, log', i, k);
    InertTrans(log, log1, log', i, k);
    var p :| |log| <= p < |log1| && log1[p] == ActionCleaned(i, k);
    assert log'[..|log1|][p] == ActionCleaned(i, k);
  }

  lemma CollectWork(names: seq<string>, st: State, i: nat, j: nat, status: int, now: nat, k: nat)
    requires At(st, i, j) && Sound(names, st, i) && names == Names(st.schedules) && k < |st.schedules[i].actions|
    requires Live(st.schedules[i].actions[j]) && !st.schedules[i].actions[j].deferred
    ensures var log, log' := st.world.log, Collect(st, i, j, status, now).world.log;
            && Grows(log, log') && (k != j ==> Unclean(log, log', i, k))
            && (k == j ==> !SpoiltSince(log', |log|, i, k) && !AtWorkIn(log', i, k))
  {
    hide Collect, ActionLinked;
    var log, log' := st.world.log, Collect(st, i, j, status, now).world.log;
    var log0 := log + [Reaped(i, j, status)];
    assert ActionLinked(names, st.schedules[i].actions[j], i, j, log);
    CollectTrack(names, st, i, j, status, now);
    HandlingExtends(log, log0, log', i, j);
    if k != j {
      forall n | |log| <= n < |log'|
        ensures log'[n] != ActionCleaned(i, k)
      {
        if n == |log| { assert log'[n] == log'[..|log0|][n]; }
      }
    } else {
      assert log0[..|log|] == log;
      NeverAtWork(log0, log', i, j);
      UncleanUnspoilt(log, log0, i, j);
      SpoiltSplit(log0, log', |log|, i, j);
    }
  }

  /** The state between the collection of process j and the conclusion of its schedule, and how it came about. */
  ghost predicate Reaping(names: seq<string>, st: State, st2: State, i: nat, j: nat, k: nat)
    requires At(st, i, j) && At(st, i, k)
  {
    && Sound(names, st2, i) && Collecting(st2, i) && At(st2, i, k) && At(st2, i, j)
    && Grows(st.world.log, st2.world.log) && !SpoiltSince(st2.world.log, |st.world.log|, i, k)
    && st2.schedules[i].actions[j].state != ActRunning && !Live(st2.schedules[i].actions[j])
    && st2.schedules[i].cfg == st.schedules[i].cfg && |st2.schedules[i].actions| == |st.schedules[i].actions|
    && (st.schedules[i].cfg.mode != Sequential ==>
          forall l :: 0 <= l < |st.schedules[i].actions| && l != j ==>
            st2.schedules[i].actions[l] == st.schedules[i].actions[l])
  }

  lemma ReapingTo(names: seq<string>, cfg: Config, st0: State, st: State, i: nat, j: nat, status: int, now: nat, k: nat)
    requires Inv(st0) && At(st0, i, j) && At(st0, i, k) && Live(st0.schedules[i].actions[j])
    requires Sound(names, st0, i) && names == Names(st0.schedules)
    requires st == st0.(world := st0.world.(children := st0.world.children - {PidAt(st0, i, j)}))
    ensures Reaping(names, st0, Continue(cfg, Collect(st, i, j, status, now), i, j, now), i, j, k)
  {
    hide Linked, ActionExec, AtWorkIn;
    assert ScheduleOk(st0.schedules[i]) && ActionCore(st0.schedules[i], st0.schedules[i].actions[j]);
    CollectKeeps(st0, st, i, j, status, now);
    CollectSound(names, st, i, j, status, now);
    CollectFacts(st, i, j, status, now);
    CollectWork(names, st, i, j, status, now, k);
    var st1 := Collect(st, i, j, status, now);
    hide Collect;
    ContinueKeeps(cfg, st1, i, j, now);
    ContinueSound(names, cfg, st1, i, j, now);
    var st2 := Continue(cfg, st1, i, j, now);
    ContinueWork(cfg, st1, i, j, now, k);
    ContinueWork(cfg, st1, i, j, now, j);
    var log, log1, log2 := st.world.log, st1.world.log, st2.world.log;
    UncleanUnspoilt(log1, log2, i, k);
    if k != j { UncleanUnspoilt(log, log1, i, k); }
    SpoiltSplit(log1, log2, |log|, i, k);
    assert log2[..|log|] == log2[..|log1|][..|log|];
  }

  /** Nothing of the schedule is RUNNING after the collection of process j, and k is live all the same. */
  lemma CutOffExactly(names: seq<string>, st: State, st2: State, i: nat, j: nat, k: nat)
    requires Inv(st) && At(st, i, j) && At(st, i, k) && Live(st.schedules[i].actions[j])
    requires Reaping(names, st, st2, i, j, k)
    ensures !StillRunning(st2.schedules[i]) && Live(st2.schedules[i].actions[k]) <==>
            && j != k && Live(st.schedules[i].actions[k])
            && forall l :: 0 <= l < |st.schedules[i].actions| && l != j ==>
               st.schedules[i].actions[l].state != ActRunning
  {
    hide Sound;
    var s, s2 := st.schedules[i], st2.schedules[i];
    if s.cfg.mode == Sequential {
      assert ScheduleOk(s) && OnlyLive(s, j);
      if Live(s2.actions[k]) { assert s2.actions[k] in s2.actions; }
    } else {
      forall l | 0 <= l < |s.actions| && l != j ensures s2.actions[l] == s.actions[l] && s2.actions[l] in s2.actions {}
    }
  }

  lemma ReapAtSpoils(names: seq<string>, cfg: Config, st0: State, st: State, i: nat, j: nat, status: int, now: nat,
                     k: nat)
    requires Inv(st0) && At(st0, i, j) && At(st0, i, k) && Live(st0.schedules[i].actions[j])
    requires Sound(names, st0, i) && names == Names(st0.schedules)
    requires st == st0.(world := st0.world.(children := st0.world.children - {PidAt(st0, i, j)}))
    ensures var st' := ReapAt(cfg, st, i, j, status, now);
            && Grows(st.world.log, st'.world.log) && At(st', i, k)
            && (SpoiltSince(st'.world.log, |st.world.log|, i, k) <==>
                  && j != k && Live(st0.schedules[i].actions[k])
                  && forall l :: 0 <= l < |st0.schedules[i].actions| && l != j ==>
                     st0.schedules[i].actions[l].state != ActRunning)
            && (Live(st'.schedules[i].actions[k]) && !Busy(st'.schedules[i]) ==>
               SpoiltSince(st'.world.log, |st.world.log|, i, k))
  {
    ReapingTo(names, cfg, st0, st, i, j, status, now, k);
    hide Collect, Continue, Sound, AtWorkIn, SpoiltSince;
    var st2 := Continue(cfg, Collect(st, i, j, status, now), i, j, now);
    CutOffExactly(names, st0, st2, i, j, k);
    var s2 := st2.schedules[i];
    if StillRunning(s2) {
      RunningOk(s2);
      RunningBusy(s2);
    } else {
      hide Conclude;
      ConcludeSpoils(names, st0, st2, i, j, k);
    }
  }

  lemma ConcludeSpoils(names: seq<string>, st: State, st2: State, i: nat, j: nat, k: nat)
    requires At(st, i, j) && At(st, i, k) && Reaping(names, st, st2, i, j, k)
    ensures var st' := Conclude(st2, i);
            && Grows(st.world.log, st'.world.log) && At(st', i, k)
            && st'.schedules[i].actions[k].pid == st2.schedules[i].actions[k].pid
            && (SpoiltSince(st'.world.log, |st.world.log|, i, k) <==> Live(st2.schedules[i].actions[k]))
  {
    SoundWork(names, st2, i, k);
    ConcludeFacts(st2, i);
    ConcludeCleans(st2, i, k);
    hide Conclude, AtWorkIn, Sound, Collecting;
    var log, log2, log' := st.world.log, st2.world.log, Conclude(st2, i).world.log;
    InertSpoils(log2, log', i, k);
    SpoiltSplit(log2, log', |log|, i, k);
    assert log'[..|log|] == log'[..|log2|][..|log|];
  }

  lemma RunningBusy(s: Schedule)
    requires Core(s) && StillRunning(s)
    ensures Busy(s)
  {
    var a :| a in s.actions && a.state == ActRunning;
    var j :| 0 <= j < |s.actions| && s.actions[j] == a;
    assert ActionCore(s, s.actions[j]);
  }

  /** The inputs that clean a workspace under its process for the first time, or once more. */
  ghost predicate SpoiltBy(st: State, st': State, x: Input) {
    && Grows(st.world.log, st'.world.log) && Marked(st')
    && forall i: nat, k: nat :: At(st, i, k) ==>
         (SpoiltSince(st'.world.log, 0, i, k) <==> SpoiltSince(st.world.log, 0, i, k) || CutsOff(st, x, i, k))
  }

  /** A death cleans the workspace of a live process exactly when it cuts that process off. */
  lemma DeathSpoils(names: seq<string>, cfg: Config, st: State, pid: int, status: WaitStatus, now: nat, i: nat, k: nat)
    requires Inv(st) && AllSound(names, st) && At(st, i, k)
    ensures var st' := Reap(cfg, st, pid, status, now);
            && Grows(st.world.log, st'.world.log) && At(st', i, k)
            && (SpoiltSince(st'.world.log, |st.world.log|, i, k) <==> CutsOff(st, Death(pid, status, now), i, k))
            && (Live(st'.schedules[i].actions[k]) && !Busy(st'.schedules[i])
                ==> SpoiltSince(st'.world.log, |st.world.log|, i, k)
                    || (Live(st.schedules[i].actions[k]) && !Busy(st.schedules[i])))
  {
    hide ReapAt, Sound, SpoiltSince;
    var st' := Reap(cfg, st, pid, status, now);
    UncleanUnspoilt(st.world.log, st.world.log, i, k);
    if pid > 0 && pid in st.world.children {
      var st0 := st.(world := st.world.(children := st.world.children - {pid}));
      var at := Locate(st, pid);
      if at.Some? {
        var (i', j) := at.value;
        assert Sound(names, st, i');
        assert At(st, i', j) && PidAt(st, i', j) == pid;
        if i' == i {
          ReapAtSpoils(names, cfg, st, st0, i, j, StatusOf(status), now, k);
        } else {
          ReapAtSound(names, cfg, st, st0, i', j, StatusOf(status), now);
          ReapAtElsewhere(cfg, st, st0, i', j, StatusOf(status), now);
          UncleanUnspoilt(st.world.log, st'.world.log, i, k);
        }
      }
    }
  }

  lemma StepSpoils(names: seq<string>, cfg: Config, st: State, x: Input)
    requires Inv(st) && AllSound(names, st) && Marked(st)
    ensures SpoiltBy(st, Step(cfg, st, x), x)
  {
    hide Reap, SpoiltSince;
    match x {
      case Fire(e, now) => FireSpoilsNone(names, cfg, st, e, now);
      case Death(pid, status, now) =>
        var st' := Reap(cfg, st, pid, status, now);
        DeathSound(names, cfg, st, pid, status, now);
        forall i: nat, k: nat | At(st, i, k)
          ensures SpoiltSince(st'.world.log, 0, i, k) <==> SpoiltSince(st.world.log, 0, i, k) || CutsOff(st, x, i, k)
          ensures Live(st'.schedules[i].actions[k]) && !Busy(st'.schedules[i]) ==> SpoiltSince(st'.world.log, 0, i, k)
        {
          DeathSpoils(names, cfg, st, pid, status, now, i, k);
          SpoiltSplit(st.world.log, st'.world.log, 0, i, k);
        }
        ReapGrows(names, cfg, st, pid, status, now);
    }
  }

  lemma ReapGrows(names: seq<string>, cfg: Config, st: State, pid: int, status: WaitStatus, now: nat)
    requires Inv(st) && AllSound(names, st)
    ensures Grows(st.world.log, Reap(cfg, st, pid, status, now).world.log)
  {
    hide ReapAt, Sound;
    if pid > 0 && pid in st.world.children && Locate(st, pid).Some? {
      var (i, j) := Locate(st, pid).value;
      assert Sound(names, st, i);
      ReapAtSound(names, cfg, st, st.(world := st.world.(children := st.world.children - {pid})), i, j,
        StatusOf(status), now);
    }
  }

  // ------------------------------------------------------------------ all runs

  ghost predicate CutOffAt(cfg: Config, st: State, xs: seq<Input>, n: nat, i: nat, k: nat)
    requires n < |xs|
  {
    At(Run(cfg, st, xs[..n]), i, k) && CutsOff(Run(cfg, st, xs[..n]), xs[n], i, k)
  }

  ghost predicate CutOffIn(cfg: Config, st: State, xs: seq<Input>, i: nat, k: nat) {
    exists n :: 0 <= n < |xs| && CutOffAt(cfg, st, xs, n, i, k)
  }

  lemma CutOffSnoc(cfg: Config, st: State, xs: seq<Input>, x: Input, i: nat, k: nat)
    ensures CutOffIn(cfg, st, xs + [x], i, k) <==>
            CutOffIn(cfg, st, xs, i, k) || CutOffAt(cfg, st, xs + [x], |xs|, i, k)
  {
    forall n | 0 <= n < |xs| ensures CutOffAt(cfg, st, xs + [x], n, i, k) == CutOffAt(cfg, st, xs, n, i, k) {
      assert (xs + [x])[..n] == xs[..n];
    }
  }

  lemma {:induction false} RunSpoils(cfg: Config, st: State, xs: seq<Input>, i: nat, k: nat)
    requires Initial(st) && At(st, i, k)
    ensures Marked(Run(cfg, st, xs))
    ensures SpoiltSince(Run(cfg, st, xs).world.log, 0, i, k) <==> CutOffIn(cfg, st, xs, i, k)
  {
    hide Step, Inv, AllSound, SpoiltSince, CutsOff, Marked, Initial, CutOffIn;
    if xs == [] {
      RunOfNothing(cfg, st, i, k);
    } else {
      var ys, x := xs[..|xs| - 1], xs[|xs| - 1];
      assert xs == ys + [x] && xs[..|ys|] == ys;
      RunSpoils(cfg, st, ys, i, k);
      Reachable(cfg, st, ys);
      ReachableSound(cfg, st, ys);
      StepSpoils(Names(st.schedules), cfg, Run(cfg, st, ys), x);
      CutOffSnoc(cfg, st, ys, x, i, k);
    }
  }

  lemma RunOfNothing(cfg: Config, st: State, i: nat, k: nat)
    requires Initial(st)
    ensures Marked(Run(cfg, st, [])) && !SpoiltSince(Run(cfg, st, []).world.log, 0, i, k)
            && !CutOffIn(cfg, st, [], i, k)
  {
    InitialMarked(st);
  }

  lemma InitialMarked(st: State)
    requires Initial(st)
    ensures Marked(st)
  {
    forall i: nat, k: nat | At(st, i, k) ensures !Live(st.schedules[i].actions[k]) {
      assert InitialSchedule(st.schedules[i]) && InitialAction(st.schedules[i].actions[k]);
    }
  }

  /**
   In every run the workspace of action k is cleaned while its process is at work if and only if
   some input of the run is the death of the last RUNNING action of its schedule besides k, at a
   moment when k has a process and does not count as RUNNING.
   */
  lemma {:induction false} CleanedUnderProcess(cfg: Config, st: State, xs: seq<Input>, i: nat, k: nat)
    requires Initial(st) && At(st, i, k)
    ensures var log := Run(cfg, st, xs).world.log;
            (exists p :: 0 <= p < |log| && CleanedUnder(log, p, i, k)) <==>
            exists n :: 0 <= n < |xs| && CutOffAt(cfg, st, xs, n, i, k)
  {
    RunSpoils(cfg, st, xs, i, k);
  }

  // ------------------------------------------------------------------ schedules that are spared

  /** A suppression that stops running actions of schedule i through their own tags matches the schedule too. */
  ghost predicate QuietAt(cfg: Config, st: State, i: nat) {
    forall n: nat, j: nat :: n < |st.supps| && At(st, i, j) && st.supps[n].cfg.stop
                     && BigTagMatch(cfg.fnmatch, st.supps[n].cfg.match_, st.schedules[i].actions[j].cfg.suppressionTags)
                     ==> BigTagMatch(cfg.fnmatch, st.supps[n].cfg.match_, st.schedules[i].cfg.suppressionTags)
  }

  /** No process outlives the RUNNING state of its action. */
  ghost predicate Unstopped(s: Schedule) {
    forall j :: 0 <= j < |s.actions| && Live(s.actions[j]) ==> s.actions[j].state == ActRunning
  }

  lemma QuietKept(cfg: Config, st: State, st': State, i: nat)
    requires QuietAt(cfg, st, i) && SameConfig(st, st')
    ensures QuietAt(cfg, st', i)
  {
    forall n: nat, j: nat | n < |st'.supps| && At(st', i, j) && st'.supps[n].cfg.stop
      && BigTagMatch(cfg.fnmatch, st'.supps[n].cfg.match_, st'.schedules[i].actions[j].cfg.suppressionTags)
      ensures BigTagMatch(cfg.fnmatch, st'.supps[n].cfg.match_, st'.schedules[i].cfg.suppressionTags)
    {
      assert At(st, i, j);
    }
  }

  lemma SuppressionUnstopped(cfg: Config, st: State, n: nat, i: nat, s': Schedule)
    requires QuietAt(cfg, st, i) && n < |st.supps| && i < |st.schedules| && Unstopped(st.schedules[i])
    requires Suppressing(cfg, st.supps[n].cfg, st.schedules[i], s')
             || Releasing(cfg, st.supps[n].cfg, st.schedules[i], s')
    ensures Unstopped(s')
  {
    forall j | 0 <= j < |s'.actions| && Live(s'.actions[j])
      ensures s'.actions[j].state == ActRunning
    {
      assert At(st, i, j);
    }
  }

  lemma SuppressCbOneUnstopped(cfg: Config, st: State, e: Event, n: nat, i: nat)
    requires QuietAt(cfg, st, i) && n < |st.supps| && i < |st.schedules| && Unstopped(st.schedules[i])
    ensures var st' := SuppressCbOne(cfg, st, e, n); i < |st'.schedules| && Unstopped(st'.schedules[i])
  {
    var st1 := SuppressCbStart(cfg, st, e, n);
    if st1 != st {
      SuppressUpToFacts(cfg, SetSupp(st, n, SuppActive), st.supps[n].cfg, |st.schedules|);
      SuppressionUnstopped(cfg, st, n, i, st1.schedules[i]);
    }
    SuppressionStartHushes(cfg, st, n);
    QuietKept(cfg, st, st1, i);
    var st2 := SuppressCbEnd(cfg, st1, e, n);
    if st2 != st1 {
      ReleaseUpToFacts(cfg, SetSupp(st1, n, SuppEnabled), st1.supps[n].cfg, |st1.schedules|);
      SuppressionUnstopped(cfg, st1, n, i, st2.schedules[i]);
    }
  }

  lemma {:induction false} SuppressCbUnstopped(cfg: Config, st: State, e: Event, n: nat, i: nat)
    requires QuietAt(cfg, st, i) && n <= |st.supps| && i < |st.schedules| && Unstopped(st.schedules[i])
    ensures var st' := SuppressCb(cfg, st, e, n); i < |st'.schedules| && Unstopped(st'.schedules[i])
  {
    if n > 0 {
      SuppressCbUnstopped(cfg, st, e, n - 1, i);
      SuppressCbHushes(cfg, st, e, n - 1);
      hide SuppressCbOne;
      QuietKept(cfg, st, SuppressCb(cfg, st, e, n - 1), i);
      SuppressCbOneUnstopped(cfg, SuppressCb(cfg, st, e, n - 1), e, n - 1, i);
    }
  }

  lemma LaunchAtUnstopped(cfg: Config, st: State, i: nat, j: nat, now: nat)
    requires At(st, i, j) && Unstopped(st.schedules[i])
    ensures var st' := LaunchAt(cfg, st, i, j, now); i < |st'.schedules| && Unstopped(st'.schedules[i])
    ensures var st' := ActionExec(cfg, st, i, j, now).st; i < |st'.schedules| && Unstopped(st'.schedules[i])
  {
    hide ActionExec;
    ActionExecFacts(cfg, st, i, j, now);
  }

  lemma {:induction false} LaunchUpToUnstopped(cfg: Config, st: State, i: nat, now: nat, n: nat)
    requires i < |st.schedules| && n <= |st.schedules[i].actions| && Unstopped(st.schedules[i])
    ensures Unstopped(LaunchUpTo(cfg, st, i, now, n).schedules[i])
  {
    hide LaunchAt;
    if n > 0 {
      LaunchUpToUnstopped(cfg, st, i, now, n - 1);
      LaunchAtUnstopped(cfg, LaunchUpTo(cfg, st, i, now, n - 1), i, n - 1, now);
    }
  }

  lemma ScheduleExecUnstopped(cfg: Config, st: State, i: nat, now: nat)
    requires i < |st.schedules| && Unstopped(st.schedules[i])
    ensures Unstopped(ScheduleExec(cfg, st, i, now).schedules[i])
  {
    hide LaunchAt, LaunchUpTo;
    var acts := st.schedules[i].actions;
    var st1 := CountInvocation(CleanUpTo(st, i, |acts|), i, now);
    assert st1.schedules[i].actions == acts;
    if acts != [] { LaunchAtUnstopped(cfg, st1, i, 0, now); }
    LaunchUpToUnstopped(cfg, st1, i, now, |acts|);
  }

  lemma ExecuteOneUnstopped(cfg: Config, st: State, e: Event, now: nat, i: nat)
    requires i < |st.schedules| && Unstopped(st.schedules[i])
    ensures Unstopped(ExecuteOne(cfg, st, e, now, i).schedules[i])
  {
    hide ScheduleExec;
    ScheduleExecUnstopped(cfg, TakeOver(st, e, now, i), i, now);
  }

  lemma {:induction false} ExecuteCbUnstopped(cfg: Config, st: State, e: Event, now: nat, n: nat, i: nat)
    requires Inv(st) && n <= |st.schedules| && i < |st.schedules| && Unstopped(st.schedules[i])
    ensures Unstopped(ExecuteCb(cfg, st, e, now, n).schedules[i])
  {
    hide ExecuteOne;
    if n > 0 {
      ExecuteCbUnstopped(cfg, st, e, now, n - 1, i);
      ExecuteCbKeeps(cfg, st, e, now, n - 1);
      var st1 := ExecuteCb(cfg, st, e, now, n - 1);
      ExecuteOneKeeps(cfg, st1, e, now, n - 1);
      if n - 1 == i { ExecuteOneUnstopped(cfg, st1, e, now, i); }
    }
  }

  lemma ReapAtUnstopped(cfg: Config, st: State, i: nat, j: nat, status: int, now: nat)
    requires At(st, i, j) && Unstopped(st.schedules[i])
    ensures var st' := ReapAt(cfg, st, i, j, status, now); i < |st'.schedules| && Unstopped(st'.schedules[i])
  {
    hide LaunchAt, ActionExec;
    var st1 := Collect(st, i, j, status, now);
    CollectFacts(st, i, j, status, now);
    if j + 1 < |st.schedules[i].actions| { LaunchAtUnstopped(cfg, st1, i, j + 1, now); }
    var st2 := Continue(cfg, st1, i, j, now);
    ConcludeFacts(st2, i);
  }

  lemma {:induction false} ReachableUnstopped(cfg: Config, st: State, xs: seq<Input>, i: nat)
    requires Initial(st) && i < |st.schedules| && QuietAt(cfg, st, i)
    ensures i < |Run(cfg, st, xs).schedules| && Unstopped(Run(cfg, st, xs).schedules[i])
  {
    if xs == [] {
      assert InitialSchedule(st.schedules[i]);
      forall j | 0 <= j < |st.schedules[i].actions|
        ensures !Live(st.schedules[i].actions[j])
      {
        assert InitialAction(st.schedules[i].actions[j]);
      }
    } else {
      var ys, x := xs[..|xs| - 1], xs[|xs| - 1];
      ReachableUnstopped(cfg, st, ys, i);
      Reachable(cfg, st, ys);
      ReachableSound(cfg, st, ys);
      var st1 := Run(cfg, st, ys);
      QuietKept(cfg, st, st1, i);
      StepUnstopped(cfg, st1, x, i);
    }
  }

  lemma StepUnstopped(cfg: Config, st: State, x: Input, i: nat)
    requires Inv(st) && i < |st.schedules| && Unstopped(st.schedules[i]) && QuietAt(cfg, st, i)
    ensures var st' := Step(cfg, st, x); i < |st'.schedules| && Unstopped(st'.schedules[i])
  {
    hide ReapAt, SuppressCb, ExecuteCb;
    match x {
      case Fire(e, now) =>
        SuppressCbUnstopped(cfg, st, e, |st.supps|, i);
        SuppressCbCalm(cfg, st, e, |st.supps|);
        var st1 := SuppressCb(cfg, st, e, |st.supps|);
        AllCalmKeeps(st, st1);
        ExecuteCbUnstopped(cfg, st1, e, now, |st1.schedules|, i);
      case Death(pid, status, now) =>
        if pid > 0 && pid in st.world.children && Locate(st, pid).Some? {
          var st0 := st.(world := st.world.(children := st.world.children - {pid}));
          var (i', j) := Locate(st, pid).value;
          assert At(st, i', j) && PidAt(st, i', j) == pid;
          ReapAtElsewhere(cfg, st, st0, i', j, StatusOf(status), now);
          if i' == i { ReapAtUnstopped(cfg, st0, i, j, StatusOf(status), now); }
        }
    }
  }

  /**
   A sequential schedule, and one that no suppression stops behind its back, has no workspace cleaned
   under a process.
   */
  lemma {:induction false} NeverCleanedUnderProcess(cfg: Config, st: State, xs: seq<Input>, i: nat, k: nat, p: nat)
    requires Initial(st) && At(st, i, k) && (st.schedules[i].cfg.mode == Sequential || QuietAt(cfg, st, i))
    requires p < |Run(cfg, st, xs).world.log| && Run(cfg, st, xs).world.log[p] == ActionCleaned(i, k)
    ensures !AtWorkIn(Run(cfg, st, xs).world.log[..p], i, k)
  {
    hide Initial, CutsOff;
    CleanedUnderProcess(cfg, st, xs, i, k);
    forall n | 0 <= n < |xs| ensures !CutOffAt(cfg, st, xs, n, i, k) {
      ReachableSound(cfg, st, xs[..n]);
      Reachable(cfg, st, xs[..n]);
      if st.schedules[i].cfg.mode != Sequential { ReachableUnstopped(cfg, st, xs[..n], i); }
      Spared(Run(cfg, st, xs[..n]), xs[n], i, k);
    }
    assert CleanedUnder(Run(cfg, st, xs).world.log, p, i, k) <==> AtWorkIn(Run(cfg, st, xs).world.log[..p], i, k);
  }

  lemma Spared(st: State, x: Input, i: nat, k: nat)
    requires Inv(st) && At(st, i, k) && (st.schedules[i].cfg.mode == Sequential || Unstopped(st.schedules[i]))
    ensures !CutsOff(st, x, i, k)
  {
    var s := st.schedules[i];
    assert ScheduleOk(s);
    if s.cfg.mode == Sequential && Live(s.actions[k]) { assert OnlyLive(s, k); }
  }
}

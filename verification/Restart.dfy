/**
 What becomes of results that wait when a session ends: the next session starts with fresh
 records, and before it moves anything out of a workspace it has cleaned that workspace.
 */
module Restart {
  import opened Model
  import opened Invariants
  import opened Protocol
  import opened Queue
  import opened Dataflow
  import opened Spoiling

  ghost predicate CleanedBefore(log: seq<Op>, p: nat, i: nat, j: nat)
    requires p <= |log|
  {
    exists q :: 0 <= q < p && log[q] == ActionCleaned(i, j)
  }

  /** Every launch comes after a cleaning of its workspace. */
  ghost predicate Prepared(log: seq<Op>, i: nat, j: nat) {
    forall p :: 0 <= p < |log| && log[p].Launched? && log[p].s == i && log[p].a == j ==> CleanedBefore(log, p, i, j)
  }

  /** All workspaces of a schedule that has a process have been cleaned in this session. */
  ghost predicate Swept(st: State, i: nat)
    requires i < |st.schedules|
  {
    SomeLive(st.schedules[i]) ==>
      forall j :: 0 <= j < |st.schedules[i].actions| ==> CleanedBefore(st.world.log, |st.world.log|, i, j)
  }

  ghost predicate InOrder(st: State) {
    && (forall i :: 0 <= i < |st.schedules| ==> Swept(st, i))
    && (forall i: nat, j: nat :: At(st, i, j) ==> Prepared(st.world.log, i, j))
  }

  lemma CleanedStays(log: seq<Op>, log': seq<Op>, p: nat, p': nat, i: nat, j: nat)
    requires Grows(log, log') && p <= |log| && p <= p' <= |log'| && CleanedBefore(log, p, i, j)
    ensures CleanedBefore(log', p', i, j)
  {
    var q :| 0 <= q < p && log[q] == ActionCleaned(i, j);
    assert log'[q] == log'[..|log|][q];
  }

  /** The new part of the log launches action j only after a cleaning. */
  ghost predicate Orderly(log: seq<Op>, log': seq<Op>, i: nat, j: nat) {
    && Grows(log, log')
    && forall p :: |log| <= p < |log'| && log'[p].Launched? && log'[p].s == i && log'[p].a == j ==>
         CleanedBefore(log', p, i, j)
  }

  lemma PreparedOn(log: seq<Op>, log': seq<Op>, i: nat, j: nat)
    requires Prepared(log, i, j) && Orderly(log, log', i, j)
    ensures Prepared(log', i, j)
  {
    forall p | 0 <= p < |log'| && log'[p].Launched? && log'[p].s == i && log'[p].a == j
      ensures CleanedBefore(log', p, i, j)
    {
      if p < |log| {
        assert log'[p] == log'[..|log|][p];
        CleanedStays(log, log', p, p, i, j);
      }
    }
  }

  // ------------------------------------------------------------------ an event

  lemma {:induction false} CleanUpToLog(st: State, i: nat, n: nat, j: nat)
    requires j < n
    ensures var log, log' := st.world.log, CleanUpTo(st, i, n).world.log;
            |log'| == |log| + n && Grows(log, log') && log'[|log| + j] == ActionCleaned(i, j)
  {
    CleanUpToGrows(st, i, n);
    if n > 1 {
      CleanUpToGrows(st, i, n - 1);
      if j < n - 1 { CleanUpToLog(st, i, n - 1, j); }
    }
  }

  lemma {:induction false} CleanUpToGrows(st: State, i: nat, n: nat)
    ensures var log, log' := st.world.log, CleanUpTo(st, i, n).world.log;
            |log'| == |log| + n && Grows(log, log') && forall p :: |log| <= p < |log'| ==> log'[p].ActionCleaned?
  {
    if n > 0 { CleanUpToGrows(st, i, n - 1); }
  }

  /** Nothing is launched from log to log1; then the workspace is cleaned; whatever follows is in order. */
  lemma CleanedFirst(log: seq<Op>, log1: seq<Op>, log': seq<Op>, i: nat, j: nat)
    requires Grows(log, log1) && Grows(log1, log')
    requires forall p :: |log| <= p < |log1| ==> !log1[p].Launched?
    requires CleanedBefore(log1, |log1|, i, j)
    ensures Orderly(log, log', i, j) && CleanedBefore(log', |log'|, i, j)
  {
    assert log'[..|log|] == log'[..|log1|][..|log|];
    CleanedStays(log1, log', |log1|, |log'|, i, j);
    assert forall p :: 0 <= p < |log1| ==> log'[p] == log'[..|log1|][p] == log1[p];
    forall p | |log1| <= p < |log'| ensures CleanedBefore(log', p, i, j) {
      CleanedStays(log1, log', |log1|, p, i, j);
    }
  }

  lemma BeginOrderly(cfg: Config, st: State, e: Event, now: nat, i: nat, j: nat)
    requires At(st, i, j)
    ensures var st' := Begin(cfg, st, e, now, i);
            && Orderly(st.world.log, st'.world.log, i, j)
            && (st.schedules[i].cfg.name != "" ==> CleanedBefore(st'.world.log, |st'.world.log|, i, j))
  {
    hide ScheduleExec, CleanUpTo, CleanedBefore;
    var log, st0 := st.world.log, TakeOver(st, e, now, i);
    var n := |st.schedules[i].actions|;
    var log1, st2 := CleanUpTo(st0, i, n).world.log, ScheduleExec(cfg, st0, i, now);
    CleanUpToGrows(st0, i, n);
    CleanUpToLog(st0, i, n, j);
    ScheduleExecGrows(cfg, st0, i, now, j);
    assert log1[..|log|] == log1[..|st0.world.log|][..|log|];
    if st.schedules[i].cfg.name != "" {
      CleanedHere(log1, |st0.world.log| + j, i, j);
      CleanedFirst(log, log1, st2.world.log, i, j);
    }
  }

  lemma CleanedHere(log: seq<Op>, q: nat, i: nat, j: nat)
    requires q < |log| && log[q] == ActionCleaned(i, j)
    ensures CleanedBefore(log, |log|, i, j)
  {
  }

  /** The part of a start after the cleanings; an unnamed schedule does nothing. */
  lemma ScheduleExecGrows(cfg: Config, st: State, i: nat, now: nat, k: nat)
    requires At(st, i, k)
    ensures var st1, st' := CleanUpTo(st, i, |st.schedules[i].actions|), ScheduleExec(cfg, st, i, now);
            if st.schedules[i].cfg.name == "" then st' == st else Grows(st1.world.log, st'.world.log)
  {
    hide CleanUpTo, LaunchAt, LaunchUpTo;
    var s := st.schedules[i];
    var st1 := CleanUpTo(st, i, |s.actions|);
    var st2 := CountInvocation(st1, i, now);
    assert st2.world.log[..|st1.world.log|] == st1.world.log;
    if s.cfg.name != "" {
      match s.cfg.mode {
        case Sequential =>
          LaunchAtLaunches(cfg, st2, i, 0, now, k);
          GrowsTrans(st1.world.log, st2.world.log, LaunchAt(cfg, st2, i, 0, now).world.log);
        case Parallel =>
          LaunchUpToLaunches(cfg, st2, i, now, |s.actions|, k);
          GrowsTrans(st1.world.log, st2.world.log, LaunchUpTo(cfg, st2, i, now, |s.actions|).world.log);
        case Pipelined =>
      }
    }
  }

  lemma GrowsTrans(a: seq<Op>, b: seq<Op>, c: seq<Op>)
    requires Grows(a, b) && Grows(b, c)
    ensures Grows(a, c)
  {
    assert c[..|a|] == c[..|b|][..|a|];
  }

  lemma ExecuteOneOrderly(cfg: Config, st: State, e: Event, now: nat, i: nat, j: nat)
    requires At(st, i, j)
    ensures var st' := ExecuteOne(cfg, st, e, now, i);
            && At(st', i, j) && Orderly(st.world.log, st'.world.log, i, j)
            && (SomeLive(st'.schedules[i]) ==>
                  SomeLive(st.schedules[i]) || CleanedBefore(st'.world.log, |st'.world.log|, i, j))
  {
    hide Begin, CleanedBefore, SomeLive, KillUpTo;
    var s := st.schedules[i];
    var st1 := ExecuteStart(cfg, st, e, now, i);
    var begins := s.state == Enabled && s.cfg.name != "" && s.cfg.start != "" && s.cfg.start == e.name;
    if begins { BeginOrderly(cfg, st, e, now, i, j); } else { assert st1.schedules[i].actions == s.actions; }
    BeginLength(cfg, st, e, now, i);
    KillUpToUnclean(st1, i, |st1.schedules[i].actions|, j);
    KillUpToOrderly(st1, i, |st1.schedules[i].actions|, j);
    SameLive(st, st1, i);
    OrderlyTrans(st.world.log, st1.world.log, KillUpTo(st1, i, |st1.schedules[i].actions|).world.log, i, j);
    if begins {
      CleanedStays(st1.world.log, KillUpTo(st1, i, |st1.schedules[i].actions|).world.log, |st1.world.log|,
                   |KillUpTo(st1, i, |st1.schedules[i].actions|).world.log|, i, j);
    }
  }

  lemma SameLive(st: State, st1: State, i: nat)
    requires i < |st.schedules| && i < |st1.schedules|
    ensures st1.schedules[i].actions == st.schedules[i].actions ==>
            (SomeLive(st1.schedules[i]) <==> SomeLive(st.schedules[i]))
  {
  }

  lemma BeginLength(cfg: Config, st: State, e: Event, now: nat, i: nat)
    requires i < |st.schedules|
    ensures |Begin(cfg, st, e, now, i).schedules[i].actions| == |st.schedules[i].actions|
  {
    if st.schedules[i].actions != [] { ScheduleExecWork(cfg, TakeOver(st, e, now, i), i, now, 0); }
    hide LaunchAt, CleanUpTo;
  }

  lemma {:induction false} KillUpToOrderly(st: State, i: nat, n: nat, j: nat)
    requires i < |st.schedules| && n <= |st.schedules[i].actions|
    ensures Orderly(st.world.log, KillUpTo(st, i, n).world.log, i, j)
  {
    hide CleanedBefore;
    if n > 0 {
      KillUpToOrderly(st, i, n - 1, j);
      var st1 := KillUpTo(st, i, n - 1);
      OrderlyTrans(st.world.log, st1.world.log, KillAction(st1, i, n - 1).world.log, i, j);
    }
  }

  lemma OrderlyTrans(a: seq<Op>, b: seq<Op>, c: seq<Op>, i: nat, j: nat)
    requires Orderly(a, b, i, j) && Orderly(b, c, i, j)
    ensures Orderly(a, c, i, j)
  {
    assert c[..|a|] == c[..|b|][..|a|];
    forall p | |a| <= p < |c| && c[p].Launched? && c[p].s == i && c[p].a == j ensures CleanedBefore(c, p, i, j) {
      if p < |b| {
        assert c[p] == c[..|b|][p];
        CleanedStays(b, c, p, p, i, j);
      }
    }
  }

  /** What happens in another schedule launches nothing here. */
  lemma ElsewhereOrderly(log: seq<Op>, log': seq<Op>, n: nat, i: nat, j: nat)
    requires (Extends(log, log', n) && i != n) || OnlyKills(log, log')
    ensures Orderly(log, log', i, j)
  {
  }

  lemma SweptOn(st: State, st': State, i: nat)
    requires i < |st.schedules| && i < |st'.schedules| && Swept(st, i) && Grows(st.world.log, st'.world.log)
    requires |st'.schedules[i].actions| == |st.schedules[i].actions|
    requires SomeLive(st'.schedules[i]) ==> SomeLive(st.schedules[i])
    ensures Swept(st', i)
  {
    forall j | 0 <= j < |st.schedules[i].actions| && SomeLive(st'.schedules[i])
      ensures CleanedBefore(st'.world.log, |st'.world.log|, i, j)
    {
      CleanedStays(st.world.log, st'.world.log, |st.world.log|, |st'.world.log|, i, j);
    }
  }

  lemma ExecuteOneInOrder(names: seq<string>, cfg: Config, st0: State, st: State, e: Event, now: nat, n: nat)
    requires Executing(names, st0, st) && InOrder(st) && n < |st.schedules|
    ensures InOrder(ExecuteOne(cfg, st, e, now, n))
  {
    hide ExecuteOne, Prepared, Orderly, CleanedBefore, SomeLive, Swept;
    var st' := ExecuteOne(cfg, st, e, now, n);
    ExecuteOneKeeps(cfg, st, e, now, n);
    assert Sound(names, st, n);
    ExecuteOneSound(names, cfg, st, e, now, n);
    forall i: nat, j: nat | At(st', i, j) ensures Prepared(st'.world.log, i, j) {
      assert At(st, i, j);
      if i == n {
        ExecuteOneOrderly(cfg, st, e, now, i, j);
      } else {
        ElsewhereOrderly(st.world.log, st'.world.log, n, i, j);
      }
      PreparedOn(st.world.log, st'.world.log, i, j);
    }
    forall i | 0 <= i < |st'.schedules| ensures Swept(st', i) {
      if i == n { ExecuteOneSwept(cfg, st, e, now, i); } else { SweptOn(st, st', i); }
    }
  }

  lemma ExecuteOneSwept(cfg: Config, st: State, e: Event, now: nat, i: nat)
    requires i < |st.schedules| && Swept(st, i)
    requires |ExecuteOne(cfg, st, e, now, i).schedules[i].actions| == |st.schedules[i].actions|
    ensures Swept(ExecuteOne(cfg, st, e, now, i), i)
  {
    hide ExecuteOne, CleanedBefore;
    var st' := ExecuteOne(cfg, st, e, now, i);
    forall j | 0 <= j < |st'.schedules[i].actions| && SomeLive(st'.schedules[i])
      ensures CleanedBefore(st'.world.log, |st'.world.log|, i, j)
    {
      ExecuteOneOrderly(cfg, st, e, now, i, j);
      if SomeLive(st.schedules[i]) { CleanedStays(st.world.log, st'.world.log, |st.world.log|, |st'.world.log|, i, j); }
    }
  }

  lemma {:induction false} ExecuteCbInOrder(names: seq<string>, cfg: Config, st: State, e: Event, now: nat, n: nat)
    requires Executing(names, st, st) && InOrder(st) && n <= |st.schedules|
    ensures InOrder(ExecuteCb(cfg, st, e, now, n))
  {
    hide ExecuteOne, InOrder, Executing;
    if n > 0 {
      ExecuteCbInOrder(names, cfg, st, e, now, n - 1);
      ExecuteCbSound(names, cfg, st, e, now, n - 1);
      ExecuteOneInOrder(names, cfg, st, ExecuteCb(cfg, st, e, now, n - 1), e, now, n - 1);
    }
  }

  lemma HushesInOrder(st: State, st': State)
    requires Hushes(st, st') && AllCalm(st, st') && InOrder(st)
    ensures InOrder(st')
  {
    hide Prepared, Orderly, CleanedBefore, Swept;
    forall i: nat, j: nat | At(st', i, j) ensures Prepared(st'.world.log, i, j) {
      assert At(st, i, j);
      ElsewhereOrderly(st.world.log, st'.world.log, 0, i, j);
      PreparedOn(st.world.log, st'.world.log, i, j);
    }
    forall i | 0 <= i < |st'.schedules| ensures Swept(st', i) {
      assert Calm(st.schedules[i], st'.schedules[i]);
      CalmLive(st.schedules[i], st'.schedules[i]);
      SweptOn(st, st', i);
    }
  }

  lemma CalmLive(s: Schedule, s': Schedule)
    requires Calm(s, s')
    ensures SomeLive(s') ==> SomeLive(s)
  {
    if SomeLive(s') {
      var j :| 0 <= j < |s'.actions| && Live(s'.actions[j]);
      assert CalmAction(s.actions[j], s'.actions[j]);
      assert Live(s.actions[j]);
    }
  }

  lemma FireInOrder(names: seq<string>, cfg: Config, st: State, e: Event, now: nat)
    requires Inv(st) && AllSound(names, st) && InOrder(st)
    ensures InOrder(Step(cfg, st, Fire(e, now)))
  {
    hide InOrder;
    var st1 := SuppressCb(cfg, st, e, |st.supps|);
    SuppressCbHushes(cfg, st, e, |st.supps|);
    HushesSound(names, st, st1);
    SuppressCbCalm(cfg, st, e, |st.supps|);
    AllCalmKeeps(st, st1);
    HushesInOrder(st, st1);
    ExecuteCbInOrder(names, cfg, st1, e, now, |st1.schedules|);
  }

  // ------------------------------------------------------------------ a death

  lemma DeathInOrder(names: seq<string>, cfg: Config, st: State, pid: int, status: WaitStatus, now: nat)
    requires Inv(st) && AllSound(names, st) && InOrder(st)
    ensures InOrder(Reap(cfg, st, pid, status, now))
  {
    hide ReapAt, Sound, Prepared, Orderly, CleanedBefore, Swept, SomeLive;
    if pid > 0 && pid in st.world.children {
      var st0 := st.(world := st.world.(children := st.world.children - {pid}));
      var at := Locate(st, pid);
      if at.Some? {
        var (n, m) := at.value;
        assert Sound(names, st, n);
        ReapAtSound(names, cfg, st, st0, n, m, StatusOf(status), now);
        ReapAtElsewhere(cfg, st, st0, n, m, StatusOf(status), now);
        var st' := ReapAt(cfg, st0, n, m, StatusOf(status), now);
        HasLive(st, n, m);
        forall i: nat, j: nat | At(st', i, j) ensures Prepared(st'.world.log, i, j) {
          assert At(st, i, j);
          if i == n { AllCleaned(st, st', i, j); } else { ElsewhereOrderly(st.world.log, st'.world.log, n, i, j); }
          PreparedOn(st.world.log, st'.world.log, i, j);
        }
        forall i | 0 <= i < |st'.schedules| ensures Swept(st', i) { SweptOn(st, st', i); }
      } else {
        forall i | 0 <= i < |st0.schedules| ensures Swept(st0, i) { SweptOn(st, st0, i); }
        assert forall i: nat, j: nat :: At(st0, i, j) ==> At(st, i, j);
      }
    }
  }

  lemma HasLive(st: State, i: nat, j: nat)
    requires At(st, i, j) && Live(st.schedules[i].actions[j])
    ensures SomeLive(st.schedules[i])
  {
  }

  /** In a schedule that has a process, whatever is launched next is in order. */
  lemma AllCleaned(st: State, st': State, i: nat, j: nat)
    requires At(st, i, j) && Swept(st, i) && SomeLive(st.schedules[i]) && Grows(st.world.log, st'.world.log)
    ensures Orderly(st.world.log, st'.world.log, i, j)
  {
    var log, log' := st.world.log, st'.world.log;
    forall p | |log| <= p < |log'| ensures CleanedBefore(log', p, i, j) { CleanedStays(log, log', |log|, p, i, j); }
  }

  // ------------------------------------------------------------------ all runs

  lemma {:induction false} ReachableInOrder(cfg: Config, st: State, xs: seq<Input>)
    requires Initial(st)
    ensures InOrder(Run(cfg, st, xs))
  {
    hide InOrder, Step;
    if xs == [] {
      InitialInOrder(st);
    } else {
      var ys, x := xs[..|xs| - 1], xs[|xs| - 1];
      ReachableInOrder(cfg, st, ys);
      Reachable(cfg, st, ys);
      ReachableSound(cfg, st, ys);
      StepInOrder(Names(st.schedules), cfg, Run(cfg, st, ys), x);
    }
  }

  lemma StepInOrder(names: seq<string>, cfg: Config, st: State, x: Input)
    requires Inv(st) && AllSound(names, st) && InOrder(st)
    ensures InOrder(Step(cfg, st, x))
  {
    hide InOrder, SuppressCb, ExecuteCb, Reap;
    match x {
      case Fire(e, now) => FireInOrder(names, cfg, st, e, now);
      case Death(pid, status, now) => DeathInOrder(names, cfg, st, pid, status, now);
    }
  }

  lemma InitialInOrder(st: State)
    requires Initial(st)
    ensures InOrder(st)
  {
    forall i | 0 <= i < |st.schedules| ensures !SomeLive(st.schedules[i]) {
      assert InitialSchedule(st.schedules[i]);
      forall j | 0 <= j < |st.schedules[i].actions|
        ensures !Live(st.schedules[i].actions[j])
      {
        assert InitialAction(st.schedules[i].actions[j]);
      }
    }
  }

  /** An action that is at work or has ended was launched. */
  lemma {:induction false} WasLaunched(D: seq<nat>, i: nat, j: nat, log: seq<Op>)
    requires TrackOf(D, i, j, log).phase.AtWork? || TrackOf(D, i, j, log).phase.Ended?
    ensures exists q :: 0 <= q < |log| && log[q].Launched? && log[q].s == i && log[q].a == j
  {
    var n := |log| - 1;
    if !(log[n].Launched? && log[n].s == i && log[n].a == j) {
      WasLaunched(D, i, j, log[..n]);
      var q :| 0 <= q < n && log[..n][q].Launched? && log[..n][q].s == i && log[..n][q].a == j;
      assert log[q].Launched? && log[q].s == i && log[q].a == j;
    }
  }

  /** In every session a workspace is cleaned before anything is moved out of it. */
  lemma {:induction false} CleanedBeforeMoved(cfg: Config, st: State, xs: seq<Input>, i: nat, j: nat, p: nat)
    requires Initial(st) && At(st, i, j) && p < |Run(cfg, st, xs).world.log|
    requires var op := Run(cfg, st, xs).world.log[p]; op.ActionMoved? && op.s == i && op.a == j
    ensures exists q :: 0 <= q < p && Run(cfg, st, xs).world.log[q] == ActionCleaned(i, j)
  {
    hide Run, DestsOf;
    var log, D := Run(cfg, st, xs).world.log, DestsOf(st, i, j);
    ActionTracked(cfg, st, xs, i, j);
    ReachableInOrder(cfg, st, xs);
    assert Prepared(log, i, j);
    PrefixUnbroken(D, i, j, log[..p + 1], log);
    assert log[..p + 1] == log[..p] + [log[p]];
    TrackSnoc(D, i, j, log[..p], log[p]);
    WasLaunched(D, i, j, log[..p]);
    var q :| 0 <= q < p && log[..p][q].Launched? && log[..p][q].s == i && log[..p][q].a == j;
    assert log[q].Launched? && CleanedBefore(log, q, i, j);
  }

  // ------------------------------------------------------------------ two sessions

  /** Every operation of the log stands somewhere in the history. */
  lemma {:induction false} OpOf(hs: seq<Happening>, p: nat) returns (m: nat)
    requires p < |OpsOf(hs)|
    ensures m < |hs| && |OpsOf(hs[..m])| == p
    ensures (hs[m].Did? && hs[m].op == OpsOf(hs)[p]) || (hs[m].Shifted? && OpsOf(hs)[p] == ScheduleMoved(hs[m].s))
  {
    var n := |hs| - 1;
    if p == |OpsOf(hs[..n])| {
      m := n;
    } else {
      m := OpOf(hs[..n], p);
      assert hs[..n][..m] == hs[..m];
    }
  }

  lemma OpsPart(hs: seq<Happening>, k: nat)
    requires k < |hs| && hs[k].Did?
    ensures |OpsOf(hs[..k])| < |OpsOf(hs)| && OpsOf(hs)[|OpsOf(hs[..k])|] == hs[k].op
  {
    FsSnoc(map[], hs, k);
    assert [hs[k]][..0] == [] && OpsOf([]) == [];
    OpsPrefix(hs, k + 1);
  }

  lemma OpsMonotone(hs: seq<Happening>, k: nat, m: nat)
    requires k <= m <= |hs|
    ensures |OpsOf(hs[..k])| <= |OpsOf(hs[..m])|
  {
    OpsPrefix(hs[..m], k);
    assert hs[..m][..k] == hs[..k];
  }

  /** In the history of a session a workspace is cleaned before anything is moved out of it. */
  lemma {:induction false} NothingOldIsMoved(cfg: Config, st: State, xs: seq<Input>, hs: seq<Happening>, i: nat, j: nat,
                                             k: nat)
    requires Initial(st) && At(st, i, j) && OpsOf(hs) == Run(cfg, st, xs).world.log && k < |hs| && IsMove(hs[k], i, j)
    ensures exists m :: 0 <= m < k && IsClean(hs[m], i, j)
  {
    hide Run, OpsOf;
    OpsPart(hs, k);
    var p := |OpsOf(hs[..k])|;
    CleanedBeforeMoved(cfg, st, xs, i, j, p);
    var q :| 0 <= q < p && OpsOf(hs)[q] == ActionCleaned(i, j);
    var m := OpOf(hs, q);
    if k <= m { OpsMonotone(hs, k, m); }
    assert IsClean(hs[m], i, j);
  }

  /**
   A session ends and another one begins on the files it left.  For every process that had ended:
   either its results had been handed over in full; or they wait, no other schedule has them, and
   the new session hands on nothing out of that workspace before it has cleaned it: they are lost.
   */
  lemma {:induction false} WaitingIsLost(cfg: Config, st: State, xs: seq<Input>, fs: Fs, hs: seq<Happening>,
                                         i: nat, j: nat, status: int, p: nat,
                                         cfg': Config, st': State, xs': seq<Input>, hs': seq<Happening>)
    requires Initial(st) && At(st, i, j) && OpsOf(hs) == Run(cfg, st, xs).world.log && Plausible(fs, hs)
    requires p < |hs| && hs[p].Did? && hs[p].op == Reaped(i, j, status)
    requires Initial(st') && At(st', i, j) && OpsOf(hs') == Run(cfg', st', xs').world.log
    requires Plausible(FsAfter(fs, hs), hs')
    ensures At(Run(cfg, st, xs), i, j)
    ensures var D, waits := DestsOf(st, i, j),
            Waits(DestsOf(st, i, j), Run(cfg, st, xs).schedules[i], hs, i, j, status, p);
            && (!waits ==> exists q :: Window(hs, i, j, p, q) && DeliversAll(D, fs, hs, i, j, status, p, q))
            && (waits ==>
                  && Look(FsAfter(fs, hs), WorkOf(i, j)) == Look(FsAfter(fs, hs[..p]), WorkOf(i, j))
                  && (forall k :: p < k < |hs| && IsMove(hs[k], i, j) ==> hs[k].op.dst == i)
                  && (forall k :: 0 <= k < |hs'| && IsMove(hs'[k], i, j) ==>
                        exists m :: 0 <= m < k && IsClean(hs'[m], i, j)))
  {
    hide Run, OpsOf, Plausible, FsAfter;
    Delivery(cfg, st, xs, fs, hs, i, j, status, p);
    if Waits(DestsOf(st, i, j), Run(cfg, st, xs).schedules[i], hs, i, j, status, p) {
      StillThere(cfg, st, xs, fs, hs, i, j, status, p);
      OwnOnly(DestsOf(st, i, j), i, |DestsOf(st, i, j)|);
      forall k | p < k < |hs| && IsMove(hs[k], i, j)
        ensures hs[k].op.dst == i
      {
        MoveCounted(hs, i, j, p + 1, |hs|, k);
      }
    }
    forall k | 0 <= k < |hs'| && IsMove(hs'[k], i, j) ensures exists m :: 0 <= m < k && IsClean(hs'[m], i, j) {
      NothingOldIsMoved(cfg', st', xs', hs', i, j, k);
    }
  }

  lemma {:induction false} StillThere(cfg: Config, st: State, xs: seq<Input>, fs: Fs, hs: seq<Happening>,
                                      i: nat, j: nat, status: int, p: nat)
    requires Initial(st) && At(st, i, j) && OpsOf(hs) == Run(cfg, st, xs).world.log && Plausible(fs, hs)
    requires p < |hs| && hs[p].Did? && hs[p].op == Reaped(i, j, status) && NoCleanIn(hs, i, j, p, |hs|)
    ensures Look(FsAfter(fs, hs), WorkOf(i, j)) == Look(FsAfter(fs, hs[..p]), WorkOf(i, j))
  {
    hide Run, OpsOf, Plausible, FsAfter;
    ActionTracked(cfg, st, xs, i, j);
    WorkFrozen(DestsOf(st, i, j), fs, hs, i, j, status, p, |hs|);
    assert hs[..|hs|] == hs;
  }

  lemma {:induction false} OwnOnly(dests: seq<nat>, i: nat, n: nat)
    requires n <= |dests|
    ensures forall d :: d in Own(dests[..n], i) ==> d == i
    ensures forall d :: d in Own(dests, i) && n == |dests| ==> d == i
  {
    if n == |dests| { assert dests[..n] == dests; }
    if n > 0 {
      OwnOnly(dests, i, n - 1);
      OwnSnoc(dests, i, n);
    }
  }

  /** A move between p and q is among those that are listed. */
  lemma {:induction false} MoveCounted(hs: seq<Happening>, i: nat, j: nat, p: nat, q: nat, k: nat)
    requires p <= k < q <= |hs| && IsMove(hs[k], i, j)
    ensures hs[k].op.dst in MovesIn(hs, p, q, i, j)
    decreases q
  {
    if k < q - 1 { MoveCounted(hs, i, j, p, q - 1, k); }
  }
}

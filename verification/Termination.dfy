/**
 One call of lmapd_cleanup comes to an end although reaping a child may fork the next one:
 every reaped child strictly decreases a measure.
 */
module Termination {
  import opened Model
  import opened Invariants

  ghost function Weight(a: Action, toEnd: nat): nat { if Live(a) then toEnd else 0 }

  /** The distances to the end of the list, summed over the live actions among the first n. */
  ghost function Distances(acts: seq<Action>, n: nat): nat
    requires n <= |acts|
  {
    if n == 0 then 0 else Distances(acts, n - 1) + Weight(acts[n - 1], |acts| - (n - 1))
  }

  ghost function AllDistances(scheds: seq<Schedule>, n: nat): nat
    requires n <= |scheds|
  {
    if n == 0 then 0 else AllDistances(scheds, n - 1) + Distances(scheds[n - 1].actions, |scheds[n - 1].actions|)
  }

  ghost function LivePids(st: State): set<int> {
    set i, j | 0 <= i < |st.schedules| && 0 <= j < |st.schedules[i].actions| && st.schedules[i].actions[j].pid != 0
      :: st.schedules[i].actions[j].pid
  }

  /** Children that belong to no action of the configuration. */
  ghost function Strangers(st: State): set<int> { st.world.children - LivePids(st) }

  ghost function Measure(st: State): nat { AllDistances(st.schedules, |st.schedules|) + |Strangers(st)| }

  lemma {:induction false} DistancesChange(a: seq<Action>, b: seq<Action>, j: nat, n: nat)
    requires j < |a| == |b| && n <= |a|
    requires forall k :: 0 <= k < |a| && k != j ==> Live(b[k]) == Live(a[k])
    ensures Distances(b, n) + (if j < n then Weight(a[j], |a| - j) else 0)
            == Distances(a, n) + (if j < n then Weight(b[j], |a| - j) else 0)
  {
    if n > 0 { DistancesChange(a, b, j, n - 1); }
  }

  lemma {:induction false} AllDistancesChange(a: seq<Schedule>, b: seq<Schedule>, i: nat, n: nat)
    requires i < |a| == |b| && n <= |a| && forall k :: 0 <= k < |a| && k != i ==> b[k] == a[k]
    ensures AllDistances(b, n) + (if i < n then Distances(a[i].actions, |a[i].actions|) else 0)
            == AllDistances(a, n) + (if i < n then Distances(b[i].actions, |b[i].actions|) else 0)
  {
    if n > 0 { AllDistancesChange(a, b, i, n - 1); }
  }

  /** The pids after a reap: action j has none, and at most its successor got a fresh one. */
  ghost predicate PidsAfter(st: State, st': State, i: nat, j: nat)
    requires At(st, i, j)
  {
    && OnlyAt(st, st', i) && !Live(st'.schedules[i].actions[j])
    && (forall k :: 0 <= k < |st.schedules[i].actions| && k != j && k != j + 1 ==>
       st'.schedules[i].actions[k].pid == st.schedules[i].actions[k].pid)
    && (if j + 1 < |st.schedules[i].actions|
       && st'.schedules[i].actions[j + 1].pid != st.schedules[i].actions[j + 1].pid
        then var q := st'.schedules[i].actions[j + 1].pid;
             !Live(st.schedules[i].actions[j + 1]) && q > 0 && q !in st.world.children
               && st'.world.children == st.world.children + {q}
        else st'.world.children == st.world.children)
  }

  lemma CollectPids(st: State, i: nat, j: nat, status: int, now: nat)
    requires At(st, i, j)
    ensures PidsAfter(st, Collect(st, i, j, status, now), i, j)
    ensures Collect(st, i, j, status, now).world.children == st.world.children
    ensures forall k :: 0 <= k < |st.schedules[i].actions| && k != j ==>
              Collect(st, i, j, status, now).schedules[i].actions[k].pid == st.schedules[i].actions[k].pid
  {
    CollectFacts(st, i, j, status, now);
  }

  lemma ContinuePids(cfg: Config, st: State, st1: State, i: nat, j: nat, now: nat)
    requires At(st, i, j) && PidsAfter(st, st1, i, j) && st1.world.children == st.world.children
    requires forall k :: 0 <= k < |st.schedules[i].actions| && k != j ==>
             st1.schedules[i].actions[k].pid == st.schedules[i].actions[k].pid
    ensures PidsAfter(st, Continue(cfg, st1, i, j, now), i, j)
  {
    if j + 1 < |st1.schedules[i].actions| { ActionExecFacts(cfg, st1, i, j + 1, now); }
  }

  lemma ConcludePids(st: State, st2: State, i: nat, j: nat)
    requires At(st, i, j) && PidsAfter(st, st2, i, j)
    ensures PidsAfter(st, Conclude(st2, i), i, j)
  {
    ConcludeFacts(st2, i);
    var st' := Conclude(st2, i);
    forall k | 0 <= k < |st2.schedules[i].actions|
      ensures st'.schedules[i].actions[k].pid == st2.schedules[i].actions[k].pid
              && st'.schedules[i].actions[k].cfg == st2.schedules[i].actions[k].cfg {}
  }

  lemma ReapAtPids(cfg: Config, st: State, i: nat, j: nat, status: int, now: nat)
    requires At(st, i, j)
    ensures PidsAfter(st, ReapAt(cfg, st, i, j, status, now), i, j)
  {
    CollectPids(st, i, j, status, now);
    var st1 := Collect(st, i, j, status, now);
    ContinuePids(cfg, st, st1, i, j, now);
    ConcludePids(st, Continue(cfg, st1, i, j, now), i, j);
  }

  lemma DistancesDecrease(st: State, st': State, i: nat, j: nat)
    requires At(st, i, j) && Live(st.schedules[i].actions[j]) && PidsAfter(st, st', i, j)
    ensures AllDistances(st'.schedules, |st'.schedules|) < AllDistances(st.schedules, |st.schedules|)
  {
    var a, b := st.schedules[i].actions, st'.schedules[i].actions;
    var mid := a[j := b[j]];
    DistancesChange(a, mid, j, |a|);
    if j + 1 < |a| {
      DistancesChange(mid, b, j + 1, |a|);
    } else {
      DistancesChange(mid, b, j, |a|);
    }
    AllDistancesChange(st.schedules, st'.schedules, i, |st.schedules|);
  }

  lemma LivePidsIn(st: State, i: nat, j: nat)
    requires At(st, i, j) && PidAt(st, i, j) != 0
    ensures PidAt(st, i, j) in LivePids(st)
  {
  }

  lemma StrangersSame(st0: State, st: State, st': State, i: nat, j: nat)
    requires Inv(st0) && At(st0, i, j) && Live(st0.schedules[i].actions[j])
    requires st == st0.(world := st0.world.(children := st0.world.children - {PidAt(st0, i, j)}))
    requires PidsAfter(st, st', i, j)
    ensures Strangers(st') <= Strangers(st0)
  {
    forall k: nat, l: nat | At(st0, k, l) && PidAt(st0, k, l) != 0 && !(k == i && l == j)
      ensures PidAt(st0, k, l) in LivePids(st')
    {
      assert PidAt(st', k, l) == PidAt(st0, k, l);
      LivePidsIn(st', k, l);
    }
    assert LivePids(st0) <= LivePids(st') + {PidAt(st0, i, j)};
    assert st'.world.children <= st.world.children + LivePids(st') by {
      if j + 1 < |st.schedules[i].actions| && st'.schedules[i].actions[j + 1].pid != 0 { LivePidsIn(st', i, j + 1); }
    }
  }

  lemma SubsetSize<T>(a: set<T>, b: set<T>)
    requires a <= b
    ensures |a| <= |b|
  {
    assert b == a + (b - a);
  }

  /** Every child that waitpid hands over makes the measure smaller. */
  lemma {:induction false} ReapDecreases(cfg: Config, st: State, pid: int, status: WaitStatus, now: nat)
    requires Inv(st) && pid > 0 && pid in st.world.children
    ensures Measure(Reap(cfg, st, pid, status, now)) < Measure(st)
  {
    var st0 := st.(world := st.world.(children := st.world.children - {pid}));
    var at := Locate(st, pid);
    if at.Some? {
      var (i, j) := at.value;
      ReapAtPids(cfg, st0, i, j, StatusOf(status), now);
      var st' := ReapAt(cfg, st0, i, j, StatusOf(status), now);
      DistancesDecrease(st0, st', i, j);
      StrangersSame(st, st0, st', i, j);
      SubsetSize(Strangers(st'), Strangers(st));
    } else {
      assert pid !in LivePids(st);
      assert LivePids(st0) == LivePids(st);
      assert Strangers(st0) == Strangers(st) - {pid};
    }
  }

  /** The children reaped in one call of lmapd_cleanup, each of them alive when it is waited for. */
  ghost predicate Reapings(cfg: Config, st: State, deaths: seq<(int, WaitStatus)>, now: nat)
    decreases |deaths|
  {
    deaths == [] || (deaths[0].0 > 0 && deaths[0].0 in st.world.children
                     && Reapings(cfg, Reap(cfg, st, deaths[0].0, deaths[0].1, now), deaths[1..], now))
  }

  /** However the children die, one call reaps no more of them than the measure says. */
  lemma {:induction false} CleanupBounded(cfg: Config, st: State, deaths: seq<(int, WaitStatus)>, now: nat)
    requires Inv(st) && Reapings(cfg, st, deaths, now)
    ensures |deaths| <= Measure(st)
    decreases |deaths|
  {
    if deaths != [] {
      var (pid, status) := deaths[0];
      ReapDecreases(cfg, st, pid, status, now);
      ReapKeeps(cfg, st, pid, status, now);
      CleanupBounded(cfg, Reap(cfg, st, pid, status, now), deaths[1..], now);
    }
  }
}

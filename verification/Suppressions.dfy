/**
 When a suppression is ACTIVE: after one step, and over a whole run; and what that means for the
 schedules that it matches.
 */
module Suppressions {
  import opened Model
  import opened Invariants
  import opened SuppressionCounts
  import opened Firing

  // ------------------------------------------------------------------ one step

  /** The event ends the suppression. */
  predicate EndsAt(x: Supp, e: Event) { x.cfg.end != "" && x.cfg.end == e.name }

  /** The event starts the suppression, if it is ENABLED. */
  predicate StartsAt(x: Supp, e: Event) { x.cfg.start != "" && x.cfg.start == e.name }

  /**
   A suppression before and after an event.  One that is DISABLED or has no name is DISABLED; one
   that matches nothing stays as it is; any other one is ACTIVE exactly if it was, or was ENABLED
   and starts with this event, and does not end with it.  Whether it stops anything plays no part.
   */
  ghost predicate Next(x: Supp, y: Supp, e: Event) {
    && y.cfg == x.cfg
    && if x.state == SuppDisabled || x.cfg.name == "" then y.state == SuppDisabled
       else if x.cfg.match_ == [] then y.state == x.state
       else
         && y.state != SuppDisabled
         && (y.state == SuppActive <==>
               (x.state == SuppActive || (x.state == SuppEnabled && StartsAt(x, e))) && !EndsAt(x, e))
  }

  lemma OneNext(cfg: Config, st: State, e: Event, k: nat)
    requires k < |st.supps|
    ensures Next(st.supps[k], SuppressCbOne(cfg, st, e, k).supps[k], e)
    ensures forall m :: 0 <= m < |st.supps| && m != k ==> SuppressCbOne(cfg, st, e, k).supps[m] == st.supps[m]
  {
    hide SuppressUpTo, ReleaseUpTo;
  }

  lemma {:induction false} AllNext(cfg: Config, st: State, e: Event, n: nat)
    requires n <= |st.supps|
    ensures forall k :: 0 <= k < n ==> Next(st.supps[k], SuppressCb(cfg, st, e, n).supps[k], e)
    ensures forall k :: n <= k < |st.supps| ==> SuppressCb(cfg, st, e, n).supps[k] == st.supps[k]
  {
    hide SuppressCbOne, Next;
    if n > 0 {
      AllNext(cfg, st, e, n - 1);
      OneNext(cfg, SuppressCb(cfg, st, e, n - 1), e, n - 1);
    }
  }

  lemma {:induction false} ExecuteKeepsSupps(cfg: Config, st: State, e: Event, now: nat, n: nat)
    requires Inv(st) && n <= |st.schedules|
    ensures ExecuteCb(cfg, st, e, now, n).supps == st.supps
  {
    hide ExecuteOne;
    if n > 0 {
      ExecuteKeepsSupps(cfg, st, e, now, n - 1);
      ExecuteCbKeeps(cfg, st, e, now, n - 1);
      ExecuteOneKeeps(cfg, ExecuteCb(cfg, st, e, now, n - 1), e, now, n - 1);
    }
  }

  lemma ReapKeepsSupps(cfg: Config, st: State, pid: int, status: WaitStatus, now: nat)
    requires Inv(st)
    ensures Reap(cfg, st, pid, status, now).supps == st.supps
  {
    hide ReapAt;
    if pid > 0 && pid in st.world.children && Locate(st, pid).Some? {
      var (i, j) := Locate(st, pid).value;
      assert At(st, i, j) && PidAt(st, i, j) == pid;
      ReapAtElsewhere(cfg, st, st.(world := st.world.(children := st.world.children - {pid})), i, j, StatusOf(status),
        now);
    }
  }

  /** What each step does to each suppression: an event what its start and end say, a death nothing. */
  lemma {:induction false} SuppressionExactly(cfg: Config, st: State, x: Input, k: nat)
    requires Inv(st) && k < |st.supps|
    ensures var st' := Step(cfg, st, x);
            && |st'.supps| == |st.supps|
            && if x.Fire? then Next(st.supps[k], st'.supps[k], x.e) else st'.supps[k] == st.supps[k]
  {
    hide SuppressCb, ExecuteCb, Reap, Next;
    match x {
      case Fire(e, now) =>
        var st1 := SuppressCb(cfg, st, e, |st.supps|);
        AllNext(cfg, st, e, |st.supps|);
        SuppressCbCalm(cfg, st, e, |st.supps|);
        AllCalmKeeps(st, st1);
        ExecuteKeepsSupps(cfg, st1, e, now, |st1.schedules|);
      case Death(pid, status, now) => ReapKeepsSupps(cfg, st, pid, status, now);
    }
  }

  // ------------------------------------------------------------------ all runs

  /** The n-th input starts the suppression, and no input from then on ends it. */
  ghost predicate Since(x: Supp, xs: seq<Input>, n: nat) {
    && n < |xs| && xs[n].Fire? && StartsAt(x, xs[n].e)
    && forall m :: n <= m < |xs| && xs[m].Fire? ==> !EndsAt(x, xs[m].e)
  }

  lemma SinceNext(x: Supp, xs: seq<Input>, y: Input)
    ensures (exists n: nat :: Since(x, xs + [y], n)) <==>
            (y.Fire? ==> !EndsAt(x, y.e)) && ((exists n: nat :: Since(x, xs, n)) || (y.Fire? && StartsAt(x, y.e)))
  {
    var ys := xs + [y];
    forall n: nat ensures Since(x, ys, n) <==>
      (y.Fire? ==> !EndsAt(x, y.e)) && (Since(x, xs, n) || (n == |xs| && y.Fire? && StartsAt(x, y.e)))
    {
      assert forall m :: 0 <= m < |xs| ==> ys[m] == xs[m];
      assert ys[|xs|] == y;
    }
    if y.Fire? && StartsAt(x, y.e) && !EndsAt(x, y.e) { assert Since(x, ys, |xs|); }
  }

  /**
   In every run, a suppression that was loaded ENABLED is ACTIVE if and only if some event has
   started it and neither that event nor any later one has ended it.
   */
  lemma {:induction false} ActiveExactly(cfg: Config, st: State, xs: seq<Input>, k: nat)
    requires Initial(st) && k < |st.supps|
    requires st.supps[k].state == SuppEnabled && st.supps[k].cfg.name != "" && st.supps[k].cfg.match_ != []
    ensures var st' := Run(cfg, st, xs);
            && |st'.supps| == |st.supps| && st'.supps[k].cfg == st.supps[k].cfg && st'.supps[k].state != SuppDisabled
            && (st'.supps[k].state == SuppActive <==> exists n: nat :: Since(st.supps[k], xs, n))
  {
    if xs != [] {
      hide Step, Inv, Since;
      var ys, y := xs[..|xs| - 1], xs[|xs| - 1];
      assert xs == ys + [y];
      ActiveExactly(cfg, st, ys, k);
      Reachable(cfg, st, ys);
      SuppressionExactly(cfg, Run(cfg, st, ys), y, k);
      SinceNext(st.supps[k], ys, y);
    }
  }

  // ------------------------------------------------------------------ schedules

  lemma {:induction false} InForceZero(cfg: Config, supps: seq<Supp>, tags: seq<string>)
    ensures InForce(cfg, supps, tags) == 0 <==> forall k :: 0 <= k < |supps| ==> !Counts(cfg, supps[k], tags)
  {
    if supps != [] {
      var n := |supps| - 1;
      InForceZero(cfg, supps[..n], tags);
      assert forall k :: 0 <= k < n ==> supps[..n][k] == supps[k];
    }
  }

  /** Some pattern of the suppression matches some tag; fnmatch is told the pattern first. */
  ghost predicate Strikes(cfg: Config, sup: SuppCfg, tags: seq<string>) {
    exists m, t :: 0 <= m < |sup.match_| && 0 <= t < |tags| && (sup.match_[m], tags[t]) in cfg.fnmatch
  }

  lemma StrikesExactly(cfg: Config, sup: SuppCfg, tags: seq<string>)
    ensures BigTagMatch(cfg.fnmatch, sup.match_, tags) <==> Strikes(cfg, sup, tags)
  {
    if BigTagMatch(cfg.fnmatch, sup.match_, tags) {
      var m, t :| m in sup.match_ && t in tags && (m, t) in cfg.fnmatch;
      var k :| 0 <= k < |sup.match_| && sup.match_[k] == m;
      var l :| 0 <= l < |tags| && tags[l] == t;
    }
  }

  /** No suppression that is in force matches the schedule. */
  ghost predicate Unhindered(cfg: Config, supps: seq<Supp>, s: Schedule) {
    forall k :: 0 <= k < |supps| && supps[k].state == SuppActive ==> !Strikes(cfg, supps[k].cfg, s.cfg.suppressionTags)
  }

  /** A schedule that neither runs nor is DISABLED is ENABLED or SUPPRESSED, according to the suppressions in force. */
  lemma CountedState(cfg: Config, st: State, i: nat)
    requires Counted(cfg, st) && i < |st.schedules|
    ensures var s := st.schedules[i];
            s.state != Running && s.state != Disabled ==> (s.state == Enabled <==> Unhindered(cfg, st.supps, s))
  {
    hide BigTagMatch, Strikes;
    var s := st.schedules[i];
    assert ScheduleCounted(cfg, st.supps, s);
    InForceZero(cfg, st.supps, s.cfg.suppressionTags);
    forall k | 0 <= k < |st.supps|
      ensures Counts(cfg, st.supps[k], s.cfg.suppressionTags) <==>
              st.supps[k].state == SuppActive && Strikes(cfg, st.supps[k].cfg, s.cfg.suppressionTags)
    {
      StrikesExactly(cfg, st.supps[k].cfg, s.cfg.suppressionTags);
    }
  }

  lemma {:induction false} SuppressedExactly(cfg: Config, st: State, xs: seq<Input>, i: nat)
    requires Initial(st) && i < |Run(cfg, st, xs).schedules|
    ensures var st' := Run(cfg, st, xs); var s := st'.schedules[i];
            s.state != Running && s.state != Disabled ==> (s.state == Enabled <==> Unhindered(cfg, st'.supps, s))
  {
    hide Run;
    ReachableCounted(cfg, st, xs);
    CountedState(cfg, Run(cfg, st, xs), i);
  }

  /**
   In every run: an event starts a schedule if and only if it is its start event, the schedule is
   neither RUNNING nor DISABLED, and no suppression that is ACTIVE after the event matches it.
   What the event itself starts or ends counts: suppressions come first.
   */
  lemma {:induction false} StartsExactly(cfg: Config, st: State, xs: seq<Input>, e: Event, now: nat, i: nat)
    requires Initial(st) && i < |Run(cfg, st, xs).schedules|
    ensures var st1 := Run(cfg, st, xs);
            var st' := Step(cfg, st1, Fire(e, now));
            var s := st1.schedules[i];
            BegunBy(SuppressCb(cfg, st1, e, |st1.supps|).schedules[i], e) <==>
              && s.cfg.name != "" && s.cfg.start != "" && s.cfg.start == e.name
              && s.state != Running && s.state != Disabled && Unhindered(cfg, st'.supps, s)
  {
    hide Run, SuppressCb, ExecuteCb, Counted, Inv;
    var st1 := Run(cfg, st, xs);
    var st2 := SuppressCb(cfg, st1, e, |st1.supps|);
    Reachable(cfg, st, xs);
    ReachableCounted(cfg, st, xs);
    SuppressCbCounted(cfg, st1, e, |st1.supps|);
    SuppressCbCalm(cfg, st1, e, |st1.supps|);
    AllCalmKeeps(st1, st2);
    assert Calm(st1.schedules[i], st2.schedules[i]);
    CountedState(cfg, st2, i);
    ExecuteKeepsSupps(cfg, st2, e, now, |st2.schedules|);
  }
}

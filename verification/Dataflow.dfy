/**
 The files behind the log.  Every operation of the scheduler is interpreted over the queue
 directories; between the operations the processes that are at work may write into their own
 workspace and consume the active queue of their schedule, and nobody else touches anything.
 */
module Dataflow {
  import opened Model
  import opened Invariants
  import opened Protocol
  import opened Queue
  import W = Workspace

  /** The workspace directory of a schedule is its active queue; its other folders are directories in it. */
  datatype Place = IncomingOf(s: nat) | ActiveOf(s: nat) | WorkOf(s: nat, a: nat)

  type Fs = map<Place, Folder>

  function Look(fs: Fs, p: Place): Folder { if p in fs then fs[p] else map[] }

  datatype Happening =
    | Did(op: Op, skip: set<string>)
    | Shifted(s: nat, q: Queues)
    | Wrote(s: nat, a: nat, folder: Folder)
    | Consumed(s: nat, a: nat, names: set<string>)

  function TargetOf(s: nat, d: nat): Place { if d == s then ActiveOf(s) else IncomingOf(d) }

  function FsStep(fs: Fs, h: Happening): Fs {
    match h
    case Did(ActionCleaned(s, a), skip) => fs[WorkOf(s, a) := W.ActionCleaned(Look(fs, WorkOf(s, a)), skip)]
    case Did(ActionMoved(s, a, d), skip) =>
      var to := TargetOf(s, d);
      fs[to := W.Linked(Look(fs, to), Look(fs, WorkOf(s, a)), skip)]
    case Did(ScheduleCleaned(s), skip) => fs[ActiveOf(s) := W.ScheduleCleaned(Look(fs, ActiveOf(s)), skip)]
    case Did(_, _) => fs
    case Shifted(s, q) => fs[IncomingOf(s) := q.incoming][ActiveOf(s) := q.active]
    case Wrote(s, a, f) => fs[WorkOf(s, a) := f]
    case Consumed(s, a, names) =>
      var f := Look(fs, ActiveOf(s));
      fs[ActiveOf(s) := map n | n in f && (n !in names || f[n].Directory?) :: f[n]]
  }

  ghost function FsAfter(fs: Fs, hs: seq<Happening>): Fs {
    if hs == [] then fs else FsStep(FsAfter(fs, hs[..|hs| - 1]), hs[|hs| - 1])
  }

  ghost function OpsOf(hs: seq<Happening>): seq<Op> {
    if hs == [] then []
    else
      var h := hs[|hs| - 1];
      OpsOf(hs[..|hs| - 1]) + (if h.Did? then [h.op] else if h.Shifted? then [ScheduleMoved(h.s)] else [])
  }

  /** A process of action a of schedule s is at work. */
  ghost predicate AtWorkIn(log: seq<Op>, s: nat, a: nat) {
    if log == [] then false
    else
      match log[|log| - 1]
      case Launched(i, j, _) => (i == s && j == a) || AtWorkIn(log[..|log| - 1], s, a)
      case Reaped(i, j, _) => !(i == s && j == a) && AtWorkIn(log[..|log| - 1], s, a)
      case _ => AtWorkIn(log[..|log| - 1], s, a)
  }

  /** h may happen now: only processes at work write, and a queue moves as src/workspace.c moves it. */
  ghost predicate May(fs: Fs, log: seq<Op>, h: Happening) {
    match h
    case Did(op, _) => !op.ScheduleMoved?
    case Shifted(s, q) => Safe(Queues(Look(fs, IncomingOf(s)), Look(fs, ActiveOf(s))), q)
    case Wrote(s, a, _) => AtWorkIn(log, s, a)
    case Consumed(s, a, _) => AtWorkIn(log, s, a)
  }

  ghost predicate Plausible(fs: Fs, hs: seq<Happening>) {
    if hs == [] then true
    else
      var prev := hs[..|hs| - 1];
      Plausible(fs, prev) && May(FsAfter(fs, prev), OpsOf(prev), hs[|hs| - 1])
  }

  lemma {:induction false} MayAt(fs: Fs, hs: seq<Happening>, k: nat)
    requires Plausible(fs, hs) && k < |hs|
    ensures May(FsAfter(fs, hs[..k]), OpsOf(hs[..k]), hs[k])
    decreases |hs|
  {
    if k < |hs| - 1 {
      assert hs[..|hs| - 1][..k] == hs[..k];
      MayAt(fs, hs[..|hs| - 1], k);
    }
  }

  lemma FsSnoc(fs: Fs, hs: seq<Happening>, k: nat)
    requires k < |hs|
    ensures FsAfter(fs, hs[..k + 1]) == FsStep(FsAfter(fs, hs[..k]), hs[k])
    ensures OpsOf(hs[..k + 1]) == OpsOf(hs[..k]) + OpsOf([hs[k]])
  {
    assert hs[..k + 1][..k] == hs[..k];
    assert [hs[k]][..0] == [];
    assert OpsOf([]) == [];
  }

  lemma {:induction false} OpsPrefix(hs: seq<Happening>, k: nat)
    requires k <= |hs|
    ensures OpsOf(hs[..k]) <= OpsOf(hs)
    decreases |hs| - k
  {
    if k == |hs| {
      assert hs[..k] == hs;
    } else {
      FsSnoc(map[], hs, k);
      OpsPrefix(hs, k + 1);
    }
  }

  // ------------------------------------------------------------------ what the automaton says about the history

  lemma {:induction false} PrefixUnbroken(D: seq<nat>, i: nat, j: nat, log: seq<Op>, log': seq<Op>)
    requires log <= log' && !TrackOf(D, i, j, log').phase.Broken?
    ensures !TrackOf(D, i, j, log).phase.Broken?
    decreases |log'|
  {
    if |log'| > |log| {
      assert log <= log'[..|log'| - 1];
      PrefixUnbroken(D, i, j, log, log'[..|log'| - 1]);
    } else {
      assert log == log';
    }
  }

  lemma {:induction false} WorkingPhase(D: seq<nat>, i: nat, j: nat, log: seq<Op>)
    requires !TrackOf(D, i, j, log).phase.Broken?
    ensures AtWorkIn(log, i, j) <==> TrackOf(D, i, j, log).phase.AtWork?
  {
    if log != [] {
      PrefixUnbroken(D, i, j, log[..|log| - 1], log);
      WorkingPhase(D, i, j, log[..|log| - 1]);
    }
  }

  ghost predicate IsMove(h: Happening, i: nat, j: nat) { h.Did? && h.op.ActionMoved? && h.op.s == i && h.op.a == j }

  ghost predicate IsClean(h: Happening, i: nat, j: nat) { h.Did? && h.op.ActionCleaned? && h.op.s == i && h.op.a == j }

  /** The destinations of the moves of action j from p to k, in order. */
  ghost function MovesIn(hs: seq<Happening>, p: nat, k: nat, i: nat, j: nat): seq<nat>
    requires p <= k <= |hs|
    decreases k
  {
    if k == p then [] else MovesIn(hs, p, k - 1, i, j) + (if IsMove(hs[k - 1], i, j) then [hs[k - 1].op.dst] else [])
  }

  /** A process ended at p: its results are handled from there on until its workspace is cleaned. */
  ghost predicate Handled(D: seq<nat>, hs: seq<Happening>, i: nat, j: nat, status: int, p: nat, q: nat) {
    && p < q <= |hs| && hs[p].Did? && hs[p].op == Reaped(i, j, status)
    && (forall k :: p < k < q ==> !IsClean(hs[k], i, j))
    && !TrackOf(D, i, j, OpsOf(hs)).phase.Broken?
  }

  lemma TrackAt(D: seq<nat>, i: nat, j: nat, hs: seq<Happening>, k: nat)
    requires k < |hs|
    ensures TrackOf(D, i, j, OpsOf(hs[..k + 1])) ==
            if hs[k].Did? then NextTrack(D, i, j, TrackOf(D, i, j, OpsOf(hs[..k])), hs[k].op)
              else TrackOf(D, i, j, OpsOf(hs[..k]))
  {
    FsSnoc(map[], hs, k);
    var log := OpsOf(hs[..k]);
    assert OpsOf([]) == [] && [hs[k]][..0] == [];
    if hs[k].Did? {
      TrackSnoc(D, i, j, log, hs[k].op);
    } else if hs[k].Shifted? {
      TrackSnoc(D, i, j, log, ScheduleMoved(hs[k].s));
    } else {
      assert log + [] == log;
    }
  }

  lemma {:induction false} EndedPhase(D: seq<nat>, hs: seq<Happening>, i: nat, j: nat, status: int, p: nat, q: nat)
    requires Handled(D, hs, i, j, status, p, q)
    ensures var ph := TrackOf(D, i, j, OpsOf(hs[..q])).phase;
            ph.Ended? && ph.status == status && ph.moved == MovesIn(hs, p + 1, q, i, j)
    decreases q
  {
    hide OpsOf, TrackOf;
    OpsPrefix(hs, q);
    PrefixUnbroken(D, i, j, OpsOf(hs[..q]), OpsOf(hs));
    TrackAt(D, i, j, hs, q - 1);
    if q > p + 1 { EndedPhase(D, hs, i, j, status, p, q - 1); }
  }

  /** The moves between the end of a process and the cleaning of its workspace are those owed. */
  lemma MovesOwed(D: seq<nat>, hs: seq<Happening>, i: nat, j: nat, status: int, p: nat, q: nat)
    requires Handled(D, hs, i, j, status, p, q) && q < |hs| && IsClean(hs[q], i, j)
    ensures MovesIn(hs, p + 1, q, i, j) == Owed(D, i, status)
  {
    EndedPhase(D, hs, i, j, status, p, q);
    TrackAt(D, i, j, hs, q);
    OpsPrefix(hs, q + 1);
    PrefixUnbroken(D, i, j, OpsOf(hs[..q + 1]), OpsOf(hs));
  }

  ghost predicate WritesWork(h: Happening, i: nat, j: nat) {
    IsClean(h, i, j) || (h.Wrote? && h.s == i && h.a == j)
  }

  lemma WorkUntouched(fs: Fs, h: Happening, i: nat, j: nat)
    requires !WritesWork(h, i, j)
    ensures Look(FsStep(fs, h), WorkOf(i, j)) == Look(fs, WorkOf(i, j))
  {
  }

  lemma NoWriter(D: seq<nat>, fs: Fs, hs: seq<Happening>, i: nat, j: nat, status: int, p: nat, k: nat)
    requires Handled(D, hs, i, j, status, p, k) && k < |hs| && !IsClean(hs[k], i, j)
    requires May(FsAfter(fs, hs[..k]), OpsOf(hs[..k]), hs[k])
    ensures !WritesWork(hs[k], i, j)
  {
    EndedPhase(D, hs, i, j, status, p, k);
    WorkingPhase(D, i, j, OpsOf(hs[..k]));
  }

  /** Nobody touches the workspace until it is cleaned. */
  lemma {:induction false} WorkFrozen(D: seq<nat>, fs: Fs, hs: seq<Happening>, i: nat, j: nat, status: int, p: nat,
                                      q: nat)
    requires Handled(D, hs, i, j, status, p, q) && Plausible(fs, hs)
    ensures Look(FsAfter(fs, hs[..q]), WorkOf(i, j)) == Look(FsAfter(fs, hs[..p]), WorkOf(i, j))
    decreases q
  {
    hide FsStep, Look, FsAfter, OpsOf, TrackOf, Plausible;
    FsSnoc(fs, hs, q - 1);
    if q > p + 1 {
      WorkFrozen(D, fs, hs, i, j, status, p, q - 1);
      MayAt(fs, hs, q - 1);
      NoWriter(D, fs, hs, i, j, status, p, q - 1);
    }
    WorkUntouched(FsAfter(fs, hs[..q - 1]), hs[q - 1], i, j);
  }

  // ------------------------------------------------------------------ delivery

  ghost function Count(xs: seq<nat>, d: nat): nat { multiset(xs)[d] }

  ghost predicate Distinct(xs: seq<nat>) { forall k, l :: 0 <= k < l < |xs| ==> xs[k] != xs[l] }

  lemma {:induction false} OwnCount(dests: seq<nat>, i: nat, d: nat)
    ensures Count(Own(dests, i), d) == if d == i then Count(dests, i) else 0
  {
    if dests != [] {
      OwnCount(dests[..|dests| - 1], i, d);
      assert dests == dests[..|dests| - 1] + [dests[|dests| - 1]];
    }
  }

  lemma {:induction false} DistinctCount(xs: seq<nat>, d: nat)
    requires Distinct(xs)
    ensures Count(xs, d) == if d in xs then 1 else 0
  {
    if xs != [] {
      var n := |xs| - 1;
      DistinctCount(xs[..n], d);
      assert xs == xs[..n] + [xs[n]];
      assert d in xs[..n] ==> d != xs[n];
    }
  }

  /**
   How often each destination is owed: another schedule once, the own schedule once, or twice
   when there is another one; a failed process owes nothing.
   */
  lemma OwedCount(dests: seq<nat>, i: nat, status: int, d: nat)
    requires Distinct(dests)
    ensures Count(Owed(dests, i, status), d) ==
            if status != 0 || d !in dests then 0 else if d == i && SomeOther(dests, i) then 2 else 1
  {
    OwnCount(dests, i, d);
    DistinctCount(dests, d);
    DistinctCount(dests, i);
  }

  /** From p to q the log hands every result of the process to each destination as often as it is owed. */
  ghost predicate DeliversAll(D: seq<nat>, fs: Fs, hs: seq<Happening>, i: nat, j: nat, status: int, p: nat, q: nat)
    requires p < q <= |hs|
  {
    && MovesIn(hs, p + 1, q, i, j) == Owed(D, i, status)
    && forall k :: p < k < q && IsMove(hs[k], i, j) ==> LinksAll(fs, hs, k, Look(FsAfter(fs, hs[..p]), WorkOf(i, j)))
  }

  /** The move at k links every movable file of this folder for which no call fails and whose name is free. */
  ghost predicate LinksAll(fs: Fs, hs: seq<Happening>, k: nat, results: Folder)
    requires k < |hs| && hs[k].Did? && hs[k].op.ActionMoved?
  {
    var to := TargetOf(hs[k].op.s, hs[k].op.dst);
    var before, after := Look(FsAfter(fs, hs[..k]), to), Look(FsAfter(fs, hs[..k + 1]), to);
    && (forall n :: n in before ==> n in after && after[n] == before[n])
    && (forall n :: n in after && n !in before ==> n in results && W.Movable(n, results[n]) && after[n] == results[n])
    && (forall n :: n in results && W.Movable(n, results[n]) && n !in before && n !in hs[k].skip ==> n in after)
  }

  lemma {:induction false} MoveLinks(D: seq<nat>, fs: Fs, hs: seq<Happening>, i: nat, j: nat, status: int, p: nat,
                                     q: nat, k: nat)
    requires Handled(D, hs, i, j, status, p, q) && Plausible(fs, hs) && p < k < q && IsMove(hs[k], i, j)
    ensures LinksAll(fs, hs, k, Look(FsAfter(fs, hs[..p]), WorkOf(i, j)))
  {
    WorkFrozen(D, fs, hs, i, j, status, p, k);
    FsSnoc(fs, hs, k);
  }

  /** q is the first cleaning of the workspace after p. */
  ghost predicate Window(hs: seq<Happening>, i: nat, j: nat, p: nat, q: nat) {
    p < q < |hs| && IsClean(hs[q], i, j) && NoCleanIn(hs, i, j, p, q)
  }

  ghost predicate NoCleanIn(hs: seq<Happening>, i: nat, j: nat, p: nat, q: nat)
    requires q <= |hs|
  {
    forall k :: p < k < q ==> !IsClean(hs[k], i, j)
  }

  lemma {:induction false} FirstClean(hs: seq<Happening>, i: nat, j: nat, p: nat, n: nat)
    requires p < n <= |hs|
    ensures NoCleanIn(hs, i, j, p, n) || exists q: nat :: q < n && Window(hs, i, j, p, q)
    decreases n
  {
    if p + 1 < n {
      FirstClean(hs, i, j, p, n - 1);
      if NoCleanIn(hs, i, j, p, n - 1) && IsClean(hs[n - 1], i, j) { assert Window(hs, i, j, p, n - 1); }
    }
  }

  lemma {:induction false} DeliveredInWindow(cfg: Config, st: State, xs: seq<Input>, fs: Fs, hs: seq<Happening>,
                                             i: nat, j: nat, status: int, p: nat, q: nat)
    requires Initial(st) && At(st, i, j) && OpsOf(hs) == Run(cfg, st, xs).world.log && Plausible(fs, hs)
    requires Window(hs, i, j, p, q) && hs[p].Did? && hs[p].op == Reaped(i, j, status)
    ensures DeliversAll(DestsOf(st, i, j), fs, hs, i, j, status, p, q)
  {
    var D := DestsOf(st, i, j);
    ActionTracked(cfg, st, xs, i, j);
    MovesOwed(D, hs, i, j, status, p, q);
    forall k | p < k < q && IsMove(hs[k], i, j) ensures LinksAll(fs, hs, k, Look(FsAfter(fs, hs[..p]), WorkOf(i, j))) {
      MoveLinks(D, fs, hs, i, j, status, p, q, k);
    }
  }

  /**
   The results of the process that ended at p wait: the own schedule has them, the others will get
   them at the end.
   */
  ghost predicate Waits(D: seq<nat>, s: Schedule, hs: seq<Happening>, i: nat, j: nat, status: int, p: nat)
    requires p < |hs| && j < |s.actions|
  {
    && status == 0 && SomeOther(D, i) && s.actions[j].deferred && SomeLive(s)
    && NoCleanIn(hs, i, j, p, |hs|) && MovesIn(hs, p + 1, |hs|, i, j) == Own(D, i)
  }

  /** As long as the workspace has not been cleaned, the results wait, and their schedule has a live process. */
  lemma {:induction false} WaitingResults(cfg: Config, st: State, xs: seq<Input>, hs: seq<Happening>,
                                          i: nat, j: nat, status: int, p: nat)
    requires Initial(st) && At(st, i, j) && OpsOf(hs) == Run(cfg, st, xs).world.log
    requires p < |hs| && hs[p].Did? && hs[p].op == Reaped(i, j, status) && NoCleanIn(hs, i, j, p, |hs|)
    ensures At(Run(cfg, st, xs), i, j) && Waits(DestsOf(st, i, j), Run(cfg, st, xs).schedules[i], hs, i, j, status, p)
  {
    hide Run, OpsOf;
    var D := DestsOf(st, i, j);
    ActionTracked(cfg, st, xs, i, j);
    EndedPhase(D, hs, i, j, status, p, |hs|);
    assert hs[..|hs|] == hs;
    Reachable(cfg, st, xs);
    var s := Run(cfg, st, xs).schedules[i];
    assert ScheduleOk(s) && s.actions[j].deferred;
  }

  /**
   Delivery.  In every history of every run, for every process that has ended: at the first
   cleaning of its workspace afterwards, what it left there has been handed to exactly the owed
   destinations, all of it; and as long as that cleaning has not come, the results wait for a
   process of their schedule that is still alive.
   */
  lemma {:induction false} Delivery(cfg: Config, st: State, xs: seq<Input>, fs: Fs, hs: seq<Happening>, i: nat, j: nat,
                                    status: int, p: nat)
    requires Initial(st) && At(st, i, j) && OpsOf(hs) == Run(cfg, st, xs).world.log && Plausible(fs, hs)
    requires p < |hs| && hs[p].Did? && hs[p].op == Reaped(i, j, status)
    ensures At(Run(cfg, st, xs), i, j)
    ensures || (exists q :: Window(hs, i, j, p, q) && DeliversAll(DestsOf(st, i, j), fs, hs, i, j, status, p, q))
            || Waits(DestsOf(st, i, j), Run(cfg, st, xs).schedules[i], hs, i, j, status, p)
  {
    ActionTracked(cfg, st, xs, i, j);
    FirstClean(hs, i, j, p, |hs|);
    if NoCleanIn(hs, i, j, p, |hs|) {
      WaitingResults(cfg, st, xs, hs, i, j, status, p);
    } else {
      var q :| Window(hs, i, j, p, q);
      DeliveredInWindow(cfg, st, xs, fs, hs, i, j, status, p, q);
    }
  }

  // ------------------------------------------------------------------ isolation

  /** An active queue gains files through schedule_move and from its own actions, in no other way. */
  lemma ActiveGains(fs: Fs, hs: seq<Happening>, i: nat, k: nat, n: string)
    requires Plausible(fs, hs) && k < |hs|
    requires n in Look(FsAfter(fs, hs[..k + 1]), ActiveOf(i)) && n !in Look(FsAfter(fs, hs[..k]), ActiveOf(i))
    ensures (hs[k].Shifted? && hs[k].s == i && n in Look(FsAfter(fs, hs[..k]), IncomingOf(i)))
            || (hs[k].Did? && hs[k].op.ActionMoved? && hs[k].op.s == hs[k].op.dst == i
                && n in Look(FsAfter(fs, hs[..k]), WorkOf(i, hs[k].op.a)))
  {
    FsSnoc(fs, hs, k);
    MayAt(fs, hs, k);
    if hs[k].Shifted? && hs[k].s == i {
      var q0 := Queues(Look(FsAfter(fs, hs[..k]), IncomingOf(i)), Look(FsAfter(fs, hs[..k]), ActiveOf(i)));
      assert PartOfPair(q0.incoming, n);
    }
  }

  /**
   The incoming folder and the workspaces of the actions are directories in the workspace of a
   schedule: they stay.
   */
  lemma {:induction false} DirectoriesStay(fs: Fs, hs: seq<Happening>, i: nat, n: string)
    requires Plausible(fs, hs) && n in Look(fs, ActiveOf(i)) && Look(fs, ActiveOf(i))[n].Directory?
    ensures n in Look(FsAfter(fs, hs), ActiveOf(i)) && Look(FsAfter(fs, hs), ActiveOf(i))[n].Directory?
  {
    if hs != [] {
      DirectoriesStay(fs, hs[..|hs| - 1], i, n);
    }
  }
}

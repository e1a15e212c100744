/**
 Which program an action runs: the first task of its name, with a program that is a capability,
 and arguments that fit.  An action that fails one of these tests is never launched in any run.
 */
module Tasks {
  import opened Common
  import opened Model

  // ------------------------------------------------------------------ the task of an action

  /** Task k is the first one of that name. */
  ghost predicate IsFirst(tasks: seq<Task>, name: string, k: nat) {
    k < |tasks| && tasks[k].name == name && forall l :: 0 <= l < k ==> tasks[l].name != name
  }

  lemma FirstShift(tasks: seq<Task>, name: string, k: nat)
    requires tasks != [] && tasks[0].name != name
    ensures IsFirst(tasks, name, k + 1) <==> IsFirst(tasks[1..], name, k)
    ensures !IsFirst(tasks, name, 0)
  {
    var rest := tasks[1..];
    assert forall l :: 0 <= l < |rest| ==> rest[l] == tasks[l + 1];
    if IsFirst(rest, name, k) {
      forall l | 0 <= l < k + 1 ensures tasks[l].name != name { if l > 0 { assert rest[l - 1] == tasks[l]; } }
    }
  }

  /** Some task of that name is the first one. */
  lemma {:induction false} FirstExists(tasks: seq<Task>, name: string, k: nat) returns (f: nat)
    requires k < |tasks| && tasks[k].name == name
    ensures IsFirst(tasks, name, f)
  {
    if l :| 0 <= l < k && tasks[l].name == name { f := FirstExists(tasks, name, l); } else { f := k; }
  }

  /** The search returns the first task of the name asked for, and nothing if there is none or no name is given. */
  lemma {:induction false} FindTaskExactly(tasks: seq<Task>, name: string)
    ensures forall k: nat :: IsFirst(tasks, name, k) && name != "" ==> FindTask(tasks, name) == Some(tasks[k])
    ensures FindTask(tasks, name) == None <==> name == "" || forall k :: 0 <= k < |tasks| ==> tasks[k].name != name
  {
    if k :| 0 <= k < |tasks| && tasks[k].name == name { var f := FirstExists(tasks, name, k); }
    if tasks != [] {
      FindTaskExactly(tasks[1..], name);
      if tasks[0].name == name {
        assert IsFirst(tasks, name, 0);
      } else {
        forall k: nat
          ensures IsFirst(tasks, name, k) ==> k > 0 && IsFirst(tasks[1..], name, k - 1) && tasks[1..][k - 1] == tasks[k]
        {
          FirstShift(tasks, name, if k > 0 then k - 1 else 0);
        }
        forall k: nat
          ensures IsFirst(tasks[1..], name, k) ==> IsFirst(tasks, name, k + 1)
        {
          FirstShift(tasks, name, k);
        }
      }
    }
  }

  /** Task k is that of the action, and its program is a capability. */
  ghost predicate RunsTask(cfg: Config, a: ActionCfg, k: nat) {
    && a.task.Some? && a.task.value != "" && IsFirst(cfg.tasks, a.task.value, k) && cfg.tasks[k].program.Some?
    && exists c :: 0 <= c < |cfg.capabilities| && cfg.capabilities[c].program == cfg.tasks[k].program
  }

  /** No option of the task and then of the action is met when 252 arguments have been collected. */
  ghost predicate Fits(cfg: Config, a: ActionCfg, k: nat)
    requires k < |cfg.tasks|
  {
    var all := cfg.tasks[k].options + a.options;
    forall m :: 0 <= m < |all| ==> |Args(all[..m])| < 252
  }

  lemma CapableExactly(capabilities: seq<Task>, program: string)
    ensures Capable(capabilities, program) <==>
            exists c :: 0 <= c < |capabilities| && capabilities[c].program == Some(program)
  {
    if Capable(capabilities, program) {
      var t :| t in capabilities && t.program == Some(program);
      var c :| 0 <= c < |capabilities| && capabilities[c] == t;
    }
  }

  /** action_exec goes on exactly with an action that has a task whose program may run, and whose arguments fit. */
  lemma {:induction false} TaskExactly(cfg: Config, a: ActionCfg)
    ensures Permitted(cfg, a) <==> exists k: nat :: RunsTask(cfg, a, k)
    ensures forall k: nat :: RunsTask(cfg, a, k) && Permitted(cfg, a) ==> (ArgsFit(cfg, a) <==> Fits(cfg, a, k))
  {
    if a.task.Some? { FindTaskExactly(cfg.tasks, a.task.value); }
    if Permitted(cfg, a) {
      var name := a.task.value;
      var l :| 0 <= l < |cfg.tasks| && cfg.tasks[l].name == name;
      var k := FirstExists(cfg.tasks, name, l);
      assert FindTask(cfg.tasks, name) == Some(cfg.tasks[k]);
      CapableExactly(cfg.capabilities, cfg.tasks[k].program.value);
      assert RunsTask(cfg, a, k);
    }
    forall k: nat | RunsTask(cfg, a, k) ensures Permitted(cfg, a) {
      CapableExactly(cfg.capabilities, cfg.tasks[k].program.value);
    }
    forall k: nat | RunsTask(cfg, a, k) && Permitted(cfg, a) ensures ArgsFit(cfg, a) <==> Fits(cfg, a, k) {
      Counted(cfg.tasks[k].options, a.options);
    }
  }

  // ------------------------------------------------------------------ arguments

  lemma {:induction false} ArgsJoin(opts: seq<Opt>, more: seq<Opt>)
    ensures Args(opts + more) == Args(opts) + Args(more)
  {
    if more == [] {
      assert opts + more == opts;
    } else {
      assert (opts + more)[..|opts + more| - 1] == opts + more[..|more| - 1];
      ArgsJoin(opts, more[..|more| - 1]);
    }
  }

  /** Counting succeeds exactly if no option is met at the limit. */
  lemma {:induction false} CountedUpTo(opts: seq<Opt>, n: nat, start: nat)
    requires n <= |opts| && start <= ARGV_LIMIT + 1
    ensures ArgvAfter(opts, n, Some(start)) ==
            if forall k :: 0 <= k < n ==> start + |Args(opts[..k])| < ARGV_LIMIT then Some(start + |Args(opts[..n])|)
              else None
  {
    hide Args, ArgvAfter;
    ArgsNone(opts, Some(start));
    if n > 0 {
      CountedUpTo(opts, n - 1, start);
      ArgsNext(opts, n - 1, Some(start));
    }
  }

  lemma Counted(opts: seq<Opt>, more: seq<Opt>)
    ensures ArgvAfter(more, |more|, ArgvAfter(opts, |opts|, Some(0))).Some? <==>
            forall k :: 0 <= k < |opts + more| ==> |Args((opts + more)[..k])| < ARGV_LIMIT
  {
    hide Args, ArgvAfter;
    CountedUpTo(opts, |opts|, 0);
    assert opts[..|opts|] == opts;
    forall k | 0 <= k < |opts| ensures (opts + more)[..k] == opts[..k] {}
    forall k | 0 <= k < |more| ensures |Args((opts + more)[..|opts| + k])| == |Args(opts)| + |Args(more[..k])| {
      assert (opts + more)[..|opts| + k] == opts + more[..k];
      ArgsJoin(opts, more[..k]);
    }
    if ArgvAfter(opts, |opts|, Some(0)).Some? {
      CountedUpTo(more, |more|, |Args(opts)|);
      forall k | |opts| <= k < |opts + more|
        ensures |Args((opts + more)[..k])| == |Args(opts)| + |Args(more[..k - |opts|])|
      {
        assert k == |opts| + (k - |opts|);
      }
      forall k | 0 <= k < |more| ensures |Args(opts)| + |Args(more[..k])| == |Args((opts + more)[..|opts| + k])| {}
    } else {
      NoneAfter(more, |more|);
    }
  }

  lemma {:induction false} NoneAfter(opts: seq<Opt>, n: nat)
    requires n <= |opts|
    ensures ArgvAfter(opts, n, None).None?
  {
    if n > 0 { NoneAfter(opts, n - 1); }
  }

  lemma ArgsNone(opts: seq<Opt>, start: Option<nat>)
    ensures Args(opts[..0]) == [] && ArgvAfter(opts, 0, start) == start
  {
  }

  /** One more option: counted, unless the limit has been reached, and its arguments appended. */
  lemma ArgsNext(opts: seq<Opt>, k: nat, start: Option<nat>)
    requires k < |opts|
    ensures var o := opts[k];
            Args(opts[..k + 1]) == Args(opts[..k]) + (if o.name.Some? then [o.name.value] else [])
                                   + (if o.value.Some? then [o.value.value] else [])
    ensures var r, o := ArgvAfter(opts, k, start), opts[k];
            r.Some? && r.value < ARGV_LIMIT ==>
              ArgvAfter(opts, k + 1, start) ==
              Some(r.value + (if o.name.Some? then 1 else 0) + (if o.value.Some? then 1 else 0))
    ensures var r := ArgvAfter(opts, k, start);
            r.None? || r.value >= ARGV_LIMIT ==> ArgvAfter(opts, k + 1, start).None?
  {
    assert opts[..k + 1][..k] == opts[..k];
  }

  lemma {:induction false} Overflow(opts: seq<Opt>, k: nat, n: nat, start: Option<nat>)
    requires k < n <= |opts| && ArgvAfter(opts, k, start).Some? && ArgvAfter(opts, k, start).value >= ARGV_LIMIT
    ensures ArgvAfter(opts, n, start).None?
  {
    if n > k + 1 { Overflow(opts, k, n - 1, start); }
  }
}

/**
 The operations of src/workspace.c on whole directories: cleaning the active queue of a schedule,
 cleaning the workspace of an action, and linking the results of an action into a queue.  Each
 loop over readdir is proved against a function on the directory contents; skip is the set of
 names for which a system call fails.  Which calls fail is an arbitrary set that the operations
 cannot choose.
 */
module Workspace {
  import opened Queue

  predicate Private(name: string) { name != "" && name[0] == '_' }
  predicate Hidden(name: string) { name != "" && name[0] == '.' }

  /** What lmapd_workspace_action_move links: regular files that are neither private nor hidden. */
  predicate Movable(name: string, e: Entry) { e.Regular? && !Private(name) && !Hidden(name) }

  /** Directories and private entries survive the cleaning of an active queue. */
  function ScheduleCleaned(f: Folder, skip: set<string>): Folder {
    map n | n in f && (Private(n) || f[n].Directory? || n in skip) :: f[n]
  }

  /** Private entries survive the cleaning of an action workspace, directories do not. */
  function ActionCleaned(f: Folder, skip: set<string>): Folder {
    map n | n in f && (Private(n) || n in skip) :: f[n]
  }

  /** Everything movable is linked, unless the name is taken. */
  function Linked(dst: Folder, src: Folder, skip: set<string>): Folder {
    map n | n in dst.Keys + src.Keys && (n in dst || (Movable(n, src[n]) && n !in skip))
      :: if n in dst then dst[n] else src[n]
  }

  /** A listing by readdir: every entry once, in any order. */
  ghost predicate Lists(names: seq<string>, f: Folder) {
    && (forall n :: n in names <==> n in f)
    && (forall k, l :: 0 <= k < l < |names| ==> names[k] != names[l])
  }

  /** The system calls on an entry; Walk is nftw itself, Remove a failing remove below it. */
  datatype Call = Stat | Unlink | Walk | Remove | Link

  type Faults = set<(Call, string)>

  /** The names for which one of these calls fails. */
  function Failing(fails: Faults, calls: set<Call>): set<string> { set c | c in fails && c.0 in calls :: c.1 }

  lemma FailingAt(fails: Faults, calls: set<Call>, n: string)
    ensures n in Failing(fails, calls) <==> exists c :: c in calls && (c, n) in fails
  {
    if c :| c in calls && (c, n) in fails { assert (c, n).0 in calls; }
  }

  lemma FailingTwo(fails: Faults, a: Call, b: Call, n: string)
    ensures n in Failing(fails, {a, b}) <==> (a, n) in fails || (b, n) in fails
  {
    FailingAt(fails, {a, b}, n);
    assert a in {a, b} && b in {a, b};
  }

  /** What lmapd_workspace_schedule_clean tries to unlink. */
  predicate Unlinked(n: string, e: Entry, fails: Faults) { !Private(n) && !e.Directory? && (Stat, n) !in fails }

  lemma ScheduleDone(f: Folder, f': Folder, names: seq<string>, skip: set<string>)
    requires Lists(names, f)
    requires forall n :: n in f' ==> n in f && f'[n] == f[n]
    requires forall l :: 0 <= l < |names| ==>
             (names[l] in f' <==> Private(names[l]) || f[names[l]].Directory? || names[l] in skip)
    ensures f' == ScheduleCleaned(f, skip)
  {
    hide Private;
  }

  lemma ActionDone(f: Folder, f': Folder, names: seq<string>, skip: set<string>)
    requires Lists(names, f)
    requires forall n :: n in f' ==> n in f && f'[n] == f[n]
    requires forall l :: 0 <= l < |names| ==> (names[l] in f' <==> Private(names[l]) || names[l] in skip)
    ensures f' == ActionCleaned(f, skip)
  {
    hide Private;
  }

  lemma LinksDone(dst: Folder, dst': Folder, src: Folder, names: seq<string>, skip: set<string>)
    requires Lists(names, src)
    requires forall n :: n in dst ==> n in dst' && dst'[n] == dst[n]
    requires forall n :: n in dst' && n !in dst ==> n in names && dst'[n] == src[n]
    requires forall l :: 0 <= l < |names| && names[l] !in dst ==>
             (names[l] in dst' <==> Movable(names[l], src[names[l]]) && names[l] !in skip)
    ensures dst' == Linked(dst, src, skip)
  {
    hide Movable;
  }

  /** What stays when the queue of a schedule is cleaned. */
  lemma ScheduleKeeps(f: Folder, fails: Faults)
    ensures var f' := ScheduleCleaned(f, Failing(fails, {Stat, Unlink}));
            && (forall n :: n in f' ==> n in f && f'[n] == f[n])
            && (forall n :: n in f ==>
                  (n in f' <==>
                   (n != "" && n[0] == '_') || f[n].Directory? || (Stat, n) in fails || (Unlink, n) in fails))
  {
    hide Failing;
    forall n ensures n in Failing(fails, {Stat, Unlink}) <==> (Stat, n) in fails || (Unlink, n) in fails {
      FailingTwo(fails, Stat, Unlink, n);
    }
  }

  /** What stays when the workspace of an action is cleaned. */
  lemma ActionKeeps(f: Folder, fails: Faults)
    ensures var f' := ActionCleaned(f, Failing(fails, {Walk, Remove}));
            && (forall n :: n in f' ==> n in f && f'[n] == f[n])
            && (forall n :: n in f ==>
                  (n in f' <==> (n != "" && n[0] == '_') || (Walk, n) in fails || (Remove, n) in fails))
  {
    hide Failing;
    forall n ensures n in Failing(fails, {Walk, Remove}) <==> (Walk, n) in fails || (Remove, n) in fails {
      FailingTwo(fails, Walk, Remove, n);
    }
  }

  /** What a queue gains from the workspace of an action. */
  lemma LinkedGains(dst: Folder, src: Folder, fails: Faults)
    ensures var dst' := Linked(dst, src, Failing(fails, {Stat, Link}));
            && (forall n :: n in dst ==> n in dst' && dst'[n] == dst[n])
            && (forall n :: n !in dst ==>
                  (n in dst' <==> n in src && src[n].Regular? && !(n != "" && (n[0] == '_' || n[0] == '.'))
                                  && (Stat, n) !in fails && (Link, n) !in fails)
                  && (n in dst' ==> dst'[n] == src[n]))
  {
    hide Failing;
    forall n ensures n in Failing(fails, {Stat, Link}) <==> (Stat, n) in fails || (Link, n) in fails {
      FailingTwo(fails, Stat, Link, n);
    }
  }

  lemma LiteralNames()
    ensures forall n :: Private(n) <==> n != "" && n[0] == '_'
    ensures forall n :: Hidden(n) <==> n != "" && n[0] == '.'
  {
  }

  class Dir {
    var entries: Folder
    /** The calls that fail from now on for reasons of the system. */
    var fails: Faults

    constructor (entries: Folder, fails: Faults)
      ensures this.entries == entries && this.fails == fails
    {
      this.entries, this.fails := entries, fails;
    }

    /** unlinkat */
    method UnlinkOne(name: string) returns (ok: bool)
      modifies this`entries
      ensures ok == ((Unlink, name) !in fails)
      ensures entries == if ok then old(entries) - {name} else old(entries)
    {
      ok := (Unlink, name) !in fails;
      if ok { entries := entries - {name}; }
    }

    /** remove_all: the callback passes over what it cannot remove, and only nftw itself reports a failure. */
    method RemoveAll(name: string) returns (ok: bool)
      modifies this`entries
      ensures ok == ((Walk, name) !in fails)
      ensures entries == if (Walk, name) in fails || (Remove, name) in fails then old(entries)
              else old(entries) - {name}
    {
      ok := (Walk, name) !in fails;
      if ok && (Remove, name) !in fails { entries := entries - {name}; }
    }

    /** lmapd_workspace_schedule_clean: a failing stat is passed over, a failing unlink is reported. */
    method ScheduleClean(names: seq<string>) returns (ok: bool)
      requires Lists(names, entries)
      modifies this`entries
      ensures entries == ScheduleCleaned(old(entries), Failing(fails, {Stat, Unlink}))
      ensures forall n :: n in entries ==> n in old(entries) && entries[n] == old(entries)[n]
      ensures forall n :: n in old(entries) ==>
                (n in entries <==> (n != "" && n[0] == '_') || old(entries)[n].Directory?
                                   || (Stat, n) in fails || (Unlink, n) in fails)
      ensures ok <==> forall n :: (n in old(entries) && !(n != "" && n[0] == '_') && !old(entries)[n].Directory?
                                   && (Stat, n) !in fails) ==> (Unlink, n) !in fails
    {
      hide Failing, Private, ScheduleCleaned;
      ok := true;
      ghost var skip := Failing(fails, {Stat, Unlink});
      for k := 0 to |names|
        invariant forall n :: n in entries ==> n in old(entries) && entries[n] == old(entries)[n]
        invariant forall l :: k <= l < |names| ==> names[l] in entries
        invariant forall l :: 0 <= l < k ==>
                    (names[l] in entries <==>
                     Private(names[l]) || old(entries)[names[l]].Directory? || names[l] in skip)
        invariant ok <==>
                  forall l :: 0 <= l < k && Unlinked(names[l], old(entries)[names[l]], fails) ==>
                    (Unlink, names[l]) !in fails
      {
        FailingTwo(fails, Stat, Unlink, names[k]);
        if !Private(names[k]) && (Stat, names[k]) !in fails && !entries[names[k]].Directory? {
          var gone := UnlinkOne(names[k]);
          if !gone { ok := false; }
        }
      }
      ScheduleDone(old(entries), entries, names, skip);
      ScheduleKeeps(old(entries), fails);
      LiteralNames();
    }

    /** lmapd_workspace_action_clean: an entry may stay although success is reported. */
    method ActionClean(names: seq<string>) returns (ok: bool)
      requires Lists(names, entries)
      modifies this`entries
      ensures entries == ActionCleaned(old(entries), Failing(fails, {Walk, Remove}))
      ensures forall n :: n in entries ==> n in old(entries) && entries[n] == old(entries)[n]
      ensures forall n :: n in old(entries) ==>
                (n in entries <==> (n != "" && n[0] == '_') || (Walk, n) in fails || (Remove, n) in fails)
      ensures ok <==> forall n :: n in old(entries) && !(n != "" && n[0] == '_') ==> (Walk, n) !in fails
    {
      hide Failing, Private, ActionCleaned;
      ok := true;
      ghost var skip := Failing(fails, {Walk, Remove});
      for k := 0 to |names|
        invariant forall n :: n in entries ==> n in old(entries) && entries[n] == old(entries)[n]
        invariant forall l :: k <= l < |names| ==> names[l] in entries
        invariant forall l :: 0 <= l < k ==> (names[l] in entries <==> Private(names[l]) || names[l] in skip)
        invariant ok <==> forall l :: 0 <= l < k && !Private(names[l]) ==> (Walk, names[l]) !in fails
      {
        FailingTwo(fails, Walk, Remove, names[k]);
        if !Private(names[k]) {
          var done := RemoveAll(names[k]);
          if !done { ok := false; }
        }
      }
      ActionDone(old(entries), entries, names, skip);
      ActionKeeps(old(entries), fails);
      LiteralNames();
    }

    /** link into dst; it fails when the name is taken. */
    method LinkInto(dst: Dir, name: string) returns (ok: bool)
      requires name in entries && dst != this
      modifies dst`entries
      ensures ok == ((Link, name) !in fails && name !in old(dst.entries))
      ensures dst.entries == if ok then old(dst.entries)[name := entries[name]] else old(dst.entries)
    {
      ok := (Link, name) !in fails && name !in dst.entries;
      if ok { dst.entries := dst.entries[name := entries[name]]; }
    }

    /** The loop of lmapd_workspace_action_move: it reports every link that did not come about. */
    method ActionMove(names: seq<string>, dst: Dir) returns (ok: bool)
      requires Lists(names, entries) && dst != this
      modifies dst`entries
      ensures dst.entries == Linked(old(dst.entries), entries, Failing(fails, {Stat, Link}))
      ensures forall n :: n in old(dst.entries) ==> n in dst.entries && dst.entries[n] == old(dst.entries)[n]
      ensures forall n :: n !in old(dst.entries) ==>
                (n in dst.entries <==> n in entries && entries[n].Regular? && !(n != "" && (n[0] == '_' || n[0] == '.'))
                                       && (Stat, n) !in fails && (Link, n) !in fails)
                && (n in dst.entries ==> dst.entries[n] == entries[n])
      ensures ok <==> forall n :: (n in entries && entries[n].Regular? && !(n != "" && (n[0] == '_' || n[0] == '.'))
                                   && (Stat, n) !in fails) ==> n !in old(dst.entries) && (Link, n) !in fails
    {
      hide Failing, Private, Hidden, Linked;
      ok := true;
      ghost var skip := Failing(fails, {Stat, Link});
      for k := 0 to |names|
        invariant forall n :: n in old(dst.entries) ==> n in dst.entries && dst.entries[n] == old(dst.entries)[n]
        invariant forall n :: n in dst.entries && n !in old(dst.entries) ==>
                  n in names[..k] && dst.entries[n] == entries[n]
        invariant forall l :: 0 <= l < k && names[l] !in old(dst.entries) ==>
                    (names[l] in dst.entries <==> Movable(names[l], entries[names[l]]) && names[l] !in skip)
        invariant ok <==>
                  forall l :: 0 <= l < k && Movable(names[l], entries[names[l]]) && (Stat, names[l]) !in fails ==>
                    names[l] !in old(dst.entries) && (Link, names[l]) !in fails
      {
        assert names[..k + 1] == names[..k] + [names[k]];
        FailingTwo(fails, Stat, Link, names[k]);
        if (Stat, names[k]) !in fails && entries[names[k]].Regular? && !Private(names[k]) && !Hidden(names[k]) {
          var done := LinkInto(dst, names[k]);
          if !done { ok := false; }
        }
      }
      assert names[..|names|] == names;
      LinksDone(old(dst.entries), dst.entries, entries, names, skip);
      LinkedGains(old(dst.entries), entries, fails);
      LiteralNames();
    }
  }

  /** Success is reported, and yet an entry that cannot be removed stays in the workspace of the action. */
  method RemovalNotReported() returns (d: Dir, ok: bool)
    ensures ok && "x" in d.entries && !Private("x")
  {
    d := new Dir(map["x" := Regular(1)], {(Remove, "x")});
    assert ["x"][0] == "x";
    ok := d.ActionClean(["x"]);
    FailingTwo(d.fails, Walk, Remove, "x");
  }
}

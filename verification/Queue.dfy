/**
 The move of the incoming queue of a schedule to its active queue (src/workspace.c).  A queue
 entry is a pair of files, X.meta and X.data.  The move links both, data first, and then removes
 both from the incoming folder; any single system call may fail, and the daemon may die between
 any two of them.
 */
module Queue {
  /** A directory entry; two entries with the same inode are links to the same file. */
  datatype Entry = Regular(inode: nat) | Directory | Special

  type Folder = map<string, Entry>

  datatype Queues = Queues(incoming: Folder, active: Folder)

  // ------------------------------------------------------------------ names

  /** strrchr(s, '.') as an index, -1 when there is no dot. */
  function LastDot(s: string): (k: int)
    ensures -1 <= k < |s|
    ensures k >= 0 ==> s[k] == '.'
    ensures forall l :: k < l < |s| ==> s[l] != '.'
  {
    if s == [] then -1 else if s[|s| - 1] == '.' then |s| - 1 else LastDot(s[..|s| - 1])
  }

  /** A name the move looks at: not hidden, and everything from its last dot on is .meta. */
  predicate IsMeta(name: string) {
    name != "" && name[0] != '.' && LastDot(name) >= 0 && name[LastDot(name)..] == ".meta"
  }

  /** The name of the data file: what follows the last dot is overwritten. */
  function DataOf(name: string): string
    requires IsMeta(name)
  {
    name[..LastDot(name) + 1] + "data"
  }

  lemma {:induction false} MetaHasStem(name: string)
    requires IsMeta(name)
    ensures |name| > 5 && name == name[..|name| - 5] + ".meta" && DataOf(name) == name[..|name| - 5] + ".data"
  {
    var k := LastDot(name);
    assert name == name[..k] + name[k..];
    assert k != 0;
    assert name[..k + 1] == name[..k] + ".";
    assert ".data" == "." + "data";
  }

  /** Every name with that suffix and a visible first character is looked at. */
  lemma StemMakesMeta(stem: string)
    requires stem != "" && stem[0] != '.'
    ensures IsMeta(stem + ".meta") && DataOf(stem + ".meta") == stem + ".data"
  {
    var name := stem + ".meta";
    var k := LastDot(name);
    assert name[|stem|] == '.';
    assert forall l :: |stem| < l < |name| ==> name[l] == ".meta"[l - |stem|] != '.';
    assert k == |stem|;
    assert name[k..] == ".meta";
    assert name[..k + 1] + "data" == stem + ".data";
  }

  /** The names picked are exactly the visible ones with that suffix, and the data name replaces it. */
  lemma {:induction false} MetaNames(name: string)
    ensures IsMeta(name) <==> |name| > 5 && name[0] != '.' && name[|name| - 5..] == ".meta"
    ensures IsMeta(name) ==> DataOf(name) == name[..|name| - 5] + ".data"
  {
    if IsMeta(name) { MetaHasStem(name); }
    if |name| > 5 && name[0] != '.' && name[|name| - 5..] == ".meta" {
      assert name == name[..|name| - 5] + ".meta";
      StemMakesMeta(name[..|name| - 5]);
    }
  }

  /** No file belongs to two entries. */
  lemma PairsDisjoint(m: string, n: string)
    requires IsMeta(m) && IsMeta(n)
    ensures DataOf(m) != n
    ensures m != n ==> DataOf(m) != DataOf(n)
  {
    MetaHasStem(m);
    MetaHasStem(n);
    assert DataOf(m)[|DataOf(m)| - 4] == 'd';
    assert n[|n| - 4] == 'm';
    if DataOf(m) == DataOf(n) {
      assert m[..|m| - 5] == DataOf(m)[..|DataOf(m)| - 5] == n[..|n| - 5];
    }
  }

  // ------------------------------------------------------------------ what must hold at any moment

  /** Both files of the entry are there as regular files: the move picks it up. */
  predicate Complete(f: Folder, m: string) {
    IsMeta(m) && m in f && f[m].Regular? && DataOf(m) in f && f[DataOf(m)].Regular?
  }

  /** Both files of the entry are in f, and they are the files that f0 had. */
  ghost predicate Holds(f: Folder, f0: Folder, m: string)
    requires Complete(f0, m)
  {
    m in f && f[m] == f0[m] && DataOf(m) in f && f[DataOf(m)] == f0[DataOf(m)]
  }

  ghost predicate PartOfPair(f: Folder, name: string) {
    exists m :: Complete(f, m) && (name == m || name == DataOf(m))
  }

  /** Names that belong to no complete entry are untouched, and nothing that was active is lost. */
  ghost predicate Framed(q0: Queues, q: Queues) {
    && (forall n :: n in q.incoming ==> n in q0.incoming && q.incoming[n] == q0.incoming[n])
    && (forall n :: n in q0.active ==> n in q.active && q.active[n] == q0.active[n])
    && (forall n :: n in q0.incoming && n !in q.incoming ==> PartOfPair(q0.incoming, n))
    && (forall n :: n in q.active && n !in q0.active ==> PartOfPair(q0.incoming, n))
  }

  /** An entry is complete in incoming or complete in active, and its meta file never arrives before its data. */
  ghost predicate PairSafe(q0: Queues, q: Queues, m: string)
    requires Complete(q0.incoming, m)
  {
    && (Holds(q.incoming, q0.incoming, m) || (m !in q0.active && Holds(q.active, q0.incoming, m)))
    && (m in q.active && m !in q0.active ==> Holds(q.active, q0.incoming, m))
    && (DataOf(m) in q.active && DataOf(m) !in q0.active ==> q.active[DataOf(m)] == q0.incoming[DataOf(m)])
  }

  /** What a crash at this moment leaves behind. */
  ghost predicate Safe(q0: Queues, q: Queues) {
    Framed(q0, q) && forall m :: Complete(q0.incoming, m) ==> PairSafe(q0, q, m)
  }

  /** The daemon dies in state q: what is in active can be processed. */
  lemma {:induction false} SafeMeansReadable(q0: Queues, q: Queues)
    requires Safe(q0, q)
    requires forall m :: IsMeta(m) && m in q0.active ==> DataOf(m) in q0.active
    ensures forall m :: IsMeta(m) && m in q.active ==> DataOf(m) in q.active
  {
    forall m | IsMeta(m) && m in q.active ensures DataOf(m) in q.active {
      if m !in q0.active {
        var n :| Complete(q0.incoming, n) && (m == n || m == DataOf(n));
        PairsDisjoint(n, m);
        assert PairSafe(q0, q, m);
      }
    }
  }

  // ------------------------------------------------------------------ the single calls

  lemma DataLinked(q0: Queues, q: Queues, m: string)
    requires Safe(q0, q) && Complete(q.incoming, m) && DataOf(m) !in q.active
    ensures Complete(q0.incoming, m) && DataOf(m) !in q0.active
    ensures Safe(q0, q.(active := q.active[DataOf(m) := q.incoming[DataOf(m)]]))
  {
    hide IsMeta, DataOf;
    var q' := q.(active := q.active[DataOf(m) := q.incoming[DataOf(m)]]);
    assert Complete(q0.incoming, m) && PairSafe(q0, q, m);
    forall n | Complete(q0.incoming, n) ensures PairSafe(q0, q', n) {
      assert PairSafe(q0, q, n);
      PairsDisjoint(m, n);
    }
  }

  lemma {:induction false} MetaLinked(q0: Queues, q: Queues, m: string)
    requires Safe(q0, q) && Complete(q.incoming, m) && m !in q.active
    requires DataOf(m) in q.active && q.active[DataOf(m)] == q.incoming[DataOf(m)]
    ensures Safe(q0, q.(active := q.active[m := q.incoming[m]]))
  {
    hide IsMeta, DataOf;
    var q' := q.(active := q.active[m := q.incoming[m]]);
    assert Complete(q0.incoming, m) && PairSafe(q0, q, m);
    forall n | Complete(q0.incoming, n) ensures PairSafe(q0, q', n) {
      assert PairSafe(q0, q, n);
      PairsDisjoint(n, m);
    }
  }

  /** The data link is taken back when the meta link failed. */
  lemma {:induction false} RolledBack(q0: Queues, q: Queues, m: string)
    requires Safe(q0, q) && Complete(q.incoming, m) && (m !in q.active || m in q0.active) && DataOf(m) in q.active
    requires DataOf(m) !in q0.active
    ensures Safe(q0, q.(active := q.active - {DataOf(m)}))
  {
    hide IsMeta, DataOf;
    var q' := q.(active := q.active - {DataOf(m)});
    assert Complete(q0.incoming, m) && PairSafe(q0, q, m);
    forall n | Complete(q0.incoming, n) ensures PairSafe(q0, q', n) {
      assert PairSafe(q0, q, n);
      PairsDisjoint(m, n);
    }
  }

  /** Once the entry is complete in active, its files may leave incoming in any order. */
  lemma {:induction false} SourceUnlinked(q0: Queues, q: Queues, m: string, name: string)
    requires Safe(q0, q) && Complete(q0.incoming, m) && m !in q0.active && Holds(q.active, q0.incoming, m)
    requires name == m || name == DataOf(m)
    ensures Safe(q0, q.(incoming := q.incoming - {name}))
  {
    var q' := q.(incoming := q.incoming - {name});
    forall n | Complete(q0.incoming, n) ensures PairSafe(q0, q', n) {
      assert PairSafe(q0, q, n);
      PairsDisjoint(m, n);
      PairsDisjoint(n, m);
    }
  }

  /** A complete entry is the one that was there, and what is not active now never was. */
  lemma {:induction false} StillThere(q0: Queues, q: Queues, m: string)
    requires Safe(q0, q) && Complete(q.incoming, m)
    ensures Complete(q0.incoming, m) && Holds(q.incoming, q0.incoming, m)
    ensures forall n :: n in q0.active ==> n in q.active
    ensures DataOf(m) !in q.active && m in q.active ==> m in q0.active
  {
    hide IsMeta, DataOf;
    assert PairSafe(q0, q, m);
  }

  // ------------------------------------------------------------------ the move

  /** The entry has left incoming for active, files and all. */
  ghost predicate Arrived(q0: Queues, q: Queues, m: string)
    requires Complete(q0.incoming, m)
  {
    Holds(q.active, q0.incoming, m) && m !in q.incoming && DataOf(m) !in q.incoming
  }

  /** The entry is where it was. */
  ghost predicate Waiting(q0: Queues, q: Queues, m: string)
    requires Complete(q0.incoming, m)
  {
    Holds(q.incoming, q0.incoming, m) && m !in q.active && DataOf(m) !in q.active
  }

  /** The entry is left alone, because a file of its data name is already active. */
  ghost predicate Left(q0: Queues, q: Queues, m: string)
    requires Complete(q0.incoming, m)
  {
    Holds(q.incoming, q0.incoming, m) && DataOf(m) in q.active && (m in q.active <==> m in q0.active)
  }

  /** A complete entry whose data name is free. */
  ghost predicate Free(q0: Queues, m: string) { Complete(q0.incoming, m) && DataOf(m) !in q0.active }

  ghost predicate PartOfFree(q0: Queues, name: string) {
    exists m :: Free(q0, m) && (name == m || name == DataOf(m))
  }

  /** No meta name is taken where the data name is free. */
  ghost predicate Tame(q0: Queues) { forall m :: Free(q0, m) ==> m !in q0.active }

  ghost predicate ProgressOf(q0: Queues, q: Queues, seen: seq<string>, m: string)
    requires Complete(q0.incoming, m)
  {
    if !Free(q0, m) then Left(q0, q, m) else if m in seen then Arrived(q0, q, m) else Waiting(q0, q, m)
  }

  /** Without failures: of the entries whose data name was free those seen so far have arrived, the others wait. */
  ghost predicate Progress(q0: Queues, q: Queues, seen: seq<string>) {
    forall m :: Complete(q0.incoming, m) ==> ProgressOf(q0, q, seen, m)
  }

  /** The outcome of an undisturbed move. */
  ghost function Target(q0: Queues): Queues {
    Queues(map n | n in q0.incoming && !PartOfFree(q0, n) :: q0.incoming[n],
           map n | n in q0.active.Keys + q0.incoming.Keys && (n in q0.active || PartOfFree(q0, n))
             :: if n in q0.active then q0.active[n] else q0.incoming[n])
  }

  /**
   The two files of a stem are regular files of incoming, the meta file is visible, and no file of
   the data name is active.
   */
  ghost predicate FreePair(q0: Queues, stem: string) {
    && stem != "" && stem[0] != '.'
    && stem + ".meta" in q0.incoming && q0.incoming[stem + ".meta"].Regular?
    && stem + ".data" in q0.incoming && q0.incoming[stem + ".data"].Regular? && stem + ".data" !in q0.active
  }

  ghost predicate Goes(q0: Queues, name: string) {
    exists stem :: FreePair(q0, stem) && (name == stem + ".meta" || name == stem + ".data")
  }

  lemma FreeExactly(q0: Queues, name: string)
    ensures PartOfFree(q0, name) <==> Goes(q0, name)
  {
    hide IsMeta, DataOf;
    if m :| Free(q0, m) && (name == m || name == DataOf(m)) {
      MetaNames(m);
      MetaHasStem(m);
      assert FreePair(q0, m[..|m| - 5]);
    }
    if stem :| FreePair(q0, stem) && (name == stem + ".meta" || name == stem + ".data") {
      StemMakesMeta(stem);
      assert Free(q0, stem + ".meta");
    }
  }

  /** An undisturbed move takes exactly the free pairs to active, the same files, and nothing is replaced. */
  lemma {:induction false} TargetExactly(q0: Queues)
    ensures var q := Target(q0);
            && (forall n :: n in q.incoming <==> n in q0.incoming && !Goes(q0, n))
            && (forall n :: n in q.active <==> n in q0.active || Goes(q0, n))
            && (forall n :: n in q.incoming ==> q.incoming[n] == q0.incoming[n])
            && (forall n :: n in q0.active ==> q.active[n] == q0.active[n])
            && (forall n :: n in q.active && n !in q0.active ==> n in q0.incoming && q.active[n] == q0.incoming[n])
  {
    hide PartOfFree, Goes;
    forall n ensures PartOfFree(q0, n) <==> Goes(q0, n) { FreeExactly(q0, n); }
    forall n | Goes(q0, n) ensures n in q0.incoming { GoesFrom(q0, n); }
  }

  lemma GoesFrom(q0: Queues, n: string)
    requires Goes(q0, n)
    ensures n in q0.incoming
  {
  }

  lemma TargetReached(q0: Queues, q: Queues)
    requires Framed(q0, q)
    requires forall n :: PartOfFree(q0, n) ==>
               n in q0.incoming && n !in q.incoming && n !in q0.active && n in q.active && q.active[n] == q0.incoming[n]
    requires forall n :: n in q0.incoming && n !in q.incoming ==> PartOfFree(q0, n)
    requires forall n :: n in q.active && n !in q0.active ==> PartOfFree(q0, n)
    ensures q == Target(q0)
  {
    hide PartOfPair, PartOfFree;
    assert q.incoming == Target(q0).incoming;
    assert q.active == Target(q0).active;
  }

  /** What belongs to an entry that was left alone has not moved. */
  lemma {:induction false} MovedIsFree(q0: Queues, q: Queues, seen: seq<string>, n: string)
    requires Safe(q0, q) && Progress(q0, q, seen)
    requires (n in q0.incoming && n !in q.incoming) || (n in q.active && n !in q0.active)
    ensures PartOfFree(q0, n)
  {
    hide IsMeta, DataOf;
    var m :| Complete(q0.incoming, m) && (n == m || n == DataOf(m));
    assert ProgressOf(q0, q, seen, m);
  }

  lemma {:induction false} ProgressDone(q0: Queues, q: Queues, seen: seq<string>)
    requires Safe(q0, q) && Tame(q0) && Progress(q0, q, seen) && forall n :: n in q0.incoming ==> n in seen
    ensures q == Target(q0)
  {
    hide IsMeta, DataOf;
    forall n | PartOfFree(q0, n)
      ensures n in q0.incoming && n !in q.incoming && n !in q0.active && n in q.active && q.active[n] == q0.incoming[n]
    {
      var m :| Free(q0, m) && (n == m || n == DataOf(m));
      assert ProgressOf(q0, q, seen, m);
    }
    forall n | (n in q0.incoming && n !in q.incoming) || (n in q.active && n !in q0.active) ensures PartOfFree(q0, n) {
      MovedIsFree(q0, q, seen, n);
    }
    TargetReached(q0, q);
  }

  /** q and q' differ at most in the files of one entry. */
  ghost predicate OnlyEntry(q: Queues, q': Queues, name: string)
    requires IsMeta(name)
  {
    && (forall k :: k != name && k != DataOf(name) ==> (k in q.incoming <==> k in q'.incoming))
    && (forall k :: k != name && k != DataOf(name) ==> (k in q.active <==> k in q'.active))
  }

  lemma {:induction false} OtherEntry(q0: Queues, q: Queues, q': Queues, seen: seq<string>, name: string, m: string)
    requires Safe(q0, q) && Safe(q0, q') && IsMeta(name) && OnlyEntry(q, q', name)
    requires Complete(q0.incoming, m) && m != name
    ensures Complete(q.incoming, m) ==> Complete(q'.incoming, m)
    ensures ProgressOf(q0, q, seen, m) ==> ProgressOf(q0, q', seen + [name], m)
  {
    PairsDisjoint(m, name);
    PairsDisjoint(name, m);
    assert PairSafe(q0, q, m) && PairSafe(q0, q', m);
    hide IsMeta, DataOf;
  }

  lemma {:induction false} OwnEntry(q0: Queues, q: Queues, q': Queues, seen: seq<string>, name: string)
    requires Safe(q0, q) && Complete(q.incoming, name) && Tame(q0)
    requires Complete(q0.incoming, name) ==> ProgressOf(q0, q, seen, name)
    requires DataOf(name) in q.active ==> q' == q
    requires name !in q.active && DataOf(name) !in q.active ==> Arrived(q, q', name)
    ensures Complete(q0.incoming, name) && ProgressOf(q0, q', seen + [name], name)
  {
    hide IsMeta, DataOf;
    StillThere(q0, q, name);
  }

  /** The entry at name has been treated; quiet says that no call has failed. */
  lemma {:induction false} EntryMoved(q0: Queues, q: Queues, q': Queues, seen: seq<string>, name: string, quiet: bool)
    requires Safe(q0, q) && Safe(q0, q') && Complete(q.incoming, name) && OnlyEntry(q, q', name)
    requires quiet && Tame(q0) ==> Progress(q0, q, seen)
    requires DataOf(name) in q.active ==> q' == q
    requires quiet && name !in q.active && DataOf(name) !in q.active ==> Arrived(q, q', name)
    ensures forall m :: Complete(q0.incoming, m) && Complete(q.incoming, m) && m != name ==> Complete(q'.incoming, m)
    ensures quiet && Tame(q0) ==> Progress(q0, q', seen + [name])
    ensures quiet && Tame(q0) && name in q.active ==> DataOf(name) in q.active
  {
    hide Safe, Tame, ProgressOf, IsMeta, DataOf;
    forall m | Complete(q0.incoming, m) && m != name
      ensures Complete(q.incoming, m) ==> Complete(q'.incoming, m)
      ensures ProgressOf(q0, q, seen, m) ==> ProgressOf(q0, q', seen + [name], m)
    {
      OtherEntry(q0, q, q', seen, name, m);
    }
    if quiet && Tame(q0) {
      OwnEntry(q0, q, q', seen, name);
      if name in q.active { NotTaken(q0, q, seen, name); }
    }
  }

  lemma {:induction false} NotTaken(q0: Queues, q: Queues, seen: seq<string>, name: string)
    requires Complete(q.incoming, name) && Safe(q0, q) && Progress(q0, q, seen) && name in q.active
    ensures DataOf(name) in q.active
  {
    hide IsMeta, DataOf;
    StillThere(q0, q, name);
    assert ProgressOf(q0, q, seen, name);
  }

  /** A name that is passed over is no complete entry, or has been moved before. */
  lemma {:induction false} PassedOver(q0: Queues, q: Queues, seen: seq<string>, name: string)
    requires Progress(q0, q, seen) && !Complete(q.incoming, name)
    ensures Progress(q0, q, seen + [name])
  {
    hide IsMeta, DataOf;
    forall m | Complete(q0.incoming, m)
      ensures ProgressOf(q0, q, seen + [name], m)
    {
      assert ProgressOf(q0, q, seen, m);
    }
  }

  // ------------------------------------------------------------------ the calls of a move

  /** The entry with its data linked, and with both files linked. */
  ghost function WithData(q: Queues, m: string): Queues
    requires Complete(q.incoming, m)
  {
    q.(active := q.active[DataOf(m) := q.incoming[DataOf(m)]])
  }

  ghost function WithBoth(q: Queues, m: string): Queues
    requires Complete(q.incoming, m)
  {
    WithData(q, m).(active := WithData(q, m).active[m := q.incoming[m]])
  }

  /**
   The states after the calls for one entry, the last one whether the scan is given up, and how
   many calls failed: the data link fails; or the meta link fails and the data link is taken back,
   unless that fails too; or both files are unlinked, the meta file first, unless that fails.
   */
  ghost predicate PairCalls(q: Queues, m: string, ts: seq<Queues>, stop: bool, failed: int)
    requires Complete(q.incoming, m)
  {
    var d := DataOf(m);
    || (ts == [q] && !stop && failed == (if d in q.active then 0 else 1))
    || (d !in q.active && |ts| == 3 && stop
        && ts[0] == ts[1] == WithData(q, m) && (ts[2] == ts[1] || ts[2] == q)
        && failed == (if m in q.active then 0 else 1) + (if ts[2] == q then 0 else 1))
    || (d !in q.active && m !in q.active && |ts| == 4 && !stop
        && ts[0] == WithData(q, m) && ts[1] == WithBoth(q, m)
        && (ts[2] == ts[1] || ts[2] == ts[1].(incoming := ts[1].incoming - {m}))
        && (ts[3] == ts[2] || ts[3] == ts[2].(incoming := ts[2].incoming - {d}))
        && failed == (if ts[2] == ts[1] then 1 else 0) + (if ts[3] == ts[2] then 1 else 0))
  }

  /**
   The states after the calls for one name: a name that is passed over is no complete entry, or a
   look at it failed.
   */
  ghost predicate VisitCalls(q: Queues, name: string, ts: seq<Queues>, stop: bool, failed: int) {
    || (ts == [] && !stop && failed >= 0 && (Complete(q.incoming, name) ==> failed > 0))
    || (Complete(q.incoming, name) && PairCalls(q, name, ts, stop, failed))
  }

  ghost function Latest(q: Queues, ts: seq<Queues>): Queues { if ts == [] then q else ts[|ts| - 1] }

  /** The states after the calls for the first n names, none but the last of which stopped the scan. */
  ghost predicate MoveCalls(q: Queues, names: seq<string>, n: nat, ts: seq<Queues>, stop: bool, failed: int)
    requires n <= |names|
  {
    if n == 0 then ts == [] && !stop && failed == 0
    else exists k: nat, f: int :: MoveCallsSplit(q, names, n, ts, stop, failed, k, f)
  }

  /** The first k calls are those for the names before the last one, and f of them failed. */
  ghost predicate MoveCallsSplit(q: Queues, names: seq<string>, n: nat, ts: seq<Queues>, stop: bool, failed: int,
                                 k: nat, f: int)
    requires 0 < n <= |names|
  {
    && k <= |ts| && MoveCalls(q, names, n - 1, ts[..k], false, f)
    && VisitCalls(Latest(q, ts[..k]), names[n - 1], ts[k..], stop, failed - f)
  }

  /** All calls of a move: up to a name that stops the scan, or to the last one. */
  ghost predicate ScanCalls(q: Queues, names: seq<string>, n: nat, ts: seq<Queues>, stop: bool, failed: int) {
    n <= |names| && (stop || n == |names|) && MoveCalls(q, names, n, ts, stop, failed)
  }

  lemma MoveCallsNext(q: Queues, names: seq<string>, n: nat, ts: seq<Queues>, f: int, us: seq<Queues>, stop: bool,
                      g: int)
    requires n < |names| && MoveCalls(q, names, n, ts, false, f)
    requires VisitCalls(Latest(q, ts), names[n], us, stop, g)
    ensures MoveCalls(q, names, n + 1, ts + us, stop, f + g) && Latest(q, ts + us) == Latest(Latest(q, ts), us)
  {
    hide VisitCalls;
    assert (ts + us)[..|ts|] == ts && (ts + us)[|ts|..] == us;
    assert MoveCallsSplit(q, names, n + 1, ts + us, stop, f + g, |ts|, f);
  }

  lemma StartScan(q: Queues, names: seq<string>)
    ensures MoveCalls(q, names, 0, [], false, 0) && Latest(q, []) == q
  {
  }

  /** The part of a trace from position n on, in two pieces. */
  lemma Pieces(t: seq<Queues>, t': seq<Queues>, n: nat)
    requires n <= |t| && t <= t'
    ensures t'[n..] == t[n..] + t'[|t|..] && t'[..n] == t[..n]
  {
  }

  /** The two folders of one schedule. */
  class Store {
    var incoming: Folder
    var active: Folder
    /** The state after every system call so far, and the number of calls that failed for no reason of ours. */
    ghost var trace: seq<Queues>
    ghost var faults: nat

    ghost function Now(): Queues
      reads this
    {
      Queues(incoming, active)
    }

    constructor (incoming: Folder, active: Folder)
      ensures this.incoming == incoming && this.active == active && trace == [] && faults == 0
    {
      this.incoming, this.active, trace, faults := incoming, active, [], 0;
    }

    /** linkat from incoming to active; it never replaces an entry. */
    method Link(name: string) returns (ok: bool)
      modifies this
      ensures incoming == old(incoming) && trace == old(trace) + [Now()]
      ensures ok ==> name in incoming && name !in old(active) && active == old(active)[name := incoming[name]]
      ensures !ok ==> active == old(active)
      ensures faults == old(faults) + (if !ok && name in incoming && name !in old(active) then 1 else 0)
    {
      var works: bool := *;
      ok := works && name in incoming && name !in active;
      if ok {
        active := active[name := incoming[name]];
      } else if name in incoming && name !in active {
        faults := faults + 1;
      }
      trace := trace + [Now()];
    }

    /** unlinkat in the active folder. */
    method UnlinkActive(name: string)
      modifies this
      ensures incoming == old(incoming) && trace == old(trace) + [Now()]
      ensures active == old(active) || active == old(active) - {name}
      ensures faults == old(faults) + (if active == old(active) && name in active then 1 else 0)
    {
      var works: bool := *;
      if works {
        active := active - {name};
      } else if name in active {
        faults := faults + 1;
      }
      trace := trace + [Now()];
    }

    /** unlinkat in the incoming folder. */
    method UnlinkIncoming(name: string) returns (ok: bool)
      modifies this
      ensures active == old(active) && trace == old(trace) + [Now()]
      ensures incoming == if ok then old(incoming) - {name} else old(incoming)
      ensures ok ==> name in old(incoming)
      ensures faults == old(faults) + (if !ok && name in old(incoming) then 1 else 0)
    {
      var works: bool := *;
      ok := works && name in incoming;
      if ok {
        incoming := incoming - {name};
      } else if name in incoming {
        faults := faults + 1;
      }
      trace := trace + [Now()];
    }

    /** fstatat finds a regular file in the incoming folder. */
    method IsRegular(name: string) returns (yes: bool)
      modifies this`faults
      ensures yes ==> name in incoming && incoming[name].Regular?
      ensures faults == old(faults) + (if !yes && name in incoming && incoming[name].Regular? then 1 else 0)
    {
      var works: bool := *;
      yes := works && name in incoming && incoming[name].Regular?;
      if !yes && name in incoming && incoming[name].Regular? { faults := faults + 1; }
    }

    /** The calls since the trace had n elements have all left a safe state. */
    ghost predicate SafeSince(q0: Queues, n: nat)
      reads this
    {
      n <= |trace| && Safe(q0, Now()) && forall k :: n <= k < |trace| ==> Safe(q0, trace[k])
    }

    /** The data link is taken back; if that fails too, it stays. */
    method TakeBack(ghost q0: Queues, ghost n: nat, m: string)
      requires Complete(incoming, m) && SafeSince(q0, n)
      requires DataOf(m) in active && DataOf(m) !in q0.active && (m !in active || m in q0.active)
      modifies this
      ensures SafeSince(q0, n) && |trace| >= old(|trace|) && faults >= old(faults)
      ensures incoming == old(incoming) && (active == old(active) || active == old(active) - {DataOf(m)})
      ensures trace == old(trace) + [Now()]
      ensures faults == old(faults) + (if active == old(active) then 1 else 0)
    {
      hide Safe, IsMeta, DataOf;
      RolledBack(q0, Now(), m);
      UnlinkActive(DataOf(m));
    }

    /** The entry is complete in active and leaves incoming, unless a call fails. */
    method DropSource(ghost q0: Queues, ghost n: nat, m: string)
      requires Complete(q0.incoming, m) && SafeSince(q0, n) && m !in q0.active && Holds(active, q0.incoming, m)
      requires Complete(incoming, m)
      modifies this
      ensures SafeSince(q0, n) && |trace| >= old(|trace|) && faults >= old(faults)
      ensures active == old(active)
      ensures forall k :: k != m && k != DataOf(m) ==> (k in incoming <==> k in old(incoming))
      ensures forall k :: k in incoming ==> k in old(incoming) && incoming[k] == old(incoming)[k]
      ensures faults == old(faults) ==> m !in incoming && DataOf(m) !in incoming
      ensures |trace| == old(|trace|) + 2 && trace[..old(|trace|)] == old(trace) && trace[old(|trace|) + 1] == Now()
      ensures trace[old(|trace|)] == old(Now()) || trace[old(|trace|)] == old(Now()).(incoming := old(incoming) - {m})
      ensures var q := trace[old(|trace|)]; Now() == q || Now() == q.(incoming := q.incoming - {DataOf(m)})
      ensures faults == old(faults) + (if trace[old(|trace|)] == old(Now()) then 1 else 0)
                                    + (if Now() == trace[old(|trace|)] then 1 else 0)
    {
      hide Safe, IsMeta, DataOf;
      PairsDisjoint(m, m);
      SourceUnlinked(q0, Now(), m, m);
      var gone := UnlinkIncoming(m);
      assert gone ==> m !in incoming;
      SourceUnlinked(q0, Now(), m, DataOf(m));
      gone := UnlinkIncoming(DataOf(m));
      assert gone ==> DataOf(m) !in incoming;
    }

    /**
     One complete entry: stop says that the scan is given up.  An entry one of whose files has
     left incoming is complete in active.
     */
    method MovePair(ghost q0: Queues, ghost n: nat, m: string) returns (stop: bool)
      requires Complete(incoming, m) && SafeSince(q0, n)
      modifies this
      ensures SafeSince(q0, n) && |trace| >= old(|trace|) && faults >= old(faults)
      ensures forall k :: k != m && k != DataOf(m) ==> (k in incoming <==> k in old(incoming))
      ensures forall k :: k != m && k != DataOf(m) ==> (k in active <==> k in old(active))
      ensures stop ==> faults > old(faults) || m in old(active)
      ensures Complete(incoming, m) || Holds(active, old(incoming), m)
      ensures DataOf(m) in old(active) ==> Now() == old(Now()) && !stop
      ensures faults == old(faults) && m !in old(active) && DataOf(m) !in old(active) ==>
              !stop && Arrived(old(Now()), Now(), m)
      ensures old(trace) <= trace && Now() == Latest(old(Now()), trace[old(|trace|)..])
      ensures PairCalls(old(Now()), m, trace[old(|trace|)..], stop, faults - old(faults))
    {
      hide Safe, IsMeta, DataOf;
      stop := false;
      var d := DataOf(m);
      PairsDisjoint(m, m);
      StillThere(q0, Now(), m);
      if d !in active { DataLinked(q0, Now(), m); }
      var ok := Link(d);
      if !ok { return; }
      if m !in active { MetaLinked(q0, Now(), m); }
      ok := Link(m);
      if !ok {
        TakeBack(q0, n, m);
        return true;
      }
      DropSource(q0, n, m);
    }

    /** The scan has come past the names seen. */
    ghost predicate Scanned(q0: Queues, n: nat, f0: nat, picked: set<string>, seen: seq<string>)
      reads this
    {
      && SafeSince(q0, n) && faults >= f0
      && (forall m :: m in picked ==> m in seen && Complete(q0.incoming, m))
      && (forall m :: Complete(q0.incoming, m) && !Complete(incoming, m) ==> m in picked)
      && (faults == f0 && Tame(q0) ==> Progress(q0, Now(), seen))
    }

    /** One name that readdir returns. */
    method Visit(ghost q0: Queues, ghost n: nat, ghost f0: nat, ghost before: set<string>, ghost seen: seq<string>,
                 name: string)
      returns (stop: bool, ghost picked: set<string>)
      requires Scanned(q0, n, f0, before, seen)
      modifies this
      ensures Scanned(q0, n, f0, picked, seen + [name])
      ensures stop ==> faults > f0 || !Tame(q0)
      ensures old(trace) <= trace && Now() == Latest(old(Now()), trace[old(|trace|)..])
      ensures VisitCalls(old(Now()), name, trace[old(|trace|)..], stop, faults - old(faults))
    {
      hide Safe, Tame, Progress, ProgressOf, DataOf;
      stop, picked := false, before;
      if name != "" && name[0] != '.' && LastDot(name) >= 0 && name[LastDot(name)..] == ".meta" {
        var yes := IsRegular(name);
        if yes { yes := IsRegular(DataOf(name)); }
        if yes {
          picked := picked + {name};
          ghost var q := Now();
          StillThere(q0, q, name);
          stop := MovePair(q0, n, name);
          EntryMoved(q0, q, Now(), seen, name, faults == f0);
          return;
        }
      }
      if faults == f0 && Tame(q0) { PassedOver(q0, Now(), seen, name); }
    }

    /** The first i names have been visited since the trace was tr and f0 calls had failed. */
    ghost predicate Scanning(q0: Queues, tr: seq<Queues>, f0: nat, names: seq<string>, i: nat, stop: bool,
                             picked: set<string>)
      reads this
    {
      && i <= |names| && Scanned(q0, |tr|, f0, picked, names[..i]) && (stop ==> faults > f0 || !Tame(q0))
      && tr <= trace && Now() == Latest(q0, trace[|tr|..])
      && MoveCalls(q0, names, i, trace[|tr|..], stop, faults - f0)
    }

    lemma ScanBegins(names: seq<string>)
      ensures Scanning(Now(), trace, faults, names, 0, false, {})
    {
      StartSafe(Now());
      StartScan(Now(), names);
      assert names[..0] == [] && trace[|trace|..] == [];
    }

    /** The next name. */
    method VisitNext(ghost q0: Queues, ghost tr: seq<Queues>, ghost f0: nat, names: seq<string>, i: nat,
                     ghost before: set<string>)
      returns (stop: bool, ghost picked: set<string>)
      requires Scanning(q0, tr, f0, names, i, false, before) && i < |names|
      modifies this
      ensures Scanning(q0, tr, f0, names, i + 1, stop, picked)
    {
      hide Safe, Tame, Scanned, MoveCalls, VisitCalls, Latest;
      ghost var t, f := trace, faults - f0;
      stop, picked := Visit(q0, |tr|, f0, before, names[..i], names[i]);
      Pieces(t, trace, |tr|);
      MoveCallsNext(q0, names, i, t[|tr|..], f, trace[|t|..], stop, faults - f0 - f);
      assert names[..i + 1] == names[..i] + [names[i]];
    }

    /**
     lmapd_workspace_schedule_move: names is what readdir returns.  Whatever fails, every state
     on the way is safe, and an entry that the next move would not pick up again is complete in
     active.  When nothing fails and readdir returns everything, exactly the complete entries
     whose data name was free have moved; the others are left alone.
     */
    method Move(names: seq<string>) returns (ghost picked: set<string>, ghost seen: nat, ghost stopped: bool)
      modifies this
      ensures forall k :: old(|trace|) <= k < |trace| ==> Safe(old(Now()), trace[k])
      ensures Safe(old(Now()), Now())
      ensures forall m :: m in picked ==> m in names && Complete(old(incoming), m)
      ensures forall m :: Complete(old(incoming), m) && !Complete(incoming, m) ==>
              m in picked && Holds(active, old(incoming), m)
      ensures (faults == old(faults) && Tame(old(Now())) && forall n :: n in old(incoming) ==> n in names) ==>
              Now() == Target(old(Now()))
      ensures old(trace) <= trace && Now() == Latest(old(Now()), trace[old(|trace|)..])
      ensures ScanCalls(old(Now()), names, seen, trace[old(|trace|)..], stopped, faults - old(faults))
    {
      hide Safe, Tame, Target, Scanning, ScanCalls, Complete, Holds;
      ghost var q0, tr, f0 := Now(), trace, faults;
      ScanBegins(names);
      picked, seen, stopped := {}, 0, false;
      var stop := false;
      var i := 0;
      while i < |names| && !stop
        invariant 0 <= i <= |names| && Scanning(q0, tr, f0, names, i, stop, picked)
        decreases |names| - i
      {
        stop, picked := VisitNext(q0, tr, f0, names, i, picked);
        i := i + 1;
      }
      seen, stopped := i, stop;
      FinishMove(q0, tr, f0, picked, names, i, stop);
    }

    /** The end of the scan. */
    lemma FinishMove(q0: Queues, tr: seq<Queues>, f0: nat, picked: set<string>, names: seq<string>, i: nat, stop: bool)
      requires (stop || i == |names|) && Scanning(q0, tr, f0, names, i, stop, picked)
      ensures tr <= trace && Now() == Latest(q0, trace[|tr|..])
      ensures ScanCalls(q0, names, i, trace[|tr|..], stop, faults - f0)
      ensures forall k :: |tr| <= k < |trace| ==> Safe(q0, trace[k])
      ensures Safe(q0, Now())
      ensures forall m :: m in picked ==> m in names && Complete(q0.incoming, m)
      ensures forall m :: Complete(q0.incoming, m) && !Complete(incoming, m) ==>
              m in picked && Holds(active, q0.incoming, m)
      ensures (faults == f0 && Tame(q0) && forall n :: n in q0.incoming ==> n in names) ==> Now() == Target(q0)
    {
      hide Safe, Tame, Progress, Target;
      Leftovers(q0, Now());
      if faults == f0 && Tame(q0) && forall n :: n in q0.incoming ==> n in names {
        assert names[..i] == names;
        ProgressDone(q0, Now(), names);
      }
    }
  }

  lemma StartSafe(q0: Queues)
    ensures Safe(q0, q0) && (Tame(q0) ==> Progress(q0, q0, []))
  {
  }

  /** An entry that would not be picked up again is complete in active. */
  lemma Leftovers(q0: Queues, q: Queues)
    requires Safe(q0, q)
    ensures forall m :: Complete(q0.incoming, m) && !Complete(q.incoming, m) ==> Holds(q.active, q0.incoming, m)
  {
    forall m | Complete(q0.incoming, m) && !Complete(q.incoming, m) ensures Holds(q.active, q0.incoming, m) {
      assert PairSafe(q0, q, m);
    }
  }
}

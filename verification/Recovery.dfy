/**
 A crash in the middle of a queue move, and the two runs after it: the next move, the cleaning of
 the active queue when the run that follows has succeeded, and the move after that.
 */
module Recovery {
  import opened Queue
  import W = Workspace

  /** The active queue after a run has succeeded. */
  function Cleaned(f: Folder): Folder { W.ScheduleCleaned(f, {}) }

  /** Every meta name in active is that of a file and has its data there. */
  ghost predicate Readable(q: Queues) {
    forall m :: IsMeta(m) && m in q.active ==> !q.active[m].Directory? && DataOf(m) in q.active
  }

  lemma {:induction false} PrivatePair(m: string)
    requires IsMeta(m)
    ensures DataOf(m) != "" && DataOf(m)[0] == m[0] && m != ""
  {
    MetaHasStem(m);
  }

  lemma {:induction false} SafeReadable(q0: Queues, q: Queues)
    requires Safe(q0, q) && Readable(q0)
    ensures Readable(q)
  {
    SafeMeansReadable(q0, q);
    forall m | IsMeta(m) && m in q.active ensures !q.active[m].Directory? {
      if m !in q0.active {
        var n :| Complete(q0.incoming, n) && (m == n || m == DataOf(n));
        PairsDisjoint(n, m);
        assert PairSafe(q0, q, m);
      }
    }
  }

  lemma {:induction false} TargetReadable(q: Queues)
    requires Readable(q)
    ensures Readable(Target(q))
  {
    forall m | IsMeta(m) && m in Target(q).active
      ensures !Target(q).active[m].Directory? && DataOf(m) in Target(q).active
    {
      TargetEntry(q, m);
    }
  }

  /**
   If every meta file that was active had its data, no name is in the way of the moves after the
   crash: neither of the next one, nor of the one after the cleaning.
   */
  lemma {:induction false} MovesUndisturbed(q0: Queues, q: Queues, incoming: Folder)
    requires Safe(q0, q) && Readable(q0)
    ensures Tame(q) && Tame(Queues(incoming, Cleaned(Target(q).active)))
  {
    SafeReadable(q0, q);
    TargetReadable(q);
    forall m | IsMeta(m) && m in Cleaned(Target(q).active)
      ensures DataOf(m) in Cleaned(Target(q).active)
    {
      PrivatePair(m);
    }
  }

  /** A file of an entry belongs to that entry only. */
  lemma {:induction false} PartIsOwn(q: Queues, m: string)
    requires IsMeta(m)
    ensures PartOfFree(q, m) <==> Free(q, m)
    ensures PartOfFree(q, DataOf(m)) <==> Free(q, m)
  {
    hide IsMeta, DataOf;
    if n :| Free(q, n) && (m == n || m == DataOf(n)) { PairsDisjoint(n, m); }
    if n :| Free(q, n) && (DataOf(m) == n || DataOf(m) == DataOf(n)) {
      PairsDisjoint(n, m);
      PairsDisjoint(m, n);
    }
  }

  /** What an undisturbed move does to one entry. */
  lemma {:induction false} TargetEntry(q: Queues, m: string)
    requires IsMeta(m)
    ensures var t, d := Target(q), DataOf(m);
            if Free(q, m) then
              && m !in t.incoming && d !in t.incoming && d in t.active && t.active[d] == q.incoming[d]
              && m in t.active && t.active[m] == (if m in q.active then q.active[m] else q.incoming[m])
            else
              && (m in t.incoming <==> m in q.incoming) && (m in q.incoming ==> t.incoming[m] == q.incoming[m])
              && (d in t.incoming <==> d in q.incoming) && (d in q.incoming ==> t.incoming[d] == q.incoming[d])
              && (m in t.active <==> m in q.active) && (m in q.active ==> t.active[m] == q.active[m])
              && (d in t.active <==> d in q.active) && (d in q.active ==> t.active[d] == q.active[d])
  {
    hide IsMeta, DataOf, PartOfFree;
    PartIsOwn(q, m);
  }

  /** The crash came between the two links: the data is active, the meta file is not. */
  ghost predicate HalfLinked(q: Queues, m: string)
    requires IsMeta(m)
  {
    DataOf(m) in q.active && m !in q.active
  }

  /** The crash came after the links and before the source was touched. */
  ghost predicate StillInBoth(q: Queues, m: string) { Complete(q.incoming, m) && m in q.active }

  /** Where an entry is in a state that a move may have been left in. */
  lemma {:induction false} Whereabouts(q0: Queues, q: Queues, m: string)
    requires Safe(q0, q) && Complete(q0.incoming, m) && m !in q0.active && DataOf(m) !in q0.active
    ensures m in q.active ==> Holds(q.active, q0.incoming, m)
    ensures DataOf(m) in q.active ==> q.active[DataOf(m)] == q0.incoming[DataOf(m)]
    ensures m !in q.active ==> Holds(q.incoming, q0.incoming, m)
    ensures Complete(q.incoming, m) ==> Holds(q.incoming, q0.incoming, m)
  {
    assert PairSafe(q0, q, m);
    hide IsMeta, DataOf;
  }

  /** The entry is ready for the processes of a run, and its files are those that were once moved. */
  ghost predicate Delivered(q: Queues, q0: Queues, m: string)
    requires Complete(q0.incoming, m)
  {
    Holds(q.active, q0.incoming, m)
  }

  /** The state of the queue when the next but one run begins; incoming may have gained other entries. */
  ghost predicate Later(q: Queues, q2: Queues, m: string)
    requires IsMeta(m)
  {
    && q2.active == Cleaned(Target(q).active)
    && (forall n :: n == m || n == DataOf(m) ==>
          (n in q2.incoming <==> n in Target(q).incoming)
            && (n in q2.incoming ==> q2.incoming[n] == Target(q).incoming[n]))
  }

  lemma {:induction false} GoneAfterCleaning(f: Folder, q0: Queues, m: string)
    requires Complete(q0.incoming, m) && !W.Private(m)
    requires m in f ==> f[m] == q0.incoming[m]
    requires DataOf(m) in f ==> f[DataOf(m)] == q0.incoming[DataOf(m)]
    ensures m !in Cleaned(f) && DataOf(m) !in Cleaned(f)
  {
    PrivatePair(m);
    hide IsMeta, DataOf;
  }

  /**
   Wherever the daemon dies in a move, an entry is processed: by the run after the next move,
   unless the crash came between its two links, and then by the run after that; and it is
   processed by both, exactly if the crash came after the links and before its source was dropped.
   */
  lemma {:induction false} DeliveredAfterCrash(q0: Queues, q: Queues, q2: Queues, m: string)
    requires Safe(q0, q) && Complete(q0.incoming, m) && m !in q0.active && DataOf(m) !in q0.active
    requires !W.Private(m) && Later(q, q2, m)
    ensures Delivered(Target(q), q0, m) <==> !HalfLinked(q, m)
    ensures Delivered(Target(q2), q0, m) <==> HalfLinked(q, m) || StillInBoth(q, m)
    ensures Delivered(Target(q), q0, m) || Delivered(Target(q2), q0, m)
    ensures !Complete(Target(q2).incoming, m)
  {
    hide IsMeta, DataOf, Target;
    Whereabouts(q0, q, m);
    TargetEntry(q, m);
    GoneAfterCleaning(Target(q).active, q0, m);
    TargetEntry(q2, m);
  }
}

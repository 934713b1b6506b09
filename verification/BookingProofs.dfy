/** Every interleaving of the statement machine keeps its invariant and refines the atomic
    bookings and cancellations of ScheduleModel. */
module BookingProofs {
  import opened Prelude
  import opened ScheduleModel
  import opened BookingTransactions

  /** tx asks for no lock that another transaction holds. */
  ghost predicate NoConflict(c: Machine, t: Id, tx: Tx)
    requires t in c.txs
  {
    && (SlotLock(tx).None? || SlotLock(tx) == SlotLock(c.txs[t])
        || forall u | u in c.txs && u != t :: SlotLock(c.txs[u]) != SlotLock(tx))
    && (LessonLock(tx).None? || LessonLock(tx) == LessonLock(c.txs[t])
        || forall u | u in c.txs && u != t :: LessonLock(c.txs[u]) != LessonLock(tx))
  }

  lemma LocksStayExclusive(c: Machine, t: Id, tx: Tx)
    requires LocksExclusive(c) && t in c.txs && NoConflict(c, t, tx)
    ensures LocksExclusive(Enter(c, t, tx))
  {
  }

  lemma PhaseBookings(cfg: Config, c: Machine, t: Id, tx: Tx)
    requires BookingsOk(cfg, c) && t in c.txs && tx.job == c.txs[t].job
    requires tx.job.Book? ==> BookOk(cfg, c, tx)
    ensures BookingsOk(cfg, Enter(c, t, tx))
  {
    var c' := Enter(c, t, tx);
    forall u | u in c'.txs && c'.txs[u].job.Book?
      ensures BookOk(cfg, c', c'.txs[u])
    {
      if u != t { assert BookOk(cfg, c, c.txs[u]); }
    }
  }

  /** A transaction moves on and touches no committed row. */
  lemma PhaseStep(cfg: Config, c: Machine, t: Id, tx: Tx)
    requires Inv(cfg, c) && t in c.txs && tx.job == c.txs[t].job && NoConflict(c, t, tx)
    requires tx.job.Book? ==> BookOk(cfg, c, tx)
    requires SeenOk(c, tx)
    ensures Inv(cfg, Enter(c, t, tx))
  {
    LocksStayExclusive(c, t, tx);
    PhaseBookings(cfg, c, t, tx);
    assert forall u :: u in c.txs ==> SeenOk(c, c.txs[u]);
  }

  /** Committed rows change: no slot some other transaction has locked, and lessons keep
      their slots. */
  ghost predicate Respects(c: Machine, db: Tables, t: Id) {
    && (forall u | u in c.txs && u != t && c.txs[u].job.Book? && InTransaction(c.txs[u]) ::
          var s := c.txs[u].job.row.slot;
          (s in c.db.slots ==> s in db.slots && db.slots[s].isBooked == c.db.slots[s].isBooked)
          && (Referenced(db, s) ==> Referenced(c.db, s)))
    && (forall l :: l in c.db.lessons ==> l in db.lessons && db.lessons[l].slot == c.db.lessons[l].slot)
  }

  ghost predicate Adds(c: Machine, db: Tables, t: Id)
    requires t in c.txs
  {
    forall l :: l in db.lessons && l !in c.db.lessons ==> c.txs[t].job.Book? && l == c.txs[t].job.lesson
  }

  lemma CommitBookings(cfg: Config, c: Machine, t: Id, db: Tables, log: seq<Event>)
    requires Inv(cfg, c) && t in c.txs && Respects(c, db, t) && Adds(c, db, t)
    ensures BookingsOk(cfg, End(c, t, true).(db := db, log := log))
  {
    var c' := End(c, t, true).(db := db, log := log);
    forall u | u in c'.txs && c'.txs[u].job.Book?
      ensures BookOk(cfg, c', c'.txs[u])
    {
      assert BookOk(cfg, c, c.txs[u]);
    }
  }

  /** Transaction t ends and its writes become the committed rows. */
  lemma CommitStep(cfg: Config, c: Machine, t: Id, db: Tables, log: seq<Event>)
    requires Inv(cfg, c) && t in c.txs && Respects(c, db, t) && Adds(c, db, t)
    requires LogOk(c.(db := db, log := log))
    ensures Inv(cfg, End(c, t, true).(db := db, log := log))
  {
    var c' := End(c, t, true).(db := db, log := log);
    CommitBookings(cfg, c, t, db, log);
    LocksStayExclusive(c, t, c'.txs[t]);
    assert LocksExclusive(c');
    forall u | u in c'.txs
      ensures SeenOk(c', c'.txs[u])
    {
      assert SeenOk(c, c.txs[u]);
    }
    if c.txs[t].job.Book? { assert BookOk(cfg, c, c.txs[t]); }
  }

  /** A statement outside any transaction. */
  lemma AutoStep(cfg: Config, c: Machine, db: Tables)
    requires Inv(cfg, c)
    requires forall t :: Respects(c, db, t)
    requires db.lessons.Keys == c.db.lessons.Keys
    requires LogOk(c.(db := db))
    ensures Inv(cfg, c.(db := db))
  {
    var c' := c.(db := db);
    forall u | u in c'.txs && c'.txs[u].job.Book?
      ensures BookOk(cfg, c', c'.txs[u])
    {
      assert BookOk(cfg, c, c.txs[u]);
      assert Respects(c, db, u + 1);
    }
    forall u | u in c'.txs
      ensures SeenOk(c', c'.txs[u])
    {
      assert SeenOk(c, c.txs[u]);
      assert Respects(c, db, u);
    }
  }

  lemma NobodyHolds(c: Machine, t: Id)
    requires t in c.txs && !Waits(c, t)
    ensures WantsSlot(c.txs[t]).Some? ==> forall u | u in c.txs && u != t :: SlotLock(c.txs[u]) != WantsSlot(c.txs[t])
    ensures WantsLesson(c.txs[t]).Some? ==>
            forall u | u in c.txs && u != t :: LessonLock(c.txs[u]) != WantsLesson(c.txs[t])
  {
    forall u | u in c.txs && u != t
      ensures !WaitsFor(c, t, u)
    {
    }
  }

  /** The heart of the matter: a committing booking finds its slot present and free in the
      committed rows, so its statements together are the atomic booking. */
  lemma BookCommitIsAtomic(cfg: Config, c: Machine, t: Id)
    requires Inv(cfg, c) && cfg.lockedCheck
    requires t in c.txs && c.txs[t].job.Book? && c.txs[t].phase.Third?
    ensures var job := c.txs[t].job;
            BookAtomic(cfg.schema, c.db, job.lesson, job.row) == Ok(DoBook(cfg, c, t).db)
    ensures !LastBooks(c.log, c.txs[t].job.row.slot)
  {
    assert BookOk(cfg, c, c.txs[t]);
    var slot := c.txs[t].job.row.slot;
    assert Referenced(SetBooked(c.db, slot, true), slot) ==> Referenced(c.db, slot);
  }

  lemma BookKeepsInv(cfg: Config, c: Machine, t: Id)
    requires Inv(cfg, c) && cfg.lockedCheck
    requires t in c.txs && c.txs[t].job.Book? && !Waits(c, t)
    ensures Inv(cfg, DoBook(cfg, c, t))
  {
    var tx := c.txs[t];
    assert BookOk(cfg, c, tx);
    var c' := DoBook(cfg, c, t);
    if tx.phase.Third? {
      BookCommitIsAtomic(cfg, c, t);
      BookCommitRespects(cfg, c, t);
      assert c' == End(c, t, true).(db := c'.db, log := c'.log);
      LogGrows(c, c'.db, SlotBooked(tx.job.row.slot, tx.job.lesson));
      CommitStep(cfg, c, t, c'.db, c'.log);
    } else if !tx.phase.Done? {
      NobodyHolds(c, t);
      if tx.phase.Second? { InsertPasses(cfg, c, t); }
      PhaseStep(cfg, c, t, c'.txs[t]);
    }
  }

  lemma InsertPasses(cfg: Config, c: Machine, t: Id)
    requires t in c.txs && c.txs[t].job.Book? && c.txs[t].phase.Second?
    ensures var row := c.txs[t].job.row;
            DoBook(cfg, c, t).txs[t].phase.Third? && cfg.schema.uniqueSlot ==> !Referenced(c.db, row.slot)
  {
    var row := c.txs[t].job.row;
    assert Referenced(c.db, row.slot) ==> Referenced(SetBooked(c.db, row.slot, true), row.slot);
  }

  lemma BookCommitRespects(cfg: Config, c: Machine, t: Id)
    requires Inv(cfg, c)
    requires t in c.txs && c.txs[t].job.Book? && c.txs[t].phase.Third?
    ensures Respects(c, DoBook(cfg, c, t).db, t)
  {
    var tx := c.txs[t];
    assert BookOk(cfg, c, tx);
    var db := DoBook(cfg, c, t).db;
    forall u | u in c.txs && u != t && c.txs[u].job.Book? && InTransaction(c.txs[u])
      ensures var s := c.txs[u].job.row.slot;
              (s in c.db.slots ==> s in db.slots && db.slots[s].isBooked == c.db.slots[s].isBooked)
              && (Referenced(db, s) ==> Referenced(c.db, s))
    {
      assert SlotLock(c.txs[u]) != SlotLock(tx);
      var s := c.txs[u].job.row.slot;
      if Referenced(db, s) {
        var l :| l in db.lessons && db.lessons[l].slot == s;
        assert l != tx.job.lesson;
        assert c.db.lessons[l].slot == s;
      }
    }
  }

  /** The committed rows flip one slot's flag and the log records it. */
  lemma LogGrows(c: Machine, db: Tables, e: Event)
    requires LogOk(c)
    requires db.slots.Keys == c.db.slots.Keys && e.slot in c.issued
    requires forall s :: s in db.slots ==>
             db.slots[s].isBooked == if s == e.slot then e.SlotBooked? else c.db.slots[s].isBooked
    ensures LogOk(c.(db := db, log := c.log + [e]))
  {
    assert (c.log + [e])[..|c.log|] == c.log;
    assert forall x :: x in c.log + [e] ==> x in c.log || x == e;
  }

  lemma CancelKeepsInv(cfg: Config, c: Machine, t: Id)
    requires Inv(cfg, c)
    requires t in c.txs && c.txs[t].job.Cancel? && !Waits(c, t)
    ensures Inv(cfg, DoCancel(c, t))
  {
    var tx := c.txs[t];
    assert SeenOk(c, tx);
    var c' := DoCancel(c, t);
    if tx.phase.Second? {
      CancelCommitRespects(cfg, c, t);
      assert c' == End(c, t, true).(db := c'.db, log := c'.log);
      LogGrows(c, c'.db, SlotFreed(tx.seen.value.slot));
      CommitStep(cfg, c, t, c'.db, c'.log);
    } else if tx.phase.Fresh? || tx.phase.Ready? || tx.phase.First? {
      NobodyHolds(c, t);
      PhaseStep(cfg, c, t, c'.txs[t]);
    }
  }

  lemma CancelCommitRespects(cfg: Config, c: Machine, t: Id)
    requires Inv(cfg, c)
    requires t in c.txs && c.txs[t].job.Cancel? && c.txs[t].phase.Second?
    ensures Respects(c, DoCancel(c, t).db, t)
  {
    var tx := c.txs[t];
    assert SeenOk(c, tx);
    var db := DoCancel(c, t).db;
    assert forall l :: l in db.lessons ==> l in c.db.lessons && db.lessons[l].slot == c.db.lessons[l].slot;
    forall u | u in c.txs && u != t && c.txs[u].job.Book? && InTransaction(c.txs[u])
      ensures var s := c.txs[u].job.row.slot;
              s in c.db.slots ==> s in db.slots && db.slots[s].isBooked == c.db.slots[s].isBooked
    {
      assert SlotLock(c.txs[u]) != SlotLock(tx);
    }
  }

  lemma SlotKeepsInv(cfg: Config, c: Machine, t: Id)
    requires Inv(cfg, c)
    requires t in c.txs && (c.txs[t].job.Delete? || c.txs[t].job.Move?) && !Waits(c, t)
    ensures Inv(cfg, DoSlot(cfg, c, t))
  {
    var tx := c.txs[t];
    var c' := DoSlot(cfg, c, t);
    if tx.phase.Ready? {
      NobodyHolds(c, t);
      if c'.db == c.db {
        assert c' == Enter(c, t, c'.txs[t]);
        PhaseStep(cfg, c, t, c'.txs[t]);
      } else {
        assert c' == End(c, t, true).(db := c'.db, log := c.log);
        assert Respects(c, c'.db, t) by {
          forall u | u in c.txs && u != t && c.txs[u].job.Book? && InTransaction(c.txs[u])
            ensures c.txs[u].job.row.slot != tx.job.slot
          {
            assert SlotLock(c.txs[u]) != Some(tx.job.slot);
          }
        }
        CommitStep(cfg, c, t, c'.db, c.log);
      }
    } else if tx.phase.Fresh? {
      PhaseStep(cfg, c, t, c'.txs[t]);
    }
  }

  lemma EditKeepsInv(cfg: Config, c: Machine, t: Id)
    requires Inv(cfg, c)
    requires t in c.txs && c.txs[t].job.Edit?
    ensures Inv(cfg, DoEdit(c, t))
  {
    var tx := c.txs[t];
    var c' := DoEdit(c, t);
    if tx.phase.Ready? && tx.seen.Some? && tx.job.lesson in c.db.lessons {
      assert c' == End(c, t, true).(db := c'.db, log := c.log);
      LessonRowsRespect(cfg, c, c'.db, t);
      CommitStep(cfg, c, t, c'.db, c.log);
    } else if c' != c {
      assert c' == Enter(c, t, c'.txs[t]);
      PhaseStep(cfg, c, t, c'.txs[t]);
    }
  }

  /** A statement that rewrites lesson rows, not their slot ids, disturbs nobody. */
  lemma LessonRowsRespect(cfg: Config, c: Machine, db: Tables, t: Id)
    requires db.slots == c.db.slots && db.lessons.Keys == c.db.lessons.Keys
    requires forall l :: l in db.lessons ==> db.lessons[l].slot == c.db.lessons[l].slot
    ensures Respects(c, db, t)
  {
  }

  lemma BeginBookings(cfg: Config, c: Machine, t: Id, job: Job)
    requires Inv(cfg, c)
    ensures BookingsOk(cfg, Step(cfg, c, Begin(t, job)))
  {
    var c' := Step(cfg, c, Begin(t, job));
    forall u | u in c'.txs && c'.txs[u].job.Book? && c' != c
      ensures BookOk(cfg, c', c'.txs[u])
      ensures u != t ==> c'.txs[u].job.lesson in c.issued
    {
      if u != t { assert BookOk(cfg, c, c.txs[u]); }
    }
  }

  lemma BeginLocks(cfg: Config, c: Machine, t: Id, job: Job)
    requires LocksExclusive(c)
    ensures LocksExclusive(Step(cfg, c, Begin(t, job)))
  {
    assert SlotLock(Tx(job, Fresh, None)).None? && LessonLock(Tx(job, Fresh, None)).None?;
  }

  lemma BeginKeepsInv(cfg: Config, c: Machine, t: Id, job: Job)
    requires Inv(cfg, c)
    ensures Inv(cfg, Step(cfg, c, Begin(t, job)))
  {
    var c' := Step(cfg, c, Begin(t, job));
    if c' != c {
      BeginBookings(cfg, c, t, job);
      BeginLocks(cfg, c, t, job);
      assert forall u :: u in c.txs ==> SeenOk(c, c.txs[u]);
    }
  }

  lemma PublishBookings(cfg: Config, c: Machine, id: Id, slot: Slot)
    requires Inv(cfg, c)
    ensures BookingsOk(cfg, Step(cfg, c, Publish(id, slot)))
  {
    var c' := Step(cfg, c, Publish(id, slot));
    forall u | u in c.txs && c.txs[u].job.Book?
      ensures BookOk(cfg, c', c.txs[u])
    {
      assert BookOk(cfg, c, c.txs[u]);
    }
  }

  lemma PublishKeepsInv(cfg: Config, c: Machine, id: Id, slot: Slot)
    requires Inv(cfg, c)
    ensures Inv(cfg, Step(cfg, c, Publish(id, slot)))
  {
    PublishBookings(cfg, c, id, slot);
    assert forall u :: u in c.txs ==> SeenOk(c, c.txs[u]);
    if id !in c.issued { NoEventsYet(c.log, c.issued, id); }
  }

  lemma {:induction false} NoEventsYet(log: seq<Event>, issued: set<Id>, slot: Id)
    requires (forall e :: e in log ==> e.slot in issued) && slot !in issued
    ensures !LastBooks(log, slot)
  {
    if log != [] {
      assert log[|log| - 1] in log;
      NoEventsYet(log[..|log| - 1], issued, slot);
    }
  }

  lemma RowKeepsInv(cfg: Config, c: Machine, a: Action)
    requires Inv(cfg, c) && (a.Pay? || a.Sweep?)
    ensures Inv(cfg, Step(cfg, c, a))
  {
    var c' := Step(cfg, c, a);
    if c' != c {
      forall t { LessonRowsRespect(cfg, c, c'.db, t); }
      AutoStep(cfg, c, c'.db);
    }
  }

  lemma StepKeepsInv(cfg: Config, c: Machine, a: Action)
    requires cfg.lockedCheck && Inv(cfg, c)
    ensures Inv(cfg, Step(cfg, c, a))
  {
    match a
    case Publish(id, slot) => PublishKeepsInv(cfg, c, id, slot);
    case Begin(t, job) => BeginKeepsInv(cfg, c, t, job);
    case Do(t) =>
      if t in c.txs && !Waits(c, t) {
        match c.txs[t].job
        case Book(_, _) => BookKeepsInv(cfg, c, t);
        case Cancel(_, _) => CancelKeepsInv(cfg, c, t);
        case Edit(_, _, _, _, _) => EditKeepsInv(cfg, c, t);
        case _ => SlotKeepsInv(cfg, c, t);
      }
    case Fail(t) =>
      if t in c.txs && !c.txs[t].phase.Done? { PhaseStep(cfg, c, t, c.txs[t].(phase := Done(false))); }
    case Pay(_) => RowKeepsInv(cfg, c, a);
    case Sweep(_, _) => RowKeepsInv(cfg, c, a);
  }

  lemma {:induction false} RunKeepsInv(cfg: Config, run: seq<Action>)
    requires cfg.lockedCheck
    ensures Inv(cfg, Interleave(cfg, run))
  {
    if run != [] {
      RunKeepsInv(cfg, run[..|run| - 1]);
      StepKeepsInv(cfg, Interleave(cfg, run[..|run| - 1]), run[|run| - 1]);
    }
  }
}

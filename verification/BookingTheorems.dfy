/** What every interleaving of bookings, cancellations and slot edits guarantees. */
module BookingTheorems {
  import opened Prelude
  import opened ScheduleModel
  import opened BookedFlag
  import opened BookingTransactions
  import opened BookingProofs

  // ---------------------------------------------------------------- refinement

  /** One step of the atomic system: nothing, or one whole transaction or statement. */
  ghost predicate AtomicStep(schema: Schema, t: Tables, t': Tables, events: seq<Event>) {
    || (t' == t && events == [])
    || (exists id, lesson :: BookAtomic(schema, t, id, lesson) == Ok(t') && events == [SlotBooked(lesson.slot, id)])
    || (exists id, slot, at :: t' == CancelAtomic(t, id, slot, at) && id in t.lessons && t.lessons[id].slot == slot
                               && events == [SlotFreed(slot)])
    || (events == [] && SingleStatement(schema, t, t'))
  }

  /** A statement that commits on its own; none of them touches is_booked of a slot it keeps. */
  ghost predicate SingleStatement(schema: Schema, t: Tables, t': Tables) {
    || (exists id, slot: Slot :: InsertSlot(schema, t, id, slot) == Ok(t') && !slot.isBooked)
    || (exists id, a, b, at :: MoveSlot(schema, t, id, a, b, at) == Ok(t'))
    || (exists id :: RemoveSlot(schema, t, id) == Ok(t'))
    || (exists id, lesson :: WriteLesson(t, id, lesson) == Ok(t'))
    || (exists id :: SetPaid(t, id) == Ok(t'))
    || (exists id, at :: id in t.lessons && Finished(t, id, at) && t' == SetStatus(t, id, Completed, at))
  }

  /** Every step of every interleaving is one atomic step of the committed rows, and a
      transaction that dies leaves them as they were. */
  lemma StepRefinesAtomic(cfg: Config, c: Machine, a: Action)
    requires cfg.lockedCheck && Inv(cfg, c)
    ensures var c' := Step(cfg, c, a);
            && |c.log| <= |c'.log| && c'.log[..|c.log|] == c.log
            && AtomicStep(cfg.schema, c.db, c'.db, c'.log[|c.log|..])
            && (a.Fail? ==> c'.db == c.db)
  {
    var c' := Step(cfg, c, a);
    if a.Do? && a.t in c.txs && !Waits(c, a.t) {
      var tx := c.txs[a.t];
      if tx.job.Book? && tx.phase.Third? {
        BookCommitIsAtomic(cfg, c, a.t);
        assert c'.log[|c.log|..] == [SlotBooked(tx.job.row.slot, tx.job.lesson)];
      } else if tx.job.Cancel? && tx.phase.Second? {
        assert SeenOk(c, tx);
        assert c'.log[|c.log|..] == [SlotFreed(tx.seen.value.slot)];
      } else {
        assert c'.log == c.log && c'.log[|c.log|..] == [];
        assert c'.db == c.db || SingleStatement(cfg.schema, c.db, c'.db);
      }
    } else {
      assert c'.log == c.log && c'.log[|c.log|..] == [];
      assert c'.db == c.db || SingleStatement(cfg.schema, c.db, c'.db);
    }
  }

  /** Lifted to runs: the committed rows of an interleaving pass through atomic steps only. */
  lemma RunRefinesAtomic(cfg: Config, run: seq<Action>, i: nat)
    requires cfg.lockedCheck && i < |run|
    ensures var c := Interleave(cfg, run[..i]); var c' := Interleave(cfg, run[..i + 1]);
            && |c.log| <= |c'.log| && c'.log[..|c.log|] == c.log
            && AtomicStep(cfg.schema, c.db, c'.db, c'.log[|c.log|..])
  {
    assert run[..i + 1][..i] == run[..i];
    RunKeepsInv(cfg, run[..i]);
    StepRefinesAtomic(cfg, Interleave(cfg, run[..i]), run[i]);
  }

  /** Exactly the bookings that committed have stored their lesson and left their event. */
  ghost predicate BookedOnce(c: Machine) {
    forall t | t in c.txs && c.txs[t].job.Book? ::
      var job, committed := c.txs[t].job, c.txs[t].phase == Done(true);
      && (job.lesson in c.db.lessons <==> committed)
      && (SlotBooked(job.row.slot, job.lesson) in c.log <==> committed)
  }

  ghost predicate LoggedIssued(c: Machine) {
    forall e :: e in c.log && e.SlotBooked? ==> e.lesson in c.issued
  }

  /** No lesson stored, no booking logged, and nobody's outcome as a booking settled as
      committed. */
  ghost predicate Quiet(c: Machine, c': Machine) {
    && c'.db.lessons.Keys == c.db.lessons.Keys && c.issued <= c'.issued
    && (forall e :: e in c'.log && e.SlotBooked? <==> e in c.log && e.SlotBooked?)
    && (forall t :: t in c.txs ==> t in c'.txs)
    && (forall t | t in c'.txs && c'.txs[t].job.Book? ::
          if t in c.txs then
            c'.txs[t].job == c.txs[t].job && (c'.txs[t].phase == Done(true) <==> c.txs[t].phase == Done(true))
          else !c'.txs[t].phase.Done? && c'.txs[t].job.lesson !in c.issued)
  }

  lemma QuietBook(cfg: Config, c: Machine, t: Id)
    requires t in c.txs && c.txs[t].job.Book? && !c.txs[t].phase.Third?
    ensures Quiet(c, DoBook(cfg, c, t))
  {
  }

  lemma QuietCancel(c: Machine, t: Id)
    requires t in c.txs && c.txs[t].job.Cancel?
    ensures Quiet(c, DoCancel(c, t))
  {
  }

  lemma QuietEdit(c: Machine, t: Id)
    requires t in c.txs && c.txs[t].job.Edit?
    ensures Quiet(c, DoEdit(c, t))
  {
  }

  lemma QuietSlot(cfg: Config, c: Machine, t: Id)
    requires t in c.txs && (c.txs[t].job.Delete? || c.txs[t].job.Move?)
    ensures Quiet(c, DoSlot(cfg, c, t))
  {
  }

  lemma QuietDo(cfg: Config, c: Machine, t: Id)
    requires t in c.txs && !(c.txs[t].job.Book? && c.txs[t].phase.Third?)
    ensures Quiet(c, Step(cfg, c, Do(t)))
  {
    match c.txs[t].job
    case Book(_, _) => QuietBook(cfg, c, t);
    case Cancel(_, _) => QuietCancel(c, t);
    case Edit(_, _, _, _, _) => QuietEdit(c, t);
    case _ => QuietSlot(cfg, c, t);
  }

  lemma QuietOther(cfg: Config, c: Machine, a: Action)
    requires !a.Do?
    ensures Quiet(c, Step(cfg, c, a))
  {
  }

  lemma BookCommitOnce(cfg: Config, c: Machine, t: Id)
    requires cfg.lockedCheck && Inv(cfg, c) && BookedOnce(c) && LoggedIssued(c)
    requires t in c.txs && c.txs[t].job.Book? && c.txs[t].phase.Third?
    ensures BookedOnce(DoBook(cfg, c, t)) && LoggedIssued(DoBook(cfg, c, t))
  {
    var c' := DoBook(cfg, c, t);
    assert BookOk(cfg, c, c.txs[t]);
    assert c'.log == c.log + [SlotBooked(c.txs[t].job.row.slot, c.txs[t].job.lesson)];
    assert c'.db.lessons.Keys == c.db.lessons.Keys + {c.txs[t].job.lesson};
  }

  lemma StepBooksOnce(cfg: Config, c: Machine, a: Action)
    requires cfg.lockedCheck && Inv(cfg, c) && BookedOnce(c) && LoggedIssued(c)
    ensures BookedOnce(Step(cfg, c, a)) && LoggedIssued(Step(cfg, c, a))
  {
    if a.Do? && a.t in c.txs && c.txs[a.t].job.Book? && c.txs[a.t].phase.Third? {
      BookCommitOnce(cfg, c, a.t);
    } else {
      if a.Do? && a.t in c.txs { QuietDo(cfg, c, a.t); }
      if !a.Do? { QuietOther(cfg, c, a); }
    }
  }

  lemma {:induction false} RunBooksOnce(cfg: Config, run: seq<Action>)
    requires cfg.lockedCheck
    ensures BookedOnce(Interleave(cfg, run)) && LoggedIssued(Interleave(cfg, run))
  {
    if run != [] {
      var before := run[..|run| - 1];
      RunBooksOnce(cfg, before);
      RunKeepsInv(cfg, before);
      StepBooksOnce(cfg, Interleave(cfg, before), run[|run| - 1]);
    }
  }

  // --------------------------------------------------------------- alternation

  /** A booking is logged only when the slot's latest event is not a booking. */
  ghost predicate BooksOnlyFree(log: seq<Event>) {
    forall i :: 0 <= i < |log| && log[i].SlotBooked? ==> !LastBooks(log[..i], log[i].slot)
  }

  lemma StepBooksOnlyFree(cfg: Config, c: Machine, a: Action)
    requires cfg.lockedCheck && Inv(cfg, c) && BooksOnlyFree(c.log)
    ensures BooksOnlyFree(Step(cfg, c, a).log)
  {
    var c' := Step(cfg, c, a);
    StepRefinesAtomic(cfg, c, a);
    if c'.log != c.log {
      var tx := c.txs[a.t];
      if tx.job.Book? { BookCommitIsAtomic(cfg, c, a.t); }
      assert |c'.log| == |c.log| + 1;
      forall i | 0 <= i < |c'.log| && c'.log[i].SlotBooked?
        ensures !LastBooks(c'.log[..i], c'.log[i].slot)
      {
        assert c'.log[..|c.log|] == c.log;
        if i < |c.log| { assert c'.log[..i] == c.log[..i] && c'.log[i] == c.log[i]; }
      }
    }
  }

  /** A log in which slot's latest event before j is no booking has a freeing after any
      booking of it before j. */
  lemma {:induction false} FreedSince(log: seq<Event>, i: nat, j: nat)
    requires i < j <= |log| && log[i].SlotBooked? && !LastBooks(log[..j], log[i].slot)
    ensures exists k :: i < k < j && log[k] == SlotFreed(log[i].slot)
    decreases j
  {
    var prefix := log[..j];
    assert prefix[|prefix| - 1] == log[j - 1] && prefix[..|prefix| - 1] == log[..j - 1];
    if log[j - 1].slot != log[i].slot {
      FreedSince(log, i, j - 1);
    }
  }

  lemma {:induction false} RunBooksOnlyFree(cfg: Config, run: seq<Action>)
    requires cfg.lockedCheck
    ensures BooksOnlyFree(Interleave(cfg, run).log)
  {
    if run != [] {
      var before := run[..|run| - 1];
      RunBooksOnlyFree(cfg, before);
      RunKeepsInv(cfg, before);
      StepBooksOnlyFree(cfg, Interleave(cfg, before), run[|run| - 1]);
    }
  }

  /** Between two committed bookings of a slot lies a committed freeing of it, in every
      interleaving, with or without CreateLesson's early check and whatever the schema. */
  lemma RunAlternates(cfg: Config, run: seq<Action>, i: nat, j: nat)
    requires cfg.lockedCheck
    requires var log := Interleave(cfg, run).log;
             i < j < |log| && log[i].SlotBooked? && log[j].SlotBooked? && log[i].slot == log[j].slot
    ensures var log := Interleave(cfg, run).log;
            exists k :: i < k < j && log[k] == SlotFreed(log[i].slot)
  {
    var log := Interleave(cfg, run).log;
    RunBooksOnlyFree(cfg, run);
    FreedSince(log, i, j);
  }

  // ----------------------------------------------------------------- isolation

  /** u is a booking of slot s past its SELECT ... FOR UPDATE, or a cancellation that has
      written slot s, and has not ended. */
  predicate HasSlot(c: Machine, u: Id, s: Id) {
    && u in c.txs
    && (|| (c.txs[u].job.Book? && !c.txs[u].phase.Fresh? && !c.txs[u].phase.Ready? && !c.txs[u].phase.Done?
            && c.txs[u].job.row.slot == s)
        || (c.txs[u].job.Cancel? && c.txs[u].phase.Second? && c.txs[u].seen.Some? && c.txs[u].seen.value.slot == s))
  }

  /** u is a cancellation that has written lesson l and has not ended. */
  predicate HasLesson(c: Machine, u: Id, l: Id) {
    && u in c.txs && c.txs[u].job.Cancel? && c.txs[u].job.lesson == l
    && (c.txs[u].phase.First? || c.txs[u].phase.Second?)
  }

  predicate SameSlotRow(t: Tables, t': Tables, s: Id) {
    (s in t.slots <==> s in t'.slots) && (s in t.slots ==> t'.slots[s] == t.slots[s])
  }

  lemma {:induction false} StepKeepsLockedSlot(cfg: Config, c: Machine, a: Action, u: Id, s: Id)
    requires cfg.lockedCheck && Inv(cfg, c) && HasSlot(c, u, s) && a != Do(u)
    ensures SameSlotRow(c.db, Step(cfg, c, a).db, s)
  {
    if a.Do? && a.t in c.txs && !Waits(c, a.t) {
      var tx := c.txs[a.t];
      assert SlotLock(c.txs[u]) == Some(s);
      assert WantsSlot(tx) != Some(s);
      assert SlotLock(tx) != Some(s);
      if tx.job.Book? {
        assert BookOk(cfg, c, tx);
      }
    } else if a.Publish? {
      assert SeenOk(c, c.txs[u]);
      if c.txs[u].job.Book? { assert BookOk(cfg, c, c.txs[u]); }
    }
  }

  lemma {:induction false} StepKeepsLockedLesson(cfg: Config, c: Machine, a: Action, u: Id, l: Id)
    requires cfg.lockedCheck && Inv(cfg, c) && HasLesson(c, u, l) && a != Do(u)
    ensures l in c.db.lessons && l in Step(cfg, c, a).db.lessons
    ensures Step(cfg, c, a).db.lessons[l] == c.db.lessons[l]
  {
    assert SeenOk(c, c.txs[u]);
    assert LessonLock(c.txs[u]) == Some(l);
    if a.Do? && a.t in c.txs && !Waits(c, a.t) {
      var tx := c.txs[a.t];
      assert WantsLesson(tx) != Some(l) && LessonLock(tx) != Some(l);
      if tx.job.Book? { assert BookOk(cfg, c, tx); }
    }
  }

  /** A row that a transaction has locked does not change under it, whatever else happens. */
  lemma {:induction false} LockedRowsStay(cfg: Config, run: seq<Action>, a: Action, u: Id, s: Id, l: Id)
    requires cfg.lockedCheck && a != Do(u)
    ensures var c := Interleave(cfg, run);
            && (HasSlot(c, u, s) ==> SameSlotRow(c.db, Step(cfg, c, a).db, s))
            && (HasLesson(c, u, l) ==>
                  && l in c.db.lessons && l in Step(cfg, c, a).db.lessons
                  && Step(cfg, c, a).db.lessons[l] == c.db.lessons[l])
  {
    var c := Interleave(cfg, run);
    RunKeepsInv(cfg, run);
    if HasSlot(c, u, s) { StepKeepsLockedSlot(cfg, c, a, u, s); }
    if HasLesson(c, u, l) { StepKeepsLockedLesson(cfg, c, a, u, l); }
  }

  // ------------------------------------------------------------------ deadlock

  /** How many locks deep a transaction can still be made to wait. */
  function WaitRank(tx: Tx): nat {
    if SlotLock(tx).Some? then 0
    else if LessonLock(tx).Some? then 1
    else 2
  }

  lemma WaitingDescends(cfg: Config, c: Machine, t: Id, u: Id)
    requires Inv(cfg, c) && WaitsFor(c, t, u)
    ensures WaitRank(c.txs[u]) < WaitRank(c.txs[t])
  {
    assert SeenOk(c, c.txs[t]);
  }

  ghost predicate WaitChain(c: Machine, chain: seq<Id>) {
    forall i :: 0 <= i < |chain| - 1 ==> WaitsFor(c, chain[i], chain[i + 1])
  }

  lemma {:induction false} ChainDescends(cfg: Config, c: Machine, chain: seq<Id>, j: nat)
    requires Inv(cfg, c) && WaitChain(c, chain) && 0 < j < |chain|
    ensures chain[0] in c.txs && chain[j] in c.txs
    ensures WaitRank(c.txs[chain[j]]) + j <= WaitRank(c.txs[chain[0]])
  {
    assert WaitsFor(c, chain[j - 1], chain[j]);
    WaitingDescends(cfg, c, chain[j - 1], chain[j]);
    if j > 1 { ChainDescends(cfg, c, chain, j - 1); }
  }

  /** Among handlers no interleaving ever closes a cycle of lock waits, and no chain of waits
      has a third link. */
  lemma RunNeverDeadlocks(cfg: Config, run: seq<Action>, chain: seq<Id>)
    requires cfg.lockedCheck && WaitChain(Interleave(cfg, run), chain)
    ensures |chain| <= 3
    ensures |chain| >= 2 ==> chain[0] != chain[|chain| - 1]
  {
    var c := Interleave(cfg, run);
    RunKeepsInv(cfg, run);
    if |chain| >= 2 { ChainDescends(cfg, c, chain, |chain| - 1); }
  }

  /** As long as some handler is unfinished, some unfinished handler has no lock to wait for. */
  lemma SomebodyCanRun(cfg: Config, c: Machine, t: Id) returns (u: Id)
    requires Inv(cfg, c) && t in c.txs && !c.txs[t].phase.Done?
    ensures u in c.txs && !c.txs[u].phase.Done? && !Waits(c, u)
    decreases WaitRank(c.txs[t])
  {
    if Waits(c, t) {
      var v :| v in c.txs && WaitsFor(c, t, v);
      WaitingDescends(cfg, c, t, v);
      u := SomebodyCanRun(cfg, c, v);
    } else {
      u := t;
    }
  }

  // ------------------------------------------------------- deadlock with the sweep

  /** A sweep in progress: its single UPDATE keeps every lesson row it has changed locked until
      it ends, in whatever order it comes upon them. */
  datatype Sweeper = Sweeper(held: set<Id>, wants: Option<Id>)

  datatype Waiter = Handler(t: Id) | Sweeping(w: Id)

  ghost predicate NodeWaits(c: Machine, sweeps: map<Id, Sweeper>, x: Waiter, y: Waiter) {
    match (x, y)
    case (Handler(t), Handler(u)) => WaitsFor(c, t, u)
    case (Handler(t), Sweeping(v)) =>
      t in c.txs && v in sweeps && WantsLesson(c.txs[t]).Some? && WantsLesson(c.txs[t]).value in sweeps[v].held
    case (Sweeping(v), Handler(u)) =>
      v in sweeps && u in c.txs && sweeps[v].wants.Some? && LessonLock(c.txs[u]) == sweeps[v].wants
    case (Sweeping(v), Sweeping(w)) =>
      v in sweeps && w in sweeps && v != w && sweeps[v].wants.Some? && sweeps[v].wants.value in sweeps[w].held
  }

  /** Whoever waits comes first: handlers without a lock, sweeps, holders of a lesson row,
      holders of a slot row. */
  function NodeRank(c: Machine, x: Waiter): nat {
    match x
    case Handler(t) => if t !in c.txs then 0 else if WaitRank(c.txs[t]) == 2 then 3 else WaitRank(c.txs[t])
    case Sweeping(_) => 2
  }

  lemma {:induction false} NodeDescends(cfg: Config, c: Machine, sweeps: map<Id, Sweeper>, x: Waiter, y: Waiter)
    requires Inv(cfg, c) && NodeWaits(c, sweeps, x, y)
    ensures NodeRank(c, y) < NodeRank(c, x) || (x.Sweeping? && y.Sweeping?)
  {
    if x.Handler? && y.Handler? { WaitingDescends(cfg, c, x.t, y.t); }
  }

  ghost predicate NodeChain(c: Machine, sweeps: map<Id, Sweeper>, chain: seq<Waiter>) {
    forall i :: 0 <= i < |chain| - 1 ==> NodeWaits(c, sweeps, chain[i], chain[i + 1])
  }

  lemma {:induction false} RanksFall(cfg: Config, c: Machine, sweeps: map<Id, Sweeper>, chain: seq<Waiter>, i: nat,
                                     j: nat)
    requires Inv(cfg, c) && NodeChain(c, sweeps, chain) && i <= j < |chain|
    ensures NodeRank(c, chain[j]) <= NodeRank(c, chain[i])
    decreases j
  {
    if i < j {
      RanksFall(cfg, c, sweeps, chain, i, j - 1);
      assert NodeWaits(c, sweeps, chain[j - 1], chain[j]);
      NodeDescends(cfg, c, sweeps, chain[j - 1], chain[j]);
    }
  }

  /** Whatever sweeps are under way beside an interleaving, a cycle of lock waits runs through
      sweeps alone: no handler is ever part of one. */
  lemma {:induction false} CyclesAreSweeps(cfg: Config, run: seq<Action>, sweeps: map<Id, Sweeper>, chain: seq<Waiter>)
    requires cfg.lockedCheck && NodeChain(Interleave(cfg, run), sweeps, chain)
    requires |chain| >= 2 && chain[0] == chain[|chain| - 1]
    ensures forall x :: x in chain ==> x.Sweeping?
  {
    var c := Interleave(cfg, run);
    RunKeepsInv(cfg, run);
    forall i | 0 <= i < |chain| - 1
      ensures chain[i].Sweeping?
    {
      RanksFall(cfg, c, sweeps, chain, 0, i);
      RanksFall(cfg, c, sweeps, chain, i + 1, |chain| - 1);
      assert NodeWaits(c, sweeps, chain[i], chain[i + 1]);
      NodeDescends(cfg, c, sweeps, chain[i], chain[i + 1]);
    }
    forall x | x in chain
      ensures x.Sweeping?
    {
      var i :| 0 <= i < |chain| && chain[i] == x;
    }
  }

  /** So with one sweep at a time there is none. */
  lemma {:induction false} OneSweepNeverDeadlocks(cfg: Config, run: seq<Action>, v: Id, sweep: Sweeper,
                                                  chain: seq<Waiter>)
    requires cfg.lockedCheck && NodeChain(Interleave(cfg, run), map[v := sweep], chain)
    ensures |chain| >= 2 ==> chain[0] != chain[|chain| - 1]
  {
    if |chain| >= 2 && chain[0] == chain[|chain| - 1] {
      assert chain[0] in chain && chain[1] in chain
             && NodeWaits(Interleave(cfg, run), map[v := sweep], chain[0], chain[1]);
      CyclesAreSweeps(cfg, run, map[v := sweep], chain);
    }
  }

  /** Two sweeps that come upon two rows in opposite orders do wait for each other. */
  lemma {:induction false} TwoSweepsMayDeadlock(c: Machine, l: Id, m: Id)
    requires l != m
    ensures NodeChain(c, map[1 := Sweeper({l}, Some(m)), 2 := Sweeper({m}, Some(l))],
                      [Sweeping(1), Sweeping(2), Sweeping(1)])
  {
  }
}

/** Interleaved runs prefix by prefix: what a handler read earlier and still holds, and which
    steps write, cancel, pay, complete, book and free. */
module BookingHistory {
  import opened Prelude
  import opened ScheduleModel
  import opened BookingTransactions
  import opened BookingProofs

  /** The machine after the first n actions. */
  function At(cfg: Config, run: seq<Action>, n: nat): Machine
    requires n <= |run|
  {
    Interleave(cfg, run[..n])
  }

  lemma {:induction false} StepAt(cfg: Config, run: seq<Action>, n: nat)
    requires n < |run|
    ensures At(cfg, run, n + 1) == Step(cfg, At(cfg, run, n), run[n])
  {
    assert run[..n + 1][..n] == run[..n];
  }

  lemma {:induction false} InvAt(cfg: Config, run: seq<Action>, n: nat)
    requires cfg.lockedCheck && n <= |run|
    ensures Inv(cfg, At(cfg, run, n))
  {
    RunKeepsInv(cfg, run[..n]);
  }

  // ---------------------------------------------------------- single steps, by name

  /** a lets handler a.t execute a statement. */
  predicate Runs(c: Machine, a: Action) {
    a.Do? && a.t in c.txs && !Waits(c, a.t)
  }

  /** An UpdateLesson writes back the row it read. */
  predicate EditWrites(c: Machine, a: Action) {
    Runs(c, a)
    && var tx := c.txs[a.t];
       tx.job.Edit? && tx.phase.Ready? && tx.seen.Some? && tx.job.lesson in c.db.lessons
  }

  /** An UpdateLesson reads its row. */
  predicate EditReads(c: Machine, a: Action) {
    Runs(c, a)
    && var tx := c.txs[a.t];
       tx.job.Edit? && tx.phase.Fresh? && tx.job.lesson in c.db.lessons
         && c.db.lessons[tx.job.lesson].slot in c.db.slots
  }

  /** The cancellation of lesson l, not cancelled before, commits. */
  predicate CancelsLive(c: Machine, a: Action, l: Id) {
    Runs(c, a)
    && var tx := c.txs[a.t];
       tx.job.Cancel? && tx.phase.Second? && tx.seen.Some? && tx.job.lesson == l && l in c.db.lessons
         && Live(c.db.lessons[l])
  }

  predicate Pays(c: Machine, a: Action, l: Id) {
    a == Pay(l) && LessonUnlocked(c, l) && l in c.db.lessons && !c.db.lessons[l].isPaid
  }

  predicate Completes(c: Machine, a: Action, l: Id) {
    a.Sweep? && a.lesson == l && LessonUnlocked(c, l) && l in c.db.lessons && Finished(c.db, l, a.at)
  }

  /** UpdateSlot or DeleteSlot passes its guard on slot s. */
  predicate Guards(c: Machine, a: Action, s: Id) {
    Runs(c, a)
    && var tx := c.txs[a.t];
       (tx.job.Move? || tx.job.Delete?) && tx.phase.Fresh? && tx.job.slot == s && s in c.db.slots
         && !c.db.slots[s].isBooked
  }

  /** UpdateSlot's or DeleteSlot's statement takes effect on slot s. */
  predicate SlotWrites(cfg: Config, c: Machine, a: Action, s: Id) {
    Runs(c, a)
    && var tx := c.txs[a.t];
       (tx.job.Move? || tx.job.Delete?) && tx.phase.Ready? && tx.job.slot == s
       && (if tx.job.Delete? then RemoveSlot(cfg.schema, c.db, s).Ok?
           else MoveSlot(cfg.schema, c.db, s, tx.job.startsAt, tx.job.endsAt, tx.job.at).Ok?)
  }

  /** A booking of slot s commits. */
  predicate Books(c: Machine, a: Action, s: Id) {
    Runs(c, a) && c.txs[a.t].job.Book? && c.txs[a.t].phase.Third? && c.txs[a.t].job.row.slot == s
  }

  /** A cancellation that frees slot s commits. */
  predicate Frees(c: Machine, a: Action, s: Id) {
    Runs(c, a)
    && var tx := c.txs[a.t];
       tx.job.Cancel? && tx.phase.Second? && tx.seen.Some? && tx.seen.value.slot == s
  }

  // --------------------------------------------------------------- what is held

  /** How one step treats an UpdateLesson: it holds what it read until it ends, and it holds
      only what it read. */
  lemma {:induction false} EditStep(cfg: Config, c: Machine, a: Action, t: Id)
    ensures var c' := Step(cfg, c, a);
            && (t in c.txs && c.txs[t].job.Edit? && (c.txs[t].phase.Ready? || c.txs[t].phase.Done?) ==>
                  t in c'.txs && c'.txs[t].job == c.txs[t].job && (c'.txs[t] == c.txs[t] || c'.txs[t].phase.Done?))
            && (t in c'.txs && c'.txs[t].job.Edit? && c'.txs[t].phase.Ready? ==>
                  || (t in c.txs && c.txs[t] == c'.txs[t])
                  || (a == Do(t) && EditReads(c, a)))
  {
  }

  lemma {:induction false} EditReadStep(cfg: Config, c: Machine, a: Action)
    requires EditReads(c, a)
    ensures var tx := c.txs[a.t]; var c' := Step(cfg, c, a);
            a.t in c'.txs && c'.txs[a.t] == Tx(tx.job, Ready, Some(c.db.lessons[tx.job.lesson])) && c'.db == c.db
  {
  }

  lemma {:induction false} SlotStep(cfg: Config, c: Machine, a: Action, t: Id)
    ensures var c' := Step(cfg, c, a);
            t in c'.txs && (c'.txs[t].job.Move? || c'.txs[t].job.Delete?) && c'.txs[t].phase.Ready? ==>
              || (t in c.txs && c.txs[t] == c'.txs[t])
              || (a == Do(t) && t in c.txs && c.txs[t].job == c'.txs[t].job && Guards(c, a, c.txs[t].job.slot))
  {
  }

  /** Handler t keeps the row it read while it is between its read and its write. */
  lemma {:induction false} SnapshotHeld(cfg: Config, run: seq<Action>, i: nat, m: nat)
    requires i < m <= |run| && EditReads(At(cfg, run, i), run[i])
    ensures var t := run[i].t; var c := At(cfg, run, i); var c' := At(cfg, run, m);
            && t in c'.txs && c'.txs[t].job == c.txs[t].job
            && (c'.txs[t].phase.Done? || c'.txs[t] == Tx(c.txs[t].job, Ready, Some(c.db.lessons[c.txs[t].job.lesson])))
    decreases m
  {
    StepAt(cfg, run, m - 1);
    if i < m - 1 {
      SnapshotHeld(cfg, run, i, m - 1);
      EditStep(cfg, At(cfg, run, m - 1), run[m - 1], run[i].t);
    } else {
      EditReadStep(cfg, At(cfg, run, i), run[i]);
    }
  }

  lemma {:induction false} NothingYet(cfg: Config, run: seq<Action>)
    ensures At(cfg, run, 0) == INITIAL
  {
    assert run[..0] == [];
  }

  /** An edit about to write has read, earlier, what it holds. */
  lemma {:induction false} SnapshotRead(cfg: Config, run: seq<Action>, k: nat, t: Id) returns (i: nat)
    requires k <= |run|
    requires var c := At(cfg, run, k); t in c.txs && c.txs[t].job.Edit? && c.txs[t].phase.Ready?
    ensures i < k && run[i] == Do(t) && EditReads(At(cfg, run, i), run[i])
    ensures var tx := At(cfg, run, k).txs[t]; var c := At(cfg, run, i);
            c.txs[t].job == tx.job && tx.seen == Some(c.db.lessons[tx.job.lesson])
    decreases k
  {
    NothingYet(cfg, run);
    StepAt(cfg, run, k - 1);
    var before := At(cfg, run, k - 1);
    EditStep(cfg, before, run[k - 1], t);
    if t in before.txs && before.txs[t] == At(cfg, run, k).txs[t] {
      i := SnapshotRead(cfg, run, k - 1, t);
    } else {
      i := k - 1;
      EditReadStep(cfg, before, run[i]);
    }
  }

  /** A slot handler about to write has passed its guard earlier. */
  lemma {:induction false} GuardPassed(cfg: Config, run: seq<Action>, k: nat, t: Id) returns (i: nat)
    requires k <= |run|
    requires var c := At(cfg, run, k);
             t in c.txs && (c.txs[t].job.Move? || c.txs[t].job.Delete?) && c.txs[t].phase.Ready?
    ensures i < k && run[i] == Do(t) && Guards(At(cfg, run, i), run[i], At(cfg, run, k).txs[t].job.slot)
    decreases k
  {
    NothingYet(cfg, run);
    StepAt(cfg, run, k - 1);
    var before := At(cfg, run, k - 1);
    SlotStep(cfg, before, run[k - 1], t);
    if t in before.txs && before.txs[t] == At(cfg, run, k).txs[t] {
      i := GuardPassed(cfg, run, k - 1, t);
    } else {
      i := k - 1;
    }
  }
}

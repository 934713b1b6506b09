/** Runs that break a promise: without the locked re-check, with a stale UpdateLesson, and
    with a stale UpdateSlot. */
module BookingWitnesses {
  import opened Prelude
  import opened ScheduleModel
  import opened BookedFlag
  import opened BookingTransactions
  import opened BookingAlone

  const FREE := Slot(1, 5, 6, false, 0, None)
  const TAKEN := FREE.(isBooked := true)

  function BookLesson(id: Id): Job { Book(id, NewLesson(10, 2, 1)) }

  lemma DriveFour(cfg: Config, t: Id, c: Machine, c1: Machine, c2: Machine, c3: Machine, c4: Machine)
    requires Step(cfg, c, Do(t)) == c1 && Step(cfg, c1, Do(t)) == c2 && Step(cfg, c2, Do(t)) == c3
             && Step(cfg, c3, Do(t)) == c4
    ensures Drive(cfg, c, t, 4) == c4
  {
    assert Drive(cfg, c, t, 4) == Drive(cfg, c1, t, 3) == Drive(cfg, c2, t, 2) == Drive(cfg, c3, t, 1)
           == Drive(cfg, c4, t, 0);
  }

  /** A booking that passed the early check and meets no lock commits in four statements. */
  lemma BookingCommits(cfg: Config, c: Machine, t: Id)
    requires t in c.txs && c.txs[t].job.Book? && c.txs[t].phase.Ready?
    requires var job := c.txs[t].job;
             && job.row.slot in c.db.slots && (cfg.lockedCheck ==> !c.db.slots[job.row.slot].isBooked)
             && InsertLesson(cfg.schema, SetBooked(c.db, job.row.slot, true), job.lesson, job.row).Ok?
             && (forall u :: u in c.txs && u != t ==> SlotLock(c.txs[u]) != Some(job.row.slot))
    ensures var job := c.txs[t].job; var marked := SetBooked(c.db, job.row.slot, true);
            Drive(cfg, c, t, 4) ==
            c.(txs := c.txs[t := c.txs[t].(phase := Done(true))],
               db := marked.(lessons := marked.lessons[job.lesson := job.row]),
               log := c.log + [SlotBooked(job.row.slot, job.lesson)])
  {
    var tx := c.txs[t];
    var c1 := Step(cfg, c, Do(t));
    assert c1 == Enter(c, t, tx.(phase := First));
    var c2 := Step(cfg, c1, Do(t));
    assert c2 == Enter(c, t, tx.(phase := Second));
    var c3 := Step(cfg, c2, Do(t));
    assert c3 == Enter(c, t, tx.(phase := Third));
    var c4 := Step(cfg, c3, Do(t));
    assert c4.txs == c.txs[t := tx.(phase := Done(true))];
    DriveFour(cfg, t, c, c1, c2, c3, c4);
  }

  const OPENING: seq<Action> :=
    [Publish(10, FREE), Begin(1, BookLesson(100)), Begin(2, BookLesson(101)), Do(1), Do(2)]

  /** Bookings 1 and 2 in the given phases, slot 10 free. */
  function TwoBookings(first: Phase, second: Phase): Machine {
    Machine(Tables(map[10 := FREE], map[]),
            map[1 := Tx(BookLesson(100), first, None), 2 := Tx(BookLesson(101), second, None)],
            {10, 100, 101}, [])
  }

  lemma BothBegin(cfg: Config)
    ensures Interleave(cfg, OPENING[..3]) == TwoBookings(Fresh, Fresh)
  {
    var db := Tables(map[10 := FREE], map[]);
    assert [] + [Publish(10, FREE)] == OPENING[..1];
    Next(cfg, [], Publish(10, FREE), Machine(db, map[], {10}, []));
    assert OPENING[..1] + [Begin(1, BookLesson(100))] == OPENING[..2];
    Next(cfg, OPENING[..1], Begin(1, BookLesson(100)),
         Machine(db, map[1 := Tx(BookLesson(100), Fresh, None)], {10, 100}, []));
    assert OPENING[..2] + [Begin(2, BookLesson(101))] == OPENING[..3];
    Next(cfg, OPENING[..2], Begin(2, BookLesson(101)), TwoBookings(Fresh, Fresh));
  }

  lemma BothPassTheEarlyCheck(cfg: Config)
    ensures Interleave(cfg, OPENING) == TwoBookings(Ready, Ready)
  {
    BothBegin(cfg);
    assert OPENING[..3] + [Do(1)] == OPENING[..4] && OPENING[..4] + [Do(2)] == OPENING;
    assert !Waits(TwoBookings(Fresh, Fresh), 1);
    assert TwoBookings(Fresh, Fresh).txs[1 := Tx(BookLesson(100), Ready, None)] == TwoBookings(Ready, Fresh).txs;
    Next(cfg, OPENING[..3], Do(1), TwoBookings(Ready, Fresh));
    assert !Waits(TwoBookings(Ready, Fresh), 2);
    assert TwoBookings(Ready, Fresh).txs[2 := Tx(BookLesson(101), Ready, None)] == TwoBookings(Ready, Ready).txs;
    Next(cfg, OPENING[..4], Do(2), TwoBookings(Ready, Ready));
  }

  /** Two handlers that both read the slot as free both book it when the transaction does not
      look again under its lock: the early check alone protects nothing. */
  lemma EarlyCheckIsNotEnough()
    ensures var cfg := Config(Schema(false, true, true), true, false);
            var c := Interleave(cfg, OPENING + Dos(1, 4) + Dos(2, 4));
            && c.log == [SlotBooked(10, 100), SlotBooked(10, 101)]
            && !Agreement(c.db)
  {
    var cfg := Config(Schema(false, true, true), true, false);
    BothPassTheEarlyCheck(cfg);
    var c := Interleave(cfg, OPENING);
    DriveRuns(cfg, OPENING, 1, 4);
    BookingCommits(cfg, c, 1);
    var c1 := Drive(cfg, c, 1, 4);
    DriveRuns(cfg, OPENING + Dos(1, 4), 2, 4);
    BookingCommits(cfg, c1, 2);
    var c2 := Drive(cfg, c1, 2, 4);
    assert 100 in c2.db.lessons && 101 in c2.db.lessons && c2.db.lessons[100].slot == c2.db.lessons[101].slot;
  }

  // ------------------------------------------------- stale write of UpdateLesson

  const EDIT := Edit(100, Some("link"), None, None, 7)
  const CANCEL := Cancel(100, 8)
  const LESSON := NewLesson(10, 2, 1)
  const PAID := LESSON.(isPaid := true)
  const CANCELLED := PAID.(status := Cancelled, editedAt := 8)

  const BOOKED_ONCE: seq<Action> := [Publish(10, FREE), Begin(1, BookLesson(100)), Do(1)] + Dos(1, 4)
  const EDIT_READS := BOOKED_ONCE + [Begin(2, EDIT)] + [Do(2)]
  const PAID_AND_CANCELLED := EDIT_READS + [Pay(100)] + [Begin(3, CANCEL)] + Dos(3, 4)
  const EDIT_WRITES := PAID_AND_CANCELLED + [Do(2)]

  /** The booking of lesson 100 has committed; others are the handlers begun since. */
  function After(slot: Slot, lesson: Lesson, others: map<Id, Tx>, log: seq<Event>): Machine {
    Machine(Tables(map[10 := slot], map[100 := lesson]),
            map[1 := Tx(BookLesson(100), Done(true), None)] + others, {10, 100}, [SlotBooked(10, 100)] + log)
  }

  lemma NobodyLocks(c: Machine, t: Id)
    requires forall u :: u in c.txs && u != t ==> SlotLock(c.txs[u]).None? && LessonLock(c.txs[u]).None?
    ensures !Waits(c, t)
  {
  }

  function Alone(phase: Phase): Machine {
    Machine(Tables(map[10 := FREE], map[]), map[1 := Tx(BookLesson(100), phase, None)], {10, 100}, [])
  }

  lemma ReadyAlone(cfg: Config)
    ensures Interleave(cfg, [Publish(10, FREE), Begin(1, BookLesson(100)), Do(1)]) == Alone(Ready)
  {
    var run: seq<Action> := [Publish(10, FREE), Begin(1, BookLesson(100)), Do(1)];
    assert run[..0] + [run[0]] == run[..1] && run[..1] + [run[1]] == run[..2] && run[..2] + [run[2]] == run;
    Next(cfg, run[..0], run[0], Machine(Tables(map[10 := FREE], map[]), map[], {10}, []));
    Next(cfg, run[..1], run[1], Alone(Fresh));
    NobodyLocks(Alone(Fresh), 1);
    assert Alone(Fresh).txs[1 := Tx(BookLesson(100), Ready, None)] == Alone(Ready).txs;
    Next(cfg, run[..2], run[2], Alone(Ready));
  }

  lemma BookedAlone(cfg: Config)
    ensures Interleave(cfg, BOOKED_ONCE) == After(TAKEN, LESSON, map[], [])
  {
    ReadyAlone(cfg);
    DriveRuns(cfg, [Publish(10, FREE), Begin(1, BookLesson(100)), Do(1)], 1, 4);
    BookingCommits(cfg, Alone(Ready), 1);
    assert Interleave(cfg, BOOKED_ONCE).txs == After(TAKEN, LESSON, map[], []).txs;
  }

  function Holding(): Tx { Tx(EDIT, Ready, Some(LESSON)) }

  lemma EditReads(cfg: Config)
    ensures Interleave(cfg, EDIT_READS) == After(TAKEN, LESSON, map[2 := Holding()], [])
  {
    BookedAlone(cfg);
    var begun := After(TAKEN, LESSON, map[2 := Tx(EDIT, Fresh, None)], []);
    assert After(TAKEN, LESSON, map[], []).txs[2 := Tx(EDIT, Fresh, None)] == begun.txs;
    Next(cfg, BOOKED_ONCE, Begin(2, EDIT), begun);
    NobodyLocks(begun, 2);
    assert begun.txs[2 := Holding()] == After(TAKEN, LESSON, map[2 := Holding()], []).txs;
    Next(cfg, BOOKED_ONCE + [Begin(2, EDIT)], Do(2), After(TAKEN, LESSON, map[2 := Holding()], []));
  }

  function Cancelling(phase: Phase): Machine {
    After(TAKEN, PAID, map[2 := Holding(), 3 := Tx(CANCEL, phase, if phase == Fresh then None else Some(PAID))], [])
  }

  const FREED := After(FREE, CANCELLED, map[2 := Holding(), 3 := Tx(CANCEL, Done(true), Some(PAID))], [SlotFreed(10)])

  lemma CancelMoves(cfg: Config, phase: Phase, next: Phase)
    requires (phase, next) == (Fresh, Ready) || (phase, next) == (Ready, First) || (phase, next) == (First, Second)
    ensures Step(cfg, Cancelling(phase), Do(3)) == Cancelling(next)
  {
    NobodyLocks(Cancelling(phase), 3);
    assert Cancelling(phase).txs[3 := Tx(CANCEL, next, Some(PAID))] == Cancelling(next).txs;
  }

  lemma CancelEnds(cfg: Config)
    ensures Step(cfg, Cancelling(Second), Do(3)) == FREED
  {
    var last := Cancelling(Second);
    NobodyLocks(last, 3);
    var c := Step(cfg, last, Do(3));
    assert last.txs[3 := Tx(CANCEL, Done(true), Some(PAID))] == FREED.txs;
    assert c.db.slots == FREED.db.slots && c.db.lessons == FREED.db.lessons;
    assert last.log + [SlotFreed(10)] == FREED.log;
  }

  lemma CancelCommits(cfg: Config)
    ensures Drive(cfg, Cancelling(Fresh), 3, 4) == FREED
  {
    CancelMoves(cfg, Fresh, Ready);
    CancelMoves(cfg, Ready, First);
    CancelMoves(cfg, First, Second);
    CancelEnds(cfg);
    DriveFour(cfg, 3, Cancelling(Fresh), Cancelling(Ready), Cancelling(First), Cancelling(Second), FREED);
  }

  lemma PaidAndCancelled(cfg: Config)
    ensures Interleave(cfg, PAID_AND_CANCELLED) == FREED
  {
    EditReads(cfg);
    var paid := After(TAKEN, PAID, map[2 := Holding()], []);
    Next(cfg, EDIT_READS, Pay(100), paid);
    assert paid.txs[3 := Tx(CANCEL, Fresh, None)] == Cancelling(Fresh).txs;
    Next(cfg, EDIT_READS + [Pay(100)], Begin(3, CANCEL), Cancelling(Fresh));
    DriveRuns(cfg, EDIT_READS + [Pay(100)] + [Begin(3, CANCEL)], 3, 4);
    CancelCommits(cfg);
  }

  /** Once UpdateLesson's read and write are apart, a lesson that was paid and cancelled comes
      back booked and unpaid, on a slot that is free for the next student; the migration's
      constraints do not help. */
  lemma StaleEditUndoes(cfg: Config)
    ensures var c := Interleave(cfg, PAID_AND_CANCELLED).db;
            100 in c.lessons && c.lessons[100].status == Cancelled && c.lessons[100].isPaid && Agreement(c)
    ensures var c := Interleave(cfg, EDIT_WRITES).db;
            && 100 in c.lessons && c.lessons[100].status == Booked && !c.lessons[100].isPaid
            && 10 in c.slots && !c.slots[10].isBooked && !Agreement(c)
  {
    PaidAndCancelled(cfg);
    NobodyLocks(FREED, 2);
    var c := Step(cfg, FREED, Do(2));
    Next(cfg, PAID_AND_CANCELLED, Do(2), c);
    assert c.db.lessons[100].slot == 10;
  }

  // --------------------------------------------------- stale guard of UpdateSlot

  const MOVE := Move(10, 50, 60, 3)
  const MOVE_PASSES: seq<Action> := [Publish(10, FREE), Begin(4, MOVE), Do(4), Begin(1, BookLesson(100)), Do(1)]

  function Moving(move: Phase, others: map<Id, Tx>, issued: set<Id>): Machine {
    Machine(Tables(map[10 := FREE], map[]), map[4 := Tx(MOVE, move, None)] + others, issued, [])
  }

  lemma MovePasses(cfg: Config)
    ensures Interleave(cfg, MOVE_PASSES) == Moving(Ready, map[1 := Tx(BookLesson(100), Ready, None)], {10, 100})
  {
    var run := MOVE_PASSES;
    assert run[..0] + [run[0]] == run[..1] && run[..1] + [run[1]] == run[..2] && run[..2] + [run[2]] == run[..3];
    assert run[..3] + [run[3]] == run[..4] && run[..4] + [run[4]] == run;
    Next(cfg, run[..0], run[0], Machine(Tables(map[10 := FREE], map[]), map[], {10}, []));
    Next(cfg, run[..1], run[1], Moving(Fresh, map[], {10}));
    NobodyLocks(Moving(Fresh, map[], {10}), 4);
    assert Moving(Fresh, map[], {10}).txs[4 := Tx(MOVE, Ready, None)] == Moving(Ready, map[], {10}).txs;
    Next(cfg, run[..2], run[2], Moving(Ready, map[], {10}));
    var begun := Moving(Ready, map[1 := Tx(BookLesson(100), Fresh, None)], {10, 100});
    assert Moving(Ready, map[], {10}).txs[1 := Tx(BookLesson(100), Fresh, None)] == begun.txs;
    Next(cfg, run[..3], run[3], begun);
    NobodyLocks(begun, 1);
    var ready := Moving(Ready, map[1 := Tx(BookLesson(100), Ready, None)], {10, 100});
    assert begun.txs[1 := Tx(BookLesson(100), Ready, None)] == ready.txs;
    Next(cfg, run[..4], run[4], ready);
  }

  /** The booking has committed under the waiting move. */
  const BOOKED_UNDER := Machine(Tables(map[10 := TAKEN], map[100 := LESSON]),
    map[4 := Tx(MOVE, Ready, None), 1 := Tx(BookLesson(100), Done(true), None)], {10, 100}, [SlotBooked(10, 100)])

  lemma BookedUnderMove(cfg: Config)
    ensures Interleave(cfg, MOVE_PASSES + Dos(1, 4)) == BOOKED_UNDER
  {
    MovePasses(cfg);
    var c := Moving(Ready, map[1 := Tx(BookLesson(100), Ready, None)], {10, 100});
    DriveRuns(cfg, MOVE_PASSES, 1, 4);
    BookingCommits(cfg, c, 1);
    assert c.txs[1 := Tx(BookLesson(100), Done(true), None)] == BOOKED_UNDER.txs;
  }

  /** UpdateSlot's guard and its statement apart: a slot booked in between is moved under the
      student who booked it. The flag survives, the frozen interval does not. */
  lemma StaleMoveMovesBookedSlot(cfg: Config)
    ensures var c := Interleave(cfg, MOVE_PASSES + Dos(1, 4)).db;
            10 in c.slots && c.slots[10].isBooked && c.slots[10].startsAt == 5
    ensures var c := Interleave(cfg, MOVE_PASSES + Dos(1, 4) + [Do(4)]).db;
            10 in c.slots && c.slots[10].isBooked && c.slots[10].startsAt == 50
  {
    BookedUnderMove(cfg);
    NobodyLocks(BOOKED_UNDER, 4);
    Next(cfg, MOVE_PASSES + Dos(1, 4), Do(4), Step(cfg, BOOKED_UNDER, Do(4)));
  }
}

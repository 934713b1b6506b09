/** A handler that nobody else comes in between of: statement by statement it does what the
    sequential model says of its request. */
module BookingAlone {
  import opened Prelude
  import opened ScheduleModel
  import opened BookingTransactions

  lemma Next(cfg: Config, run: seq<Action>, a: Action, c: Machine)
    requires Step(cfg, Interleave(cfg, run), a) == c
    ensures Interleave(cfg, run + [a]) == c
  {
    assert (run + [a])[..|run|] == run;
  }

  /** t executes n statements in a row. */
  function Drive(cfg: Config, c: Machine, t: Id, n: nat): Machine
    decreases n
  {
    if n == 0 then c else Drive(cfg, Step(cfg, c, Do(t)), t, n - 1)
  }

  function Dos(t: Id, n: nat): seq<Action> { seq(n, _ => Do(t)) }

  lemma {:induction false} OneMoreDo(run: seq<Action>, t: Id, n: nat)
    ensures run + Dos(t, n + 1) == run + [Do(t)] + Dos(t, n)
    ensures run + Dos(t, 0) == run
  {
    assert Dos(t, n + 1) == [Do(t)] + Dos(t, n);
  }

  lemma {:induction false} DriveRuns(cfg: Config, run: seq<Action>, t: Id, n: nat)
    ensures Interleave(cfg, run + Dos(t, n)) == Drive(cfg, Interleave(cfg, run), t, n)
    decreases n
  {
    OneMoreDo(run, t, if n == 0 then 0 else n - 1);
    if n > 0 {
      Next(cfg, run, Do(t), Step(cfg, Interleave(cfg, run), Do(t)));
      DriveRuns(cfg, run + [Do(t)], t, n - 1);
    }
  }

  /** Handler t starts and runs to its end, five statements being enough for any. */
  function Alone(cfg: Config, c: Machine, t: Id, job: Job): Machine {
    Drive(cfg, Step(cfg, c, Begin(t, job)), t, 5)
  }

  lemma {:induction false} FiveSteps(cfg: Config, t: Id, c0: Machine, c1: Machine, c2: Machine, c3: Machine,
                                     c4: Machine, c5: Machine)
    requires Step(cfg, c0, Do(t)) == c1 && Step(cfg, c1, Do(t)) == c2 && Step(cfg, c2, Do(t)) == c3
    requires Step(cfg, c3, Do(t)) == c4 && Step(cfg, c4, Do(t)) == c5
    ensures Drive(cfg, c0, t, 5) == c5
  {
    assert Drive(cfg, c0, t, 5) == Drive(cfg, c1, t, 4) == Drive(cfg, c2, t, 3) == Drive(cfg, c3, t, 2)
           == Drive(cfg, c4, t, 1) == Drive(cfg, c5, t, 0);
  }

  /** Nobody holds a row lock, and nothing is stored under an id not yet drawn. */
  ghost predicate Quiet(c: Machine) {
    && (forall u :: u in c.txs ==> SlotLock(c.txs[u]) == None && LessonLock(c.txs[u]) == None)
    && c.db.lessons.Keys <= c.issued && c.db.slots.Keys <= c.issued
  }

  lemma {:induction false} NoWaiting(c: Machine, t: Id, tx: Tx)
    requires Quiet(c)
    ensures !Waits(Enter(c, t, tx), t)
  {
  }

  /** A handler that has ended stays as it is. */
  lemma {:induction false} EndedStays(cfg: Config, c: Machine, t: Id, n: nat)
    requires t in c.txs && c.txs[t].phase.Done?
    ensures Drive(cfg, c, t, n) == c
    decreases n
  {
    if n > 0 { EndedStays(cfg, c, t, n - 1); }
  }

  /** One statement of the only handler at work. */
  lemma {:induction false} OneStep(cfg: Config, c: Machine, t: Id, tx: Tx)
    requires Quiet(c)
    ensures var at := Enter(c, t, tx);
            Step(cfg, at, Do(t))
            == if tx.job.Book? then DoBook(cfg, at, t) else if tx.job.Cancel? then DoCancel(at, t)
               else if tx.job.Edit? then DoEdit(at, t) else DoSlot(cfg, at, t)
  {
    NoWaiting(c, t, tx);
  }

  lemma {:induction false} StepOff(cfg: Config, c: Machine, t: Id, n: nat)
    requires n > 0
    ensures Drive(cfg, c, t, n) == Drive(cfg, Step(cfg, c, Do(t)), t, n - 1)
  {
  }

  /** What became of handler t: the tables, and whether it reported success. */
  ghost predicate EndsAs(c: Machine, t: Id, rows: Tables, committed: bool) {
    t in c.txs && c.txs[t].phase == Done(committed) && c.db == rows
  }

  /** From under its lock a booking goes through exactly if the insert does. */
  lemma {:induction false} BookUnderLock(cfg: Config, c: Machine, t: Id, job: Job)
    requires Quiet(c) && job.Book?
    ensures var end := Drive(cfg, Enter(c, t, Tx(job, First, None)), t, 3);
            var marked := SetBooked(c.db, job.row.slot, true);
            if InsertLesson(cfg.schema, marked, job.lesson, job.row).Ok? then
              EndsAs(end, t, marked.(lessons := marked.lessons[job.lesson := job.row]), true)
            else EndsAs(end, t, c.db, false)
  {
    var c2, c3 := Enter(c, t, Tx(job, First, None)), Enter(c, t, Tx(job, Second, None));
    OneStep(cfg, c, t, Tx(job, First, None));
    assert Step(cfg, c2, Do(t)) == c3;
    StepOff(cfg, c2, t, 3);
    OneStep(cfg, c, t, Tx(job, Second, None));
    StepOff(cfg, c3, t, 2);
    var c4 := Step(cfg, c3, Do(t));
    if InsertLesson(cfg.schema, SetBooked(c.db, job.row.slot, true), job.lesson, job.row).Ok? {
      assert c4 == Enter(c, t, Tx(job, Third, None));
      OneStep(cfg, c, t, Tx(job, Third, None));
    }
    StepOff(cfg, c4, t, 1);
  }

  lemma {:induction false} BookAlone(cfg: Config, c: Machine, t: Id, job: Job)
    requires Quiet(c) && job.Book? && cfg.lockedCheck
    ensures var end := Drive(cfg, Enter(c, t, Tx(job, Fresh, None)), t, 5);
            var booked := BookAtomic(cfg.schema, c.db, job.lesson, job.row);
            EndsAs(end, t, if booked.Ok? then booked.value else c.db, booked.Ok?)
  {
    var c0, c1 := Enter(c, t, Tx(job, Fresh, None)), Enter(c, t, Tx(job, Ready, None));
    OneStep(cfg, c, t, Tx(job, Fresh, None));
    StepOff(cfg, c0, t, 5);
    if job.row.slot !in c.db.slots || (cfg.staleCheck && c.db.slots[job.row.slot].isBooked) {
      EndedStays(cfg, Step(cfg, c0, Do(t)), t, 4);
    } else {
      assert Step(cfg, c0, Do(t)) == c1;
      OneStep(cfg, c, t, Tx(job, Ready, None));
      StepOff(cfg, c1, t, 4);
      if c.db.slots[job.row.slot].isBooked {
        EndedStays(cfg, Step(cfg, c1, Do(t)), t, 3);
      } else {
        assert Step(cfg, c1, Do(t)) == Enter(c, t, Tx(job, First, None));
        BookUnderLock(cfg, c, t, job);
      }
    }
  }

  /** A cancellation whose handler has read its lesson frees the lesson's slot and cannot fail. */
  lemma {:induction false} CancelFromReady(cfg: Config, c: Machine, t: Id, job: Job, row: Lesson)
    requires Quiet(c) && job.Cancel?
    ensures EndsAs(Drive(cfg, Enter(c, t, Tx(job, Ready, Some(row))), t, 4), t,
                   CancelAtomic(c.db, job.lesson, row.slot, job.at), true)
  {
    var seen := Some(row);
    var c1, c2 := Enter(c, t, Tx(job, Ready, seen)), Enter(c, t, Tx(job, First, seen));
    var c3 := Enter(c, t, Tx(job, Second, seen));
    OneStep(cfg, c, t, Tx(job, Ready, seen));
    assert Step(cfg, c1, Do(t)) == c2;
    StepOff(cfg, c1, t, 4);
    OneStep(cfg, c, t, Tx(job, First, seen));
    assert Step(cfg, c2, Do(t)) == c3;
    StepOff(cfg, c2, t, 3);
    OneStep(cfg, c, t, Tx(job, Second, seen));
    StepOff(cfg, c3, t, 2);
    EndedStays(cfg, Step(cfg, c3, Do(t)), t, 1);
  }

  lemma {:induction false} CancelAlone(cfg: Config, c: Machine, t: Id, job: Job)
    requires Quiet(c) && job.Cancel?
    ensures var end := Drive(cfg, Enter(c, t, Tx(job, Fresh, None)), t, 5);
            if job.lesson in c.db.lessons && c.db.lessons[job.lesson].slot in c.db.slots then
              EndsAs(end, t, CancelAtomic(c.db, job.lesson, c.db.lessons[job.lesson].slot, job.at), true)
            else EndsAs(end, t, c.db, false)
  {
    var c0 := Enter(c, t, Tx(job, Fresh, None));
    OneStep(cfg, c, t, Tx(job, Fresh, None));
    StepOff(cfg, c0, t, 5);
    if job.lesson in c.db.lessons && c.db.lessons[job.lesson].slot in c.db.slots {
      assert Step(cfg, c0, Do(t)) == Enter(c, t, Tx(job, Ready, Some(c.db.lessons[job.lesson])));
      CancelFromReady(cfg, c, t, job, c.db.lessons[job.lesson]);
    } else {
      EndedStays(cfg, Step(cfg, c0, Do(t)), t, 4);
    }
  }

  lemma {:induction false} SlotAlone(cfg: Config, c: Machine, t: Id, job: Job)
    requires Quiet(c) && (job.Move? || job.Delete?)
    ensures var end := Drive(cfg, Enter(c, t, Tx(job, Fresh, None)), t, 5);
            var free := job.slot in c.db.slots && !c.db.slots[job.slot].isBooked;
            var r := if job.Delete? then RemoveSlot(cfg.schema, c.db, job.slot)
                     else MoveSlot(cfg.schema, c.db, job.slot, job.startsAt, job.endsAt, job.at);
            EndsAs(end, t, if free && r.Ok? then r.value else c.db, free && r.Ok?)
  {
    var c0, c1 := Enter(c, t, Tx(job, Fresh, None)), Enter(c, t, Tx(job, Ready, None));
    OneStep(cfg, c, t, Tx(job, Fresh, None));
    StepOff(cfg, c0, t, 5);
    if job.slot in c.db.slots && !c.db.slots[job.slot].isBooked {
      assert Step(cfg, c0, Do(t)) == c1;
      OneStep(cfg, c, t, Tx(job, Ready, None));
      StepOff(cfg, c1, t, 4);
      EndedStays(cfg, Step(cfg, c1, Do(t)), t, 3);
    } else {
      EndedStays(cfg, Step(cfg, c0, Do(t)), t, 4);
    }
  }

  lemma {:induction false} EditAlone(cfg: Config, c: Machine, t: Id, job: Job)
    requires Quiet(c) && job.Edit?
    ensures var end := Drive(cfg, Enter(c, t, Tx(job, Fresh, None)), t, 5);
            if job.lesson in c.db.lessons && c.db.lessons[job.lesson].slot in c.db.slots then
              var merged := Merge(c.db.lessons[job.lesson], job.link, job.price, job.info, job.at);
              EndsAs(end, t, WriteLesson(c.db, job.lesson, merged).value, true)
            else EndsAs(end, t, c.db, false)
  {
    var c0 := Enter(c, t, Tx(job, Fresh, None));
    OneStep(cfg, c, t, Tx(job, Fresh, None));
    StepOff(cfg, c0, t, 5);
    if job.lesson in c.db.lessons && c.db.lessons[job.lesson].slot in c.db.slots {
      var seen := Some(c.db.lessons[job.lesson]);
      var c1 := Enter(c, t, Tx(job, Ready, seen));
      assert Step(cfg, c0, Do(t)) == c1;
      OneStep(cfg, c, t, Tx(job, Ready, seen));
      StepOff(cfg, c1, t, 4);
      EndedStays(cfg, Step(cfg, c1, Do(t)), t, 3);
    } else {
      EndedStays(cfg, Step(cfg, c0, Do(t)), t, 4);
    }
  }

  // ---------------------------------------------------------- against the requests

  /** The job a request starts, once its own checks of the caller have passed. */
  function JobOf(now: int, req: Request): Option<Job> {
    match req
    case UpdateSlot(_, slot, startsAt, endsAt) => Some(Move(slot, startsAt, endsAt, now))
    case DeleteSlot(_, slot) => Some(Delete(slot))
    case CreateLesson(_, slot, student, _, id) => Some(Book(id, NewLesson(slot, student, now)))
    case UpdateLesson(_, lesson, link, price, info) => Some(Edit(lesson, link, price, info, now))
    case CancelLesson(_, lesson) => Some(Cancel(lesson, now))
    case _ => None
  }

  /** What the handler checks of its caller and its arguments, the tables being t: the caller owns
      the slot or takes part in the lesson, the pair is connected, the times lie ahead, and there
      is something to change. */
  predicate MayAsk(t: Tables, now: int, req: Request) {
    match req
    case UpdateSlot(user, s, startsAt, endsAt) =>
      (s in t.slots ==> t.slots[s].tutor == user) && startsAt < endsAt && now <= startsAt
    case DeleteSlot(user, s) => s in t.slots ==> t.slots[s].tutor == user
    case CreateLesson(user, s, student, paired, _) =>
      (s in t.slots ==> user == t.slots[s].tutor || user == student) && paired == Some(true)
    case UpdateLesson(user, l, link, price, info) =>
      && (l in t.lessons && t.lessons[l].slot in t.slots ==> t.slots[t.lessons[l].slot].tutor == user)
      && (link.Some? || price.Some? || info.Some?)
    case CancelLesson(user, l) =>
      l in t.lessons && t.lessons[l].slot in t.slots ==>
        user == t.slots[t.lessons[l].slot].tutor || user == t.lessons[l].student
    case _ => false
  }

  /** Run without interruption, a handler of the interleaved machine leaves the tables its request
      leaves in the sequential model, and commits exactly if that answers Success. */
  lemma {:induction false} AloneIsServe(cfg: Config, c: Machine, t: Id, now: int, req: Request)
    requires Quiet(c) && t !in c.txs && cfg.lockedCheck && MayAsk(c.db, now, req)
    requires req.CreateLesson? ==> req.newId !in c.issued
    ensures var reply := Serve(cfg.schema, c.db, now, req);
            EndsAs(Alone(cfg, c, t, JobOf(now, req).value), t, reply.tables, reply.code == Success)
  {
    var job := JobOf(now, req).value;
    var drawn := if job.Book? then c.(issued := c.issued + {job.lesson}) else c;
    assert Step(cfg, c, Begin(t, job)) == Enter(drawn, t, Tx(job, Fresh, None));
    match job
    case Book(_, _) => BookAlone(cfg, drawn, t, job);
    case Cancel(_, _) => CancelAlone(cfg, drawn, t, job);
    case Edit(_, _, _, _, _) => EditAlone(cfg, drawn, t, job);
    case _ => SlotAlone(cfg, drawn, t, job);
  }

  // ---------------------------------------------------------------------- the sweep

  function SweepRun(ls: seq<Id>, at: int): seq<Action> { seq(|ls|, i requires 0 <= i < |ls| => Sweep(ls[i], at)) }

  /** The rows of the given lessons swept. */
  function SweptRows(t: Tables, ls: seq<Id>, at: int): Tables {
    t.(lessons := map l | l in t.lessons ::
        if l in ls && Finished(t, l, at) then t.lessons[l].(status := Completed, editedAt := at) else t.lessons[l])
  }

  lemma {:induction false} SweepsSoFar(cfg: Config, run: seq<Action>, ls: seq<Id>, at: int, n: nat)
    requires Quiet(Interleave(cfg, run)) && n <= |ls|
    ensures var c := Interleave(cfg, run);
            Interleave(cfg, run + SweepRun(ls[..n], at)) == c.(db := SweptRows(c.db, ls[..n], at))
  {
    var c := Interleave(cfg, run);
    if n == 0 {
      assert run + SweepRun(ls[..0], at) == run;
      assert SweptRows(c.db, ls[..0], at) == c.db;
    } else {
      SweepsSoFar(cfg, run, ls, at, n - 1);
      assert run + SweepRun(ls[..n], at) == run + SweepRun(ls[..n - 1], at) + [Sweep(ls[n - 1], at)];
      var before := run + SweepRun(ls[..n - 1], at);
      Next(cfg, before, Sweep(ls[n - 1], at), Step(cfg, Interleave(cfg, before), Sweep(ls[n - 1], at)));
      assert ls[..n] == ls[..n - 1] + [ls[n - 1]];
      OneMoreSwept(cfg, c, ls[..n - 1], ls[n - 1], at);
    }
  }

  lemma {:induction false} OneMoreSwept(cfg: Config, c: Machine, ls: seq<Id>, l: Id, at: int)
    requires Quiet(c)
    ensures Step(cfg, c.(db := SweptRows(c.db, ls, at)), Sweep(l, at))
            == c.(db := SweptRows(c.db, ls + [l], at))
  {
    var t := SweptRows(c.db, ls, at);
    var t' := SweptRows(c.db, ls + [l], at);
    assert LessonUnlocked(c.(db := t), l);
    assert forall x :: x in ls + [l] <==> x in ls || x == l;
    if l in t.lessons && Finished(t, l, at) {
      assert SetStatus(t, l, Completed, at).lessons == t'.lessons;
    } else {
      assert t.lessons == t'.lessons;
    }
  }

  /** A sweep that nobody comes in between of reaches the rows one by one, in whatever order, and
      does what the sequential sweep does. */
  lemma {:induction false} SweepAlone(cfg: Config, run: seq<Action>, ls: seq<Id>, at: int)
    requires Quiet(Interleave(cfg, run)) && forall l :: l in Interleave(cfg, run).db.lessons ==> l in ls
    ensures Interleave(cfg, run + SweepRun(ls, at)).db
            == Serve(cfg.schema, Interleave(cfg, run).db, at, UpdateCompletedLessons).tables
  {
    SweepsSoFar(cfg, run, ls, at, |ls|);
    assert ls[..|ls|] == ls;
    var c := Interleave(cfg, run);
    assert SweptRows(c.db, ls, at).lessons == CompletePast(c.db, at).lessons;
  }

  /** The two remaining requests are single statements. */
  lemma {:induction false} StatementsAreServe(cfg: Config, c: Machine, now: int, user: Id, startsAt: int, endsAt: int,
                                              id: Id, lesson: Id)
    requires Quiet(c)
    ensures id !in c.issued && startsAt < endsAt && now <= startsAt ==>
              Step(cfg, c, Publish(id, Slot(user, startsAt, endsAt, false, now, None))).db
              == Serve(cfg.schema, c.db, now, CreateSlot(user, true, user, startsAt, endsAt, id)).tables
    ensures Step(cfg, c, Pay(lesson)).db == Serve(cfg.schema, c.db, now, MarkAsPaid(lesson)).tables
  {
  }
}

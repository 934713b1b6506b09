/** schedule_service as it runs: a repository whose two transactions work statement by
    statement on uncommitted copies of the tables, and the gRPC handlers above it. */
module ScheduleServer {
  import opened Prelude
  import opened ScheduleModel
  import opened ScheduleMeaning

  /** The connection dies at the given statement, counted from the transaction's start; when
      that statement is the commit (or a single UPDATE) it may have landed all the same. */
  datatype Fault = NoFault | LostAt(statement: nat, landed: bool)

  predicate Dies(f: Fault, statement: nat) { f.LostAt? && f.statement == statement }

  class Repository {
    const schema: Schema
    var slots: map<Id, Slot>
    var lessons: map<Id, Lesson>

    constructor (schema: Schema)
      ensures this.schema == schema && Rows() == EMPTY
    {
      this.schema := schema;
      slots, lessons := map[], map[];
    }

    function Rows(): Tables
      reads this
    {
      Tables(slots, lessons)
    }

    /** Runs a statement on its own. */
    method Exec(effect: Result<Tables, DbError>, fault: Fault) returns (r: Result<(), DbError>)
      modifies this
      ensures r.Ok? ==> effect == Ok(Rows())
      ensures r.Err? ==> Rows() == old(Rows()) || (Dies(fault, 0) && fault.landed && effect == Ok(Rows()))
      ensures effect.Err? ==> r.Err? && Rows() == old(Rows())
      ensures effect.Ok? && !Dies(fault, 0) ==> r.Ok?
    {
      if effect.Ok? && (!Dies(fault, 0) || fault.landed) {
        slots, lessons := effect.value.slots, effect.value.lessons;
      }
      if Dies(fault, 0) { return Err(ConnectionLost); }
      if effect.Err? { return Err(effect.error); }
      return Ok(());
    }

    /** Begin, SELECT ... FOR UPDATE, UPDATE slots, INSERT lessons, commit. Success is the
        atomic booking; failure leaves both tables as they were, unless it is the reply to a
        commit that landed. */
    method CreateLessonAndBookSlot(id: Id, lesson: Lesson, fault: Fault) returns (r: Result<(), DbError>)
      modifies this
      ensures r.Ok? ==> BookAtomic(schema, old(Rows()), id, lesson) == Ok(Rows())
      ensures r.Err? ==> Rows() == old(Rows())
                         || (Dies(fault, 4) && fault.landed
                             && BookAtomic(schema, old(Rows()), id, lesson) == Ok(Rows()))
      ensures fault.NoFault? ==> (r.Ok? <==> BookAtomic(schema, old(Rows()), id, lesson).Ok?)
      ensures fault.NoFault? && r.Err? ==> BookAtomic(schema, old(Rows()), id, lesson) == Err(r.error)
    {
      if Dies(fault, 0) || Dies(fault, 1) { return Err(ConnectionLost); }
      var work := Tables(slots, lessons);
      if lesson.slot !in work.slots { return Err(SlotMissing); }
      var isBooked := work.slots[lesson.slot].isBooked;
      if isBooked { return Err(SlotTaken); }
      if Dies(fault, 2) { return Err(ConnectionLost); }
      work := SetBooked(work, lesson.slot, true);
      if Dies(fault, 3) { return Err(ConnectionLost); }
      var inserted := InsertLesson(schema, work, id, lesson);
      if inserted.Err? { return Err(inserted.error); }
      work := inserted.value;
      if Dies(fault, 4) && !fault.landed { return Err(ConnectionLost); }
      slots, lessons := work.slots, work.lessons;
      if Dies(fault, 4) { return Err(ConnectionLost); }
      return Ok(());
    }

    /** Begin, UPDATE lessons, UPDATE slots, commit. */
    method CancelLessonAndFreeSlot(id: Id, slot: Id, editedAt: int, fault: Fault) returns (r: Result<(), DbError>)
      modifies this
      ensures r.Ok? ==> Rows() == CancelAtomic(old(Rows()), id, slot, editedAt)
      ensures r.Err? ==> Rows() == old(Rows())
                         || (Dies(fault, 3) && fault.landed && Rows() == CancelAtomic(old(Rows()), id, slot, editedAt))
      ensures fault.NoFault? ==> r.Ok?
    {
      if Dies(fault, 0) || Dies(fault, 1) { return Err(ConnectionLost); }
      var work := SetStatus(Tables(slots, lessons), id, Cancelled, editedAt);
      if Dies(fault, 2) { return Err(ConnectionLost); }
      work := SetBooked(work, slot, false);
      if Dies(fault, 3) && !fault.landed { return Err(ConnectionLost); }
      slots, lessons := work.slots, work.lessons;
      if Dies(fault, 3) { return Err(ConnectionLost); }
      return Ok(());
    }

    /** The sweep's single UPDATE; the count is the number of lessons it completed. */
    method UpdateCompletedLessons(now: int, fault: Fault) returns (r: Result<nat, DbError>)
      modifies this
      ensures r.Ok? ==> Rows() == CompletePast(old(Rows()), now)
      ensures r.Ok? ==> Swept(old(Rows()), Rows(), now)
      ensures r.Ok? ==> r.value == |set l | l in lessons && lessons[l] != old(lessons)[l]|
      ensures r.Err? ==>
                || Rows() == old(Rows())
                || (Dies(fault, 0) && fault.landed && Rows() == CompletePast(old(Rows()), now))
      ensures fault.NoFault? ==> r.Ok?
    {
      var before := Rows();
      SweepMeans(schema, before, now);
      var done := Exec(Ok(CompletePast(before, now)), fault);
      if done.Err? { return Err(done.error); }
      CompletedAreChanged(before, now);
      return Ok(|set l | l in before.lessons && Finished(before, l, now)|);
    }
  }

  /** A lesson the sweep completes is a lesson it changes. */
  lemma {:induction false} CompletedAreChanged(t: Tables, now: int)
    ensures (set l | l in t.lessons && Finished(t, l, now))
            == set l | l in CompletePast(t, now).lessons && CompletePast(t, now).lessons[l] != t.lessons[l]
  {
  }

  class Server {
    const db: Repository

    constructor (db: Repository)
      ensures this.db == db
    {
      this.db := db;
    }

    /** What every handler promises: the stored rows are the ones the sequential model gives,
        or untouched; without a fault the code is the model's too, and with one it may be
        Internal instead. */
    twostate predicate Served(now: int, req: Request, code: Code, fault: Fault)
      reads db
    {
      var reply := Serve(db.schema, old(db.Rows()), now, req);
      && (db.Rows() == old(db.Rows()) || db.Rows() == reply.tables)
      && (fault.NoFault? ==> db.Rows() == reply.tables && code == reply.code)
      && (code == reply.code || code == Internal)
      && (code == Success ==> db.Rows() == reply.tables && reply.code == Success)
    }

    method CreateSlot(user: Id, isTutor: bool, tutor: Id, startsAt: int, endsAt: int, newId: Id, now: int, fault: Fault)
      returns (code: Code)
      modifies db
      ensures Served(now, Request.CreateSlot(user, isTutor, tutor, startsAt, endsAt, newId), code, fault)
      ensures code == Success ==> SlotStored(old(db.Rows()), db.Rows(), newId, tutor, startsAt, endsAt, now)
    {
      CreateSlotMeans(db.schema, db.Rows(), now, user, isTutor, tutor, startsAt, endsAt, newId);
      if !isTutor || tutor != user { return PermissionDenied; }
      if !ValidTimes(now, startsAt, endsAt) { return InvalidArgument; }
      var slot := Slot(tutor, startsAt, endsAt, false, now, None);
      var r := db.Exec(InsertSlot(db.schema, db.Rows(), newId, slot), fault);
      return if r.Err? then Internal else Success;
    }

    method UpdateSlot(user: Id, slot: Id, startsAt: int, endsAt: int, now: int, fault: Fault) returns (code: Code)
      modifies db
      ensures Served(now, Request.UpdateSlot(user, slot, startsAt, endsAt), code, fault)
      ensures code == Success ==> SlotMoved(old(db.Rows()), db.Rows(), slot, startsAt, endsAt, now)
    {
      UpdateSlotMeans(db.schema, db.Rows(), now, user, slot, startsAt, endsAt);
      if slot !in db.slots { return NotFound; }
      var existing := db.slots[slot];
      if existing.tutor != user { return PermissionDenied; }
      if existing.isBooked { return FailedPrecondition; }
      if !ValidTimes(now, startsAt, endsAt) { return InvalidArgument; }
      var r := db.Exec(MoveSlot(db.schema, db.Rows(), slot, startsAt, endsAt, now), fault);
      return if r.Err? then Internal else Success;
    }

    method DeleteSlot(user: Id, slot: Id, now: int, fault: Fault) returns (code: Code)
      modifies db
      ensures Served(now, Request.DeleteSlot(user, slot), code, fault)
      ensures code == Success ==> SlotGone(old(db.Rows()), db.Rows(), slot)
    {
      DeleteSlotMeans(db.schema, db.Rows(), now, user, slot);
      if slot !in db.slots { return NotFound; }
      if db.slots[slot].tutor != user { return PermissionDenied; }
      if db.slots[slot].isBooked { return FailedPrecondition; }
      var r := db.Exec(RemoveSlot(db.schema, db.Rows(), slot), fault);
      return if r.Err? then Internal else Success;
    }

    method CreateLesson(user: Id, slot: Id, student: Id, paired: Option<bool>, newId: Id, now: int, fault: Fault)
      returns (code: Code)
      modifies db
      ensures Served(now, Request.CreateLesson(user, slot, student, paired, newId), code, fault)
      ensures code == Success ==> LessonBooked(old(db.Rows()), db.Rows(), newId, slot, student, now)
    {
      CreateLessonMeans(db.schema, db.Rows(), now, user, slot, student, paired, newId);
      if slot !in db.slots { return NotFound; }
      if db.slots[slot].isBooked { return AlreadyExists; }
      if user != db.slots[slot].tutor && user != student { return PermissionDenied; }
      if paired.None? { return Internal; }
      if !paired.value { return FailedPrecondition; }
      var r := db.CreateLessonAndBookSlot(newId, NewLesson(slot, student, now), fault);
      return if r.Err? then Internal else Success;
    }

    method UpdateLesson(user: Id, id: Id, link: Option<string>, price: Option<int>, info: Option<string>, now: int,
                        fault: Fault)
      returns (code: Code)
      modifies db
      ensures Served(now, Request.UpdateLesson(user, id, link, price, info), code, fault)
      ensures code == Success ==>
                if link == None && price == None && info == None then db.Rows() == old(db.Rows())
                else LessonEdited(old(db.Rows()), db.Rows(), id, link, price, info, now)
    {
      UpdateLessonMeans(db.schema, db.Rows(), now, user, id, link, price, info);
      if id !in db.lessons { return NotFound; }
      var lesson := db.lessons[id];
      if lesson.slot !in db.slots { return Internal; }
      if user != db.slots[lesson.slot].tutor { return PermissionDenied; }
      var isUpdated := false;
      if link.Some? {
        lesson := lesson.(link := link);
        isUpdated := true;
      }
      if price.Some? {
        lesson := lesson.(price := price);
        isUpdated := true;
      }
      if info.Some? {
        lesson := lesson.(info := info);
        isUpdated := true;
      }
      if isUpdated {
        lesson := lesson.(editedAt := now);
        var r := db.Exec(WriteLesson(db.Rows(), id, lesson), fault);
        if r.Err? { return Internal; }
      }
      return Success;
    }

    method CancelLesson(user: Id, id: Id, now: int, fault: Fault) returns (code: Code)
      modifies db
      ensures Served(now, Request.CancelLesson(user, id), code, fault)
      ensures code == Success ==> LessonCancelled(old(db.Rows()), db.Rows(), id, now)
    {
      CancelLessonMeans(db.schema, db.Rows(), now, user, id);
      if id !in db.lessons { return NotFound; }
      var lesson := db.lessons[id];
      if lesson.slot !in db.slots { return Internal; }
      if user != db.slots[lesson.slot].tutor && user != lesson.student { return PermissionDenied; }
      var r := db.CancelLessonAndFreeSlot(id, lesson.slot, now, fault);
      return if r.Err? then Internal else Success;
    }

    method MarkAsPaid(id: Id, now: int, fault: Fault) returns (code: Code)
      modifies db
      ensures Served(now, Request.MarkAsPaid(id), code, fault)
      ensures code == Success ==> LessonPaid(old(db.Rows()), db.Rows(), id)
    {
      MarkAsPaidMeans(db.schema, db.Rows(), now, id);
      if id !in db.lessons { return NotFound; }
      var r := db.Exec(SetPaid(db.Rows(), id), fault);
      return if r.Err? then Internal else Success;
    }
  }
}

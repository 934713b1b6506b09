/** The slots and lessons tables of schedule_service, the SQL statements that change
    them, and its gRPC handlers at the sequential grain: one handler, one step. */
module ScheduleModel {
  import opened Prelude

  /** A UUID. Only equality of ids matters. */
  type Id = nat

  datatype Status = Booked | Completed | Cancelled

  datatype Slot = Slot(tutor: Id, startsAt: int, endsAt: int, isBooked: bool, createdAt: int, editedAt: Option<int>)

  datatype Lesson = Lesson(slot: Id, student: Id, status: Status, isPaid: bool,
                           link: Option<string>, price: Option<int>, info: Option<string>,
                           createdAt: int, editedAt: int)

  datatype Tables = Tables(slots: map<Id, Slot>, lessons: map<Id, Lesson>)

  /** The table constraints as parameters: UNIQUE(lessons.slot_id), the foreign key
      lessons.slot_id -> slots.id, and UNIQUE(slots.tutor_id, starts_at, ends_at). */
  datatype Schema = Schema(uniqueSlot: bool, slotReference: bool, uniqueInterval: bool)

  const MIGRATION := Schema(true, true, true)
  const EMPTY := Tables(map[], map[])

  datatype DbError = SlotMissing | LessonMissing | SlotTaken | ConstraintViolated | ConnectionLost

  predicate Live(l: Lesson) { !l.status.Cancelled? }

  // ---------------------------------------------------------------- statements

  predicate IntervalTaken(t: Tables, id: Id, tutor: Id, startsAt: int, endsAt: int) {
    exists s :: s in t.slots && s != id && t.slots[s].tutor == tutor
      && t.slots[s].startsAt == startsAt && t.slots[s].endsAt == endsAt
  }

  function InsertSlot(schema: Schema, t: Tables, id: Id, slot: Slot): Result<Tables, DbError> {
    if id in t.slots || (schema.uniqueInterval && IntervalTaken(t, id, slot.tutor, slot.startsAt, slot.endsAt)) then
      Err(ConstraintViolated)
    else Ok(t.(slots := t.slots[id := slot]))
  }

  function MoveSlot(schema: Schema, t: Tables, id: Id, startsAt: int, endsAt: int,
                    editedAt: int): Result<Tables, DbError> {
    if id !in t.slots then Err(SlotMissing)
    else if schema.uniqueInterval && IntervalTaken(t, id, t.slots[id].tutor, startsAt, endsAt) then
      Err(ConstraintViolated)
    else
      var moved := t.slots[id].(startsAt := startsAt, endsAt := endsAt, editedAt := Some(editedAt));
      Ok(t.(slots := t.slots[id := moved]))
  }

  predicate Referenced(t: Tables, slot: Id) {
    exists l :: l in t.lessons && t.lessons[l].slot == slot
  }

  function RemoveSlot(schema: Schema, t: Tables, id: Id): Result<Tables, DbError> {
    if id !in t.slots then Err(SlotMissing)
    else if schema.slotReference && Referenced(t, id) then Err(ConstraintViolated)
    else Ok(t.(slots := t.slots - {id}))
  }

  /** UPDATE slots SET is_booked = b WHERE id = slot: no row, no change. */
  function SetBooked(t: Tables, slot: Id, b: bool): Tables {
    if slot in t.slots then t.(slots := t.slots[slot := t.slots[slot].(isBooked := b)]) else t
  }

  function InsertLesson(schema: Schema, t: Tables, id: Id, lesson: Lesson): Result<Tables, DbError> {
    if id in t.lessons
       || (schema.uniqueSlot && Referenced(t, lesson.slot))
       || (schema.slotReference && lesson.slot !in t.slots) then Err(ConstraintViolated)
    else Ok(t.(lessons := t.lessons[id := lesson]))
  }

  function SetStatus(t: Tables, id: Id, status: Status, editedAt: int): Tables {
    if id in t.lessons then
      t.(lessons := t.lessons[id := t.lessons[id].(status := status, editedAt := editedAt)])
    else t
  }

  /** The UPDATE of UpdateLesson: every mutable column is overwritten, status and is_paid
      included; slot_id, student_id and created_at keep their stored values. */
  function WriteLesson(t: Tables, id: Id, lesson: Lesson): Result<Tables, DbError> {
    if id !in t.lessons then Err(LessonMissing)
    else Ok(t.(lessons := t.lessons[id := lesson.(slot := t.lessons[id].slot, student := t.lessons[id].student,
                                                   createdAt := t.lessons[id].createdAt)]))
  }

  function SetPaid(t: Tables, id: Id): Result<Tables, DbError> {
    if id !in t.lessons then Err(LessonMissing)
    else Ok(t.(lessons := t.lessons[id := t.lessons[id].(isPaid := true)]))
  }

  predicate Finished(t: Tables, id: Id, now: int)
    requires id in t.lessons
  {
    var l := t.lessons[id];
    l.status.Booked? && l.slot in t.slots && t.slots[l.slot].endsAt < now
  }

  function CompletePast(t: Tables, now: int): Tables {
    t.(lessons := map l | l in t.lessons ::
        if Finished(t, l, now) then t.lessons[l].(status := Completed, editedAt := now) else t.lessons[l])
  }

  // -------------------------------------------------------------- transactions

  /** CreateLessonAndBookSlot run without interruption. */
  function BookAtomic(schema: Schema, t: Tables, id: Id, lesson: Lesson): Result<Tables, DbError> {
    if lesson.slot !in t.slots then Err(SlotMissing)
    else if t.slots[lesson.slot].isBooked then Err(SlotTaken)
    else InsertLesson(schema, SetBooked(t, lesson.slot, true), id, lesson)
  }

  /** CancelLessonAndFreeSlot run without interruption. */
  function CancelAtomic(t: Tables, id: Id, slot: Id, editedAt: int): Tables {
    SetBooked(SetStatus(t, id, Cancelled, editedAt), slot, false)
  }

  // ------------------------------------------------------------------ handlers

  datatype Request =
    | CreateSlot(user: Id, isTutor: bool, tutor: Id, startsAt: int, endsAt: int, newId: Id)
    | UpdateSlot(user: Id, slot: Id, startsAt: int, endsAt: int)
    | DeleteSlot(user: Id, slot: Id)
      // paired is the user service's answer: None when that call failed
    | CreateLesson(user: Id, slot: Id, student: Id, paired: Option<bool>, newId: Id)
    | UpdateLesson(user: Id, lesson: Id, link: Option<string>, price: Option<int>, info: Option<string>)
    | CancelLesson(user: Id, lesson: Id)
    | MarkAsPaid(lesson: Id)
    | UpdateCompletedLessons

  datatype Code =
    Success | InvalidArgument | NotFound | PermissionDenied | FailedPrecondition | AlreadyExists | Internal

  datatype Reply = Reply(tables: Tables, code: Code)

  /** A repository call whose error the handler reports as Internal. */
  function Commit(t: Tables, r: Result<Tables, DbError>): Reply {
    if r.Ok? then Reply(r.value, Success) else Reply(t, Internal)
  }

  predicate ValidTimes(now: int, startsAt: int, endsAt: int) { startsAt < endsAt && now <= startsAt }

  function NewLesson(slot: Id, student: Id, now: int): Lesson {
    Lesson(slot, student, Booked, false, None, None, None, now, now)
  }

  function Merge(l: Lesson, link: Option<string>, price: Option<int>, info: Option<string>, now: int): Lesson {
    l.(link := if link.Some? then link else l.link,
       price := if price.Some? then price else l.price,
       info := if info.Some? then info else l.info,
       editedAt := now)
  }

  function Serve(schema: Schema, t: Tables, now: int, req: Request): Reply {
    match req
    case CreateSlot(user, isTutor, tutor, startsAt, endsAt, newId) =>
      if !isTutor || tutor != user then Reply(t, PermissionDenied)
      else if !ValidTimes(now, startsAt, endsAt) then Reply(t, InvalidArgument)
      else Commit(t, InsertSlot(schema, t, newId, Slot(tutor, startsAt, endsAt, false, now, None)))
    case UpdateSlot(user, slot, startsAt, endsAt) =>
      if slot !in t.slots then Reply(t, NotFound)
      else if t.slots[slot].tutor != user then Reply(t, PermissionDenied)
      else if t.slots[slot].isBooked then Reply(t, FailedPrecondition)
      else if !ValidTimes(now, startsAt, endsAt) then Reply(t, InvalidArgument)
      else Commit(t, MoveSlot(schema, t, slot, startsAt, endsAt, now))
    case DeleteSlot(user, slot) =>
      if slot !in t.slots then Reply(t, NotFound)
      else if t.slots[slot].tutor != user then Reply(t, PermissionDenied)
      else if t.slots[slot].isBooked then Reply(t, FailedPrecondition)
      else Commit(t, RemoveSlot(schema, t, slot))
    case CreateLesson(user, slot, student, paired, newId) =>
      if slot !in t.slots then Reply(t, NotFound)
      else if t.slots[slot].isBooked then Reply(t, AlreadyExists)
      else if user != t.slots[slot].tutor && user != student then Reply(t, PermissionDenied)
      else if paired.None? then Reply(t, Internal)
      else if !paired.value then Reply(t, FailedPrecondition)
      else Commit(t, BookAtomic(schema, t, newId, NewLesson(slot, student, now)))
    case UpdateLesson(user, lesson, link, price, info) =>
      if lesson !in t.lessons then Reply(t, NotFound)
      else if t.lessons[lesson].slot !in t.slots then Reply(t, Internal)
      else if user != t.slots[t.lessons[lesson].slot].tutor then Reply(t, PermissionDenied)
      else if link.None? && price.None? && info.None? then Reply(t, Success)
      else Commit(t, WriteLesson(t, lesson, Merge(t.lessons[lesson], link, price, info, now)))
    case CancelLesson(user, lesson) =>
      if lesson !in t.lessons then Reply(t, NotFound)
      else if t.lessons[lesson].slot !in t.slots then Reply(t, Internal)
      else if user != t.slots[t.lessons[lesson].slot].tutor && user != t.lessons[lesson].student then
        Reply(t, PermissionDenied)
      else Reply(CancelAtomic(t, lesson, t.lessons[lesson].slot, now), Success)
    case MarkAsPaid(lesson) =>
      if lesson !in t.lessons then Reply(t, NotFound)
      else Commit(t, SetPaid(t, lesson))
    case UpdateCompletedLessons => Reply(CompletePast(t, now), Success)
  }

  // ---------------------------------------------------------------------- runs

  /** One served request. When the database fails the handler under it, took is false
      and nothing is stored; a commit whose reply is lost has took true. */
  datatype Served = Served(now: int, req: Request, took: bool)

  function Apply(schema: Schema, t: Tables, s: Served): Tables {
    if s.took then Serve(schema, t, s.now, s.req).tables else t
  }

  function Exec(schema: Schema, run: seq<Served>): Tables {
    if run == [] then EMPTY else Apply(schema, Exec(schema, run[..|run| - 1]), run[|run| - 1])
  }

  ghost predicate MonotoneClock(run: seq<Served>) {
    forall i, j :: 0 <= i < j < |run| ==> run[i].now <= run[j].now
  }
}

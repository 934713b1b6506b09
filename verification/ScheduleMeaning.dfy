/** What each request to schedule_service is answered and what it stores, column by column. */
module ScheduleMeaning {
  import opened Prelude
  import opened ScheduleModel

  // ------------------------------------------------------------- what is stored

  /** Slots other than those in slots, and lessons other than those in lessons, are the same. */
  ghost predicate OthersStay(t: Tables, t': Tables, slots: set<Id>, lessons: set<Id>) {
    && (forall s :: s !in slots ==> (s in t.slots <==> s in t'.slots))
    && (forall s :: s !in slots && s in t.slots ==> t'.slots[s] == t.slots[s])
    && (forall l :: l !in lessons ==> (l in t.lessons <==> l in t'.lessons))
    && (forall l :: l !in lessons && l in t.lessons ==> t'.lessons[l] == t.lessons[l])
  }

  /** A new free slot, with the requested tutor and times. */
  ghost predicate SlotStored(t: Tables, t': Tables, id: Id, tutor: Id, startsAt: int, endsAt: int, now: int) {
    && id !in t.slots && id in t'.slots
    && t'.slots[id].tutor == tutor && t'.slots[id].startsAt == startsAt && t'.slots[id].endsAt == endsAt
    && !t'.slots[id].isBooked && t'.slots[id].createdAt == now && t'.slots[id].editedAt == None
    && OthersStay(t, t', {id}, {})
  }

  /** The slot's times are the requested ones; tutor, flag and creation time stay. */
  ghost predicate SlotMoved(t: Tables, t': Tables, id: Id, startsAt: int, endsAt: int, now: int) {
    && id in t.slots && id in t'.slots
    && t'.slots[id].startsAt == startsAt && t'.slots[id].endsAt == endsAt && t'.slots[id].editedAt == Some(now)
    && t'.slots[id].tutor == t.slots[id].tutor && t'.slots[id].isBooked == t.slots[id].isBooked
    && t'.slots[id].createdAt == t.slots[id].createdAt
    && OthersStay(t, t', {id}, {})
  }

  ghost predicate SlotGone(t: Tables, t': Tables, id: Id) {
    id in t.slots && id !in t'.slots && OthersStay(t, t', {id}, {})
  }

  /** The slot's flag is b; its other columns stay. */
  ghost predicate Flagged(t: Tables, t': Tables, slot: Id, b: bool) {
    && slot in t.slots && slot in t'.slots && t'.slots[slot].isBooked == b
    && t'.slots[slot].tutor == t.slots[slot].tutor
    && t'.slots[slot].startsAt == t.slots[slot].startsAt && t'.slots[slot].endsAt == t.slots[slot].endsAt
    && t'.slots[slot].createdAt == t.slots[slot].createdAt && t'.slots[slot].editedAt == t.slots[slot].editedAt
  }

  /** A new lesson of this student on this slot: booked, unpaid and empty, created and edited now;
      and the slot, free before, is booked. */
  ghost predicate LessonBooked(t: Tables, t': Tables, id: Id, slot: Id, student: Id, now: int) {
    && id !in t.lessons && id in t'.lessons
    && t'.lessons[id].slot == slot && t'.lessons[id].student == student
    && t'.lessons[id].status == Booked && !t'.lessons[id].isPaid
    && t'.lessons[id].link == None && t'.lessons[id].price == None && t'.lessons[id].info == None
    && t'.lessons[id].createdAt == now && t'.lessons[id].editedAt == now
    && Flagged(t, t', slot, true) && !t.slots[slot].isBooked
    && OthersStay(t, t', {slot}, {id})
  }

  /** A present field lands in its column, an absent one leaves the column alone. */
  ghost predicate LessonEdited(t: Tables, t': Tables, id: Id, link: Option<string>, price: Option<int>,
                               info: Option<string>, now: int) {
    && id in t.lessons && id in t'.lessons
    && t'.lessons[id].link == (if link.Some? then link else t.lessons[id].link)
    && t'.lessons[id].price == (if price.Some? then price else t.lessons[id].price)
    && t'.lessons[id].info == (if info.Some? then info else t.lessons[id].info)
    && t'.lessons[id].editedAt == now
    && t'.lessons[id].slot == t.lessons[id].slot && t'.lessons[id].student == t.lessons[id].student
    && t'.lessons[id].status == t.lessons[id].status && t'.lessons[id].isPaid == t.lessons[id].isPaid
    && t'.lessons[id].createdAt == t.lessons[id].createdAt
    && OthersStay(t, t', {}, {id})
  }

  /** Everything in the lesson but status, payment and edit time is as it was. */
  ghost predicate ContentStays(was: Lesson, row: Lesson) {
    && row.slot == was.slot && row.student == was.student && row.link == was.link && row.price == was.price
    && row.info == was.info && row.createdAt == was.createdAt
  }

  ghost predicate LessonCancelled(t: Tables, t': Tables, id: Id, now: int) {
    && id in t.lessons && id in t'.lessons
    && t'.lessons[id].status == Cancelled && t'.lessons[id].editedAt == now
    && t'.lessons[id].isPaid == t.lessons[id].isPaid && ContentStays(t.lessons[id], t'.lessons[id])
    && Flagged(t, t', t.lessons[id].slot, false)
    && OthersStay(t, t', {t.lessons[id].slot}, {id})
  }

  ghost predicate LessonPaid(t: Tables, t': Tables, id: Id) {
    && id in t.lessons && id in t'.lessons
    && t'.lessons[id].isPaid && t'.lessons[id].status == t.lessons[id].status
    && t'.lessons[id].editedAt == t.lessons[id].editedAt && ContentStays(t.lessons[id], t'.lessons[id])
    && OthersStay(t, t', {}, {id})
  }

  /** Every booked lesson on an ended slot is completed now, and nothing else changes. */
  ghost predicate Swept(t: Tables, t': Tables, now: int) {
    && OthersStay(t, t', {}, t.lessons.Keys)
    && (forall l :: l in t.lessons ==> l in t'.lessons)
    && (forall l :: l in t.lessons ==>
          if t.lessons[l].status == Booked && t.lessons[l].slot in t.slots
             && t.slots[t.lessons[l].slot].endsAt < now then
            && t'.lessons[l].status == Completed && t'.lessons[l].editedAt == now
            && t'.lessons[l].isPaid == t.lessons[l].isPaid && ContentStays(t.lessons[l], t'.lessons[l])
          else t'.lessons[l] == t.lessons[l])
  }

  // --------------------------------------------------------------- every request

  /** Another slot of the tutor has exactly this interval. */
  ghost predicate SameInterval(t: Tables, id: Id, tutor: Id, startsAt: int, endsAt: int) {
    exists s :: s in t.slots && s != id && t.slots[s].tutor == tutor && t.slots[s].startsAt == startsAt
                && t.slots[s].endsAt == endsAt
  }

  lemma {:induction false} CreateSlotMeans(schema: Schema, t: Tables, now: int, user: Id, isTutor: bool, tutor: Id,
                                           startsAt: int, endsAt: int, id: Id)
    ensures var r := Serve(schema, t, now, CreateSlot(user, isTutor, tutor, startsAt, endsAt, id));
            if !isTutor || user != tutor then r == Reply(t, PermissionDenied)
            else if startsAt >= endsAt || startsAt < now then r == Reply(t, InvalidArgument)
            else if id in t.slots || (schema.uniqueInterval && SameInterval(t, id, tutor, startsAt, endsAt)) then
              r == Reply(t, Internal)
            else r.code == Success && SlotStored(t, r.tables, id, tutor, startsAt, endsAt, now)
  {
  }

  lemma {:induction false} UpdateSlotMeans(schema: Schema, t: Tables, now: int, user: Id, id: Id, startsAt: int,
                                           endsAt: int)
    ensures var r := Serve(schema, t, now, UpdateSlot(user, id, startsAt, endsAt));
            if id !in t.slots then r == Reply(t, NotFound)
            else if user != t.slots[id].tutor then r == Reply(t, PermissionDenied)
            else if t.slots[id].isBooked then r == Reply(t, FailedPrecondition)
            else if startsAt >= endsAt || startsAt < now then r == Reply(t, InvalidArgument)
            else if schema.uniqueInterval && SameInterval(t, id, t.slots[id].tutor, startsAt, endsAt) then
              r == Reply(t, Internal)
            else r.code == Success && SlotMoved(t, r.tables, id, startsAt, endsAt, now)
  {
  }

  lemma {:induction false} DeleteSlotMeans(schema: Schema, t: Tables, now: int, user: Id, id: Id)
    ensures var r := Serve(schema, t, now, DeleteSlot(user, id));
            if id !in t.slots then r == Reply(t, NotFound)
            else if user != t.slots[id].tutor then r == Reply(t, PermissionDenied)
            else if t.slots[id].isBooked then r == Reply(t, FailedPrecondition)
            else if schema.slotReference && exists l :: l in t.lessons && t.lessons[l].slot == id then
              r == Reply(t, Internal)
            else r.code == Success && SlotGone(t, r.tables, id)
  {
  }

  lemma {:induction false} CreateLessonMeans(schema: Schema, t: Tables, now: int, user: Id, slot: Id, student: Id,
                                             paired: Option<bool>, id: Id)
    ensures var r := Serve(schema, t, now, CreateLesson(user, slot, student, paired, id));
            if slot !in t.slots then r == Reply(t, NotFound)
            else if t.slots[slot].isBooked then r == Reply(t, AlreadyExists)
            else if user != t.slots[slot].tutor && user != student then r == Reply(t, PermissionDenied)
            else if paired == None then r == Reply(t, Internal)
            else if paired == Some(false) then r == Reply(t, FailedPrecondition)
            else if id in t.lessons
                    || (schema.uniqueSlot && exists l :: l in t.lessons && t.lessons[l].slot == slot) then
              r == Reply(t, Internal)
            else r.code == Success && LessonBooked(t, r.tables, id, slot, student, now)
  {
  }

  lemma {:induction false} UpdateLessonMeans(schema: Schema, t: Tables, now: int, user: Id, id: Id,
                                             link: Option<string>, price: Option<int>, info: Option<string>)
    ensures var r := Serve(schema, t, now, UpdateLesson(user, id, link, price, info));
            if id !in t.lessons then r == Reply(t, NotFound)
            else if t.lessons[id].slot !in t.slots then r == Reply(t, Internal)
            else if user != t.slots[t.lessons[id].slot].tutor then r == Reply(t, PermissionDenied)
            else if link == None && price == None && info == None then r == Reply(t, Success)
            else r.code == Success && LessonEdited(t, r.tables, id, link, price, info, now)
  {
  }

  lemma {:induction false} CancelLessonMeans(schema: Schema, t: Tables, now: int, user: Id, id: Id)
    ensures var r := Serve(schema, t, now, CancelLesson(user, id));
            if id !in t.lessons then r == Reply(t, NotFound)
            else if t.lessons[id].slot !in t.slots then r == Reply(t, Internal)
            else if user != t.slots[t.lessons[id].slot].tutor && user != t.lessons[id].student then
              r == Reply(t, PermissionDenied)
            else r.code == Success && LessonCancelled(t, r.tables, id, now)
  {
  }

  lemma {:induction false} MarkAsPaidMeans(schema: Schema, t: Tables, now: int, id: Id)
    ensures var r := Serve(schema, t, now, MarkAsPaid(id));
            if id !in t.lessons then r == Reply(t, NotFound)
            else r.code == Success && LessonPaid(t, r.tables, id)
  {
  }

  lemma {:induction false} SweepMeans(schema: Schema, t: Tables, now: int)
    ensures var r := Serve(schema, t, now, UpdateCompletedLessons);
            r.code == Success && Swept(t, r.tables, now)
  {
  }
}

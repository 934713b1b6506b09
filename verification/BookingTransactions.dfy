/** schedule_service at the statement grain: any number of handlers interleave, the two
    transactions run statement by statement under row locks (READ COMMITTED, FOR UPDATE),
    and any of them may die after any statement. */
module BookingTransactions {
  import opened Prelude
  import opened ScheduleModel

  /** The program as written has both checks: CreateLesson's own read of is_booked and the
      re-check under the row lock. Turning one off shows what the other is worth. */
  datatype Config = Config(schema: Schema, staleCheck: bool, lockedCheck: bool)

  datatype Job =
    | Book(lesson: Id, row: Lesson)
    | Cancel(lesson: Id, at: int)
    | Delete(slot: Id)
    | Move(slot: Id, startsAt: int, endsAt: int, at: int)
    | Edit(lesson: Id, link: Option<string>, price: Option<int>, info: Option<string>, at: int)

  /** How far a handler is: Ready once its own reads have passed, then one phase for every
      statement of its transaction that has been executed. */
  datatype Phase = Fresh | Ready | First | Second | Third | Done(committed: bool)

  /** seen is the lesson row the handler read and keeps in memory. */
  datatype Tx = Tx(job: Job, phase: Phase, seen: Option<Lesson>)

  datatype Event = SlotBooked(slot: Id, lesson: Id) | SlotFreed(slot: Id)

  /** db holds committed rows only; a transaction's own writes live in its phase until it
      commits. issued are the UUIDs drawn so far, log the committed bookings and freeings. */
  datatype Machine = Machine(db: Tables, txs: map<Id, Tx>, issued: set<Id>, log: seq<Event>)

  const INITIAL := Machine(EMPTY, map[], {}, [])

  // --------------------------------------------------------------------- locks

  function SlotLock(tx: Tx): Option<Id> {
    if tx.job.Book? && (tx.phase.First? || tx.phase.Second? || tx.phase.Third?) then Some(tx.job.row.slot)
    else if tx.job.Cancel? && tx.phase.Second? && tx.seen.Some? then Some(tx.seen.value.slot)
    else None
  }

  function LessonLock(tx: Tx): Option<Id> {
    if tx.job.Cancel? && (tx.phase.First? || tx.phase.Second?) then Some(tx.job.lesson) else None
  }

  /** The row lock the next statement of tx has to take: on a slot, or on a lesson. */
  function WantsSlot(tx: Tx): Option<Id> {
    match tx.job
    case Book(_, row) => if tx.phase.Ready? then Some(row.slot) else None
    case Cancel(_, _) => if tx.phase.First? && tx.seen.Some? then Some(tx.seen.value.slot) else None
    case Delete(slot) => if tx.phase.Ready? then Some(slot) else None
    case Move(slot, _, _, _) => if tx.phase.Ready? then Some(slot) else None
    case Edit(_, _, _, _, _) => None
  }

  function WantsLesson(tx: Tx): Option<Id> {
    match tx.job
    case Cancel(lesson, _) => if tx.phase.Ready? then Some(lesson) else None
    case Edit(lesson, _, _, _, _) => if tx.phase.Ready? then Some(lesson) else None
    case _ => None
  }

  /** t has to wait for u. */
  predicate WaitsFor(c: Machine, t: Id, u: Id) {
    && t in c.txs && u in c.txs && t != u
    && ((WantsSlot(c.txs[t]).Some? && WantsSlot(c.txs[t]) == SlotLock(c.txs[u]))
        || (WantsLesson(c.txs[t]).Some? && WantsLesson(c.txs[t]) == LessonLock(c.txs[u])))
  }

  predicate Waits(c: Machine, t: Id) {
    exists u :: u in c.txs && WaitsFor(c, t, u)
  }

  predicate LessonUnlocked(c: Machine, l: Id) {
    forall u :: u in c.txs ==> LessonLock(c.txs[u]) != Some(l)
  }

  // --------------------------------------------------------------------- steps

  function Enter(c: Machine, t: Id, tx: Tx): Machine { c.(txs := c.txs[t := tx]) }

  function End(c: Machine, t: Id, committed: bool): Machine
    requires t in c.txs
  {
    Enter(c, t, c.txs[t].(phase := Done(committed)))
  }

  function DoBook(cfg: Config, c: Machine, t: Id): Machine
    requires t in c.txs && c.txs[t].job.Book?
  {
    var tx := c.txs[t];
    var slot, id, row := tx.job.row.slot, tx.job.lesson, tx.job.row;
    match tx.phase
    case Fresh =>
      if slot !in c.db.slots || (cfg.staleCheck && c.db.slots[slot].isBooked) then End(c, t, false)
      else Enter(c, t, tx.(phase := Ready))
    case Ready =>
      if slot !in c.db.slots || (cfg.lockedCheck && c.db.slots[slot].isBooked) then End(c, t, false)
      else Enter(c, t, tx.(phase := First))
    case First => Enter(c, t, tx.(phase := Second))
    case Second =>
      if InsertLesson(cfg.schema, SetBooked(c.db, slot, true), id, row).Err? then End(c, t, false)
      else Enter(c, t, tx.(phase := Third))
    case Third =>
      var marked := SetBooked(c.db, slot, true);
      End(c, t, true).(db := marked.(lessons := marked.lessons[id := row]), log := c.log + [SlotBooked(slot, id)])
    case Done(_) => c
  }

  function DoCancel(c: Machine, t: Id): Machine
    requires t in c.txs && c.txs[t].job.Cancel?
  {
    var tx := c.txs[t];
    var id := tx.job.lesson;
    match tx.phase
    case Fresh =>
      if id !in c.db.lessons || c.db.lessons[id].slot !in c.db.slots then End(c, t, false)
      else Enter(c, t, tx.(phase := Ready, seen := Some(c.db.lessons[id])))
    case Ready => Enter(c, t, tx.(phase := First))
    case First => Enter(c, t, tx.(phase := Second))
    case Second =>
      if tx.seen.None? then c
      else
        var slot := tx.seen.value.slot;
        End(c, t, true).(db := CancelAtomic(c.db, id, slot, tx.job.at), log := c.log + [SlotFreed(slot)])
    case _ => c
  }

  /** UpdateSlot and DeleteSlot: a guard on a read, then one statement on its own. */
  function DoSlot(cfg: Config, c: Machine, t: Id): Machine
    requires t in c.txs && (c.txs[t].job.Delete? || c.txs[t].job.Move?)
  {
    var tx := c.txs[t];
    var slot := tx.job.slot;
    match tx.phase
    case Fresh =>
      if slot !in c.db.slots || c.db.slots[slot].isBooked then End(c, t, false)
      else Enter(c, t, tx.(phase := Ready))
    case Ready =>
      var r := if tx.job.Delete? then RemoveSlot(cfg.schema, c.db, slot)
               else MoveSlot(cfg.schema, c.db, slot, tx.job.startsAt, tx.job.endsAt, tx.job.at);
      if r.Err? then End(c, t, false) else End(c, t, true).(db := r.value)
    case _ => c
  }

  /** UpdateLesson: the row read earlier is merged with the request and written back whole. */
  function DoEdit(c: Machine, t: Id): Machine
    requires t in c.txs && c.txs[t].job.Edit?
  {
    var tx := c.txs[t];
    var id := tx.job.lesson;
    match tx.phase
    case Fresh =>
      if id !in c.db.lessons || c.db.lessons[id].slot !in c.db.slots then End(c, t, false)
      else Enter(c, t, tx.(phase := Ready, seen := Some(c.db.lessons[id])))
    case Ready =>
      if tx.seen.None? then c
      else
        var r := WriteLesson(c.db, id, Merge(tx.seen.value, tx.job.link, tx.job.price, tx.job.info, tx.job.at));
        if r.Err? then End(c, t, false) else End(c, t, true).(db := r.value)
    case _ => c
  }

  datatype Action =
    | Publish(id: Id, slot: Slot)     // CreateSlot's insert, under a new UUID
    | Begin(t: Id, job: Job)          // a handler starts
    | Do(t: Id)                       // it executes its next statement, or waits
    | Fail(t: Id)                     // it dies: rollback
    | Pay(lesson: Id)                 // MarkAsPaid's statement
    | Sweep(lesson: Id, at: int)      // UpdateCompletedLessons reaches this row

  function Step(cfg: Config, c: Machine, a: Action): Machine {
    match a
    case Publish(id, slot) =>
      if id in c.issued || slot.isBooked then c
      else
        var r := InsertSlot(cfg.schema, c.db, id, slot);
        if r.Err? then c.(issued := c.issued + {id}) else c.(db := r.value, issued := c.issued + {id})
    case Begin(t, job) =>
      if t in c.txs then c
      else if !job.Book? then Enter(c, t, Tx(job, Fresh, None))
      else if job.lesson in c.issued || !job.row.status.Booked? || job.row.isPaid then c
      else Enter(c, t, Tx(job, Fresh, None)).(issued := c.issued + {job.lesson})
    case Do(t) =>
      if t !in c.txs || Waits(c, t) then c
      else if c.txs[t].job.Book? then DoBook(cfg, c, t)
      else if c.txs[t].job.Cancel? then DoCancel(c, t)
      else if c.txs[t].job.Edit? then DoEdit(c, t)
      else DoSlot(cfg, c, t)
    case Fail(t) =>
      if t !in c.txs || c.txs[t].phase.Done? then c else End(c, t, false)
    case Pay(l) =>
      if l !in c.db.lessons || !LessonUnlocked(c, l) then c else c.(db := SetPaid(c.db, l).value)
    case Sweep(l, at) =>
      if l !in c.db.lessons || !LessonUnlocked(c, l) || !Finished(c.db, l, at) then c
      else c.(db := SetStatus(c.db, l, Completed, at))
  }

  /** Any sequence of actions is an interleaving; an action that cannot happen is skipped. */
  function Interleave(cfg: Config, run: seq<Action>): Machine {
    if run == [] then INITIAL else Step(cfg, Interleave(cfg, run[..|run| - 1]), run[|run| - 1])
  }

  // ----------------------------------------------------------------- invariant

  function LastBooks(log: seq<Event>, slot: Id): bool {
    if log == [] then false
    else
      var e := log[|log| - 1];
      if e.slot == slot then e.SlotBooked? else LastBooks(log[..|log| - 1], slot)
  }

  predicate InTransaction(tx: Tx) { tx.phase.First? || tx.phase.Second? || tx.phase.Third? }

  ghost predicate LocksExclusive(c: Machine) {
    && (forall t, u | t in c.txs && u in c.txs && t != u ::
        SlotLock(c.txs[t]).None? || SlotLock(c.txs[t]) != SlotLock(c.txs[u]))
    && (forall t, u | t in c.txs && u in c.txs && t != u ::
        LessonLock(c.txs[t]).None? || LessonLock(c.txs[t]) != LessonLock(c.txs[u]))
  }

  /** What a booking handler may rely on in each phase. */
  ghost predicate BookOk(cfg: Config, c: Machine, tx: Tx)
    requires tx.job.Book?
  {
    && tx.job.lesson in c.issued
    && tx.job.row.status.Booked?
    && (!tx.phase.Done? ==> tx.job.lesson !in c.db.lessons)
    && (InTransaction(tx) ==> tx.job.row.slot in c.db.slots)
    && (InTransaction(tx) && cfg.lockedCheck ==> !c.db.slots[tx.job.row.slot].isBooked)
    && (tx.phase.Third? && cfg.schema.uniqueSlot ==> !Referenced(c.db, tx.job.row.slot))
  }

  ghost predicate BookingsOk(cfg: Config, c: Machine) {
    && (forall t | t in c.txs && c.txs[t].job.Book? :: BookOk(cfg, c, c.txs[t]))
    && (forall t, u | t in c.txs && u in c.txs && t != u && c.txs[t].job.Book? && c.txs[u].job.Book?
          :: c.txs[t].job.lesson != c.txs[u].job.lesson)
  }

  /** A handler holding a lesson row in memory holds one that exists, with its slot id. */
  ghost predicate SeenOk(c: Machine, tx: Tx) {
    tx.job.Cancel? && !tx.phase.Fresh? && !tx.phase.Done? ==>
      tx.seen.Some? && tx.job.lesson in c.db.lessons && tx.seen.value.slot == c.db.lessons[tx.job.lesson].slot
      && tx.seen.value.slot in c.issued
  }

  ghost predicate LogOk(c: Machine) {
    && c.db.slots.Keys <= c.issued
    && (forall s :: s in c.db.slots ==> c.db.slots[s].isBooked == LastBooks(c.log, s))
    && (forall e :: e in c.log ==> e.slot in c.issued)
  }

  ghost predicate Inv(cfg: Config, c: Machine) {
    && LocksExclusive(c)
    && BookingsOk(cfg, c)
    && (forall t :: t in c.txs ==> SeenOk(c, c.txs[t]))
    && LogOk(c)
    && c.db.lessons.Keys <= c.issued
  }
}

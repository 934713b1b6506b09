/** UpdateLesson writes back a row it read earlier. When an interleaving keeps the booked flag,
    and when it keeps lessons climbing, to the step. */
module StaleEdits {
  import opened Prelude
  import opened ScheduleModel
  import opened BookedFlag
  import opened LessonHistory
  import opened BookingTransactions
  import opened BookingProofs
  import opened BookingHistory

  // ------------------------------------------------------------- the flag, one step

  /** The committed rows when the migration's constraints hold. */
  ghost predicate Sound(t: Tables) {
    && Agreement(t)
    && OneLessonPerSlot(t)
    && (forall l :: l in t.lessons ==> t.lessons[l].slot in t.slots)
  }

  lemma BookKeepsSound(schema: Schema, t: Tables, id: Id, lesson: Lesson)
    requires schema.uniqueSlot && schema.slotReference
    requires Sound(t) && lesson.status.Booked?
    ensures var r := BookAtomic(schema, t, id, lesson); r.Ok? ==> Sound(r.value)
  {
    BookKeepsAgreement(schema, t, id, lesson);
    assert Referenced(t, lesson.slot) ==> Referenced(SetBooked(t, lesson.slot, true), lesson.slot);
  }

  lemma SlotStatementKeepsSound(schema: Schema, t: Tables, t': Tables, id: Id)
    requires schema.uniqueSlot && schema.slotReference && Sound(t)
    requires || (exists slot: Slot :: InsertSlot(schema, t, id, slot) == Ok(t') && !slot.isBooked)
             || (exists a, b, at :: MoveSlot(schema, t, id, a, b, at) == Ok(t'))
             || RemoveSlot(schema, t, id) == Ok(t')
    ensures Sound(t')
  {
    assert HasLive(t, id) ==> Referenced(t, id);
    SameLivenessKeepsAgreement(t, t');
  }

  lemma LessonStatementKeepsSound(t: Tables, t': Tables)
    requires Sound(t) && t'.slots == t.slots && t'.lessons.Keys == t.lessons.Keys
    requires forall l :: l in t.lessons ==>
             t'.lessons[l].slot == t.lessons[l].slot && Live(t'.lessons[l]) == Live(t.lessons[l])
    ensures Sound(t')
  {
    SameLivenessKeepsAgreement(t, t');
  }

  /** A step that is not an UpdateLesson's write keeps the committed rows sound. */
  lemma DoKeepsSound(cfg: Config, c: Machine, t: Id)
    requires cfg.lockedCheck && cfg.schema.uniqueSlot && cfg.schema.slotReference
    requires Inv(cfg, c) && Sound(c.db) && Runs(c, Do(t)) && !c.txs[t].job.Edit?
    ensures Sound(Step(cfg, c, Do(t)).db)
  {
    var db := Step(cfg, c, Do(t)).db;
    var tx := c.txs[t];
    if db == c.db {
    } else if tx.job.Book? {
      assert BookOk(cfg, c, tx);
      BookCommitIsAtomic(cfg, c, t);
      BookKeepsSound(cfg.schema, c.db, tx.job.lesson, tx.job.row);
    } else if tx.job.Cancel? {
      assert SeenOk(c, tx);
      CancelFrees(c.db, tx.job.lesson, tx.job.at);
    } else {
      SlotStatementKeepsSound(cfg.schema, c.db, db, tx.job.slot);
    }
  }

  lemma OtherStepsKeepSound(cfg: Config, c: Machine, a: Action)
    requires cfg.lockedCheck && cfg.schema.uniqueSlot && cfg.schema.slotReference
    requires Inv(cfg, c) && Sound(c.db) && !EditWrites(c, a)
    ensures Sound(Step(cfg, c, a).db)
  {
    var db := Step(cfg, c, a).db;
    if db == c.db {
    } else if a.Do? {
      DoKeepsSound(cfg, c, a.t);
    } else if a.Publish? {
      SlotStatementKeepsSound(cfg.schema, c.db, db, a.id);
    } else {
      LessonStatementKeepsSound(c.db, db);
    }
  }

  /** The row an UpdateLesson holds and the row it overwrites. */
  function Seen(c: Machine, a: Action): Lesson
    requires EditWrites(c, a)
  {
    c.txs[a.t].seen.value
  }

  function Target(c: Machine, a: Action): Lesson
    requires EditWrites(c, a)
  {
    c.db.lessons[c.txs[a.t].job.lesson]
  }

  lemma {:induction false} WhatIsWritten(cfg: Config, c: Machine, a: Action)
    requires EditWrites(c, a)
    ensures var l := c.txs[a.t].job.lesson; var db := Step(cfg, c, a).db; var row := Target(c, a);
            && db.slots == c.db.slots && db.lessons.Keys == c.db.lessons.Keys
            && (forall m :: m in c.db.lessons && m != l ==> db.lessons[m] == c.db.lessons[m])
            && db.lessons[l].slot == row.slot && db.lessons[l].student == row.student
            && db.lessons[l].status == Seen(c, a).status && db.lessons[l].isPaid == Seen(c, a).isPaid
  {
  }

  /** An UpdateLesson's write keeps the flag right exactly when the lesson is live in the row
      it read just when it is live in the row it overwrites. */
  lemma EditKeepsSoundIff(cfg: Config, c: Machine, a: Action)
    requires EditWrites(c, a) && Sound(c.db)
    ensures Sound(Step(cfg, c, a).db) <==> Live(Seen(c, a)) == Live(Target(c, a))
  {
    WhatIsWritten(cfg, c, a);
    var l := c.txs[a.t].job.lesson;
    var db := Step(cfg, c, a).db;
    var s := c.db.lessons[l].slot;
    if Live(Seen(c, a)) == Live(Target(c, a)) {
      LessonStatementKeepsSound(c.db, db);
    } else if Live(Seen(c, a)) {
      assert Live(db.lessons[l]) && !HasLive(c.db, s);
      assert !db.slots[s].isBooked;
    } else {
      assert Live(c.db.lessons[l]) && c.db.slots[s].isBooked;
      assert !HasLive(db, s);
    }
  }

  // ------------------------------------------------------------- the flag, whole runs

  ghost predicate SoundThrough(cfg: Config, run: seq<Action>, n: nat)
    requires n <= |run|
  {
    forall m | 0 <= m <= n :: Sound(At(cfg, run, m).db)
  }

  /** Between two sound states a lesson comes to life never, and dies only by cancellation. */
  lemma {:induction false} DeathStep(cfg: Config, c: Machine, a: Action, l: Id)
    requires cfg.lockedCheck && Inv(cfg, c) && l in c.db.lessons
    requires Sound(c.db) && Sound(Step(cfg, c, a).db)
    ensures var db := Step(cfg, c, a).db;
            && l in db.lessons && (Live(db.lessons[l]) ==> Live(c.db.lessons[l]))
            && (Live(c.db.lessons[l]) && !Live(db.lessons[l]) ==> CancelsLive(c, a, l))
  {
    if EditWrites(c, a) {
      EditKeepsSoundIff(cfg, c, a);
      WhatIsWritten(cfg, c, a);
    } else {
      RowStep(cfg, c, a, l);
    }
  }

  predicate LiveAt(cfg: Config, run: seq<Action>, n: nat, l: Id)
    requires n <= |run|
  {
    l in At(cfg, run, n).db.lessons && Live(At(cfg, run, n).db.lessons[l])
  }

  /** At step n lesson l does not come to life, and dies only by cancellation. */
  predicate Fades(cfg: Config, run: seq<Action>, n: nat, l: Id)
    requires n < |run|
  {
    && (l in At(cfg, run, n).db.lessons ==> l in At(cfg, run, n + 1).db.lessons)
    && (l in At(cfg, run, n).db.lessons && LiveAt(cfg, run, n + 1, l) ==> LiveAt(cfg, run, n, l))
    && (LiveAt(cfg, run, n, l) && !LiveAt(cfg, run, n + 1, l) ==> CancelsLive(At(cfg, run, n), run[n], l))
  }

  lemma {:induction false} FadesAt(cfg: Config, run: seq<Action>, n: nat, l: Id)
    requires cfg.lockedCheck && n < |run|
    requires Sound(At(cfg, run, n).db) && Sound(At(cfg, run, n + 1).db)
    ensures Fades(cfg, run, n, l)
  {
    InvAt(cfg, run, n);
    StepAt(cfg, run, n);
    if l in At(cfg, run, n).db.lessons {
      DeathStep(cfg, At(cfg, run, n), run[n], l);
    }
  }

  ghost predicate FadesThrough(cfg: Config, run: seq<Action>, n: nat, l: Id)
    requires n <= |run|
  {
    forall m | 0 <= m < n :: Fades(cfg, run, m, l)
  }

  lemma {:induction false} SoundFades(cfg: Config, run: seq<Action>, n: nat, l: Id)
    requires cfg.lockedCheck && n <= |run| && SoundThrough(cfg, run, n)
    ensures FadesThrough(cfg, run, n, l)
  {
    forall m | 0 <= m < n
      ensures Fades(cfg, run, m, l)
    {
      FadesAt(cfg, run, m, l);
    }
  }

  lemma {:induction false} NoRising(cfg: Config, run: seq<Action>, i: nat, n: nat, l: Id)
    requires i <= n <= |run| && FadesThrough(cfg, run, n, l) && l in At(cfg, run, i).db.lessons
    ensures l in At(cfg, run, n).db.lessons
    ensures LiveAt(cfg, run, n, l) ==> LiveAt(cfg, run, i, l)
    decreases n
  {
    if i < n {
      NoRising(cfg, run, i, n - 1, l);
      assert Fades(cfg, run, n - 1, l);
    }
  }

  lemma {:induction false} DeathByCancel(cfg: Config, run: seq<Action>, i: nat, n: nat, l: Id) returns (j: nat)
    requires i <= n <= |run| && FadesThrough(cfg, run, n, l) && LiveAt(cfg, run, i, l) && !LiveAt(cfg, run, n, l)
    ensures i <= j < n && CancelsLive(At(cfg, run, j), run[j], l)
    decreases n
  {
    assert Fades(cfg, run, n - 1, l);
    if LiveAt(cfg, run, n - 1, l) {
      j := n - 1;
    } else {
      j := DeathByCancel(cfg, run, i, n - 1, l);
    }
  }

  /** An UpdateLesson reads at i and writes at k. */
  ghost predicate Spans(cfg: Config, run: seq<Action>, i: nat, k: nat) {
    && i < k < |run| && EditReads(At(cfg, run, i), run[i]) && EditWrites(At(cfg, run, k), run[k])
    && run[i].t == run[k].t
  }

  function LessonRead(cfg: Config, run: seq<Action>, i: nat): Id
    requires i < |run| && EditReads(At(cfg, run, i), run[i])
  {
    At(cfg, run, i).txs[run[i].t].job.lesson
  }

  lemma {:induction false} SpanHolds(cfg: Config, run: seq<Action>, i: nat, k: nat)
    requires Spans(cfg, run, i, k)
    ensures var l := LessonRead(cfg, run, i);
            && At(cfg, run, k).txs[run[k].t].job.lesson == l
            && Seen(At(cfg, run, k), run[k]) == At(cfg, run, i).db.lessons[l]
  {
    SnapshotHeld(cfg, run, i, k);
  }

  lemma {:induction false} SpanOf(cfg: Config, run: seq<Action>, k: nat) returns (i: nat)
    requires k < |run| && EditWrites(At(cfg, run, k), run[k])
    ensures Spans(cfg, run, i, k)
  {
    i := SnapshotRead(cfg, run, k, run[k].t);
  }

  /** Between an UpdateLesson's read at i and its write at k, the cancellation of its lesson
      commits at j. */
  ghost predicate CancelOvertakes(cfg: Config, run: seq<Action>, i: nat, j: nat, k: nat) {
    Spans(cfg, run, i, k) && i < j < k && CancelsLive(At(cfg, run, j), run[j], LessonRead(cfg, run, i))
  }

  lemma {:induction false} CancelKills(cfg: Config, run: seq<Action>, n: nat, l: Id)
    requires n < |run| && CancelsLive(At(cfg, run, n), run[n], l)
    ensures l in At(cfg, run, n + 1).db.lessons && !LiveAt(cfg, run, n + 1, l)
  {
    StepAt(cfg, run, n);
  }

  lemma {:induction false} WriteAt(cfg: Config, run: seq<Action>, n: nat)
    requires n < |run| && EditWrites(At(cfg, run, n), run[n]) && Sound(At(cfg, run, n).db)
    ensures var c := At(cfg, run, n);
            Sound(At(cfg, run, n + 1).db) <==> Live(Seen(c, run[n])) == Live(Target(c, run[n]))
  {
    StepAt(cfg, run, n);
    EditKeepsSoundIff(cfg, At(cfg, run, n), run[n]);
  }

  lemma {:induction false} OtherAt(cfg: Config, run: seq<Action>, n: nat)
    requires cfg.lockedCheck && cfg.schema.uniqueSlot && cfg.schema.slotReference
    requires n < |run| && !EditWrites(At(cfg, run, n), run[n]) && Sound(At(cfg, run, n).db)
    ensures Sound(At(cfg, run, n + 1).db)
  {
    InvAt(cfg, run, n);
    StepAt(cfg, run, n);
    OtherStepsKeepSound(cfg, At(cfg, run, n), run[n]);
  }

  lemma {:induction false} DeadAtWrite(cfg: Config, run: seq<Action>, i: nat, j: nat, k: nat, l: Id)
    requires i < j < k < |run| && FadesThrough(cfg, run, k, l)
    requires l in At(cfg, run, i).db.lessons && CancelsLive(At(cfg, run, j), run[j], l)
    ensures LiveAt(cfg, run, i, l) && l in At(cfg, run, k).db.lessons && !LiveAt(cfg, run, k, l)
  {
    assert FadesThrough(cfg, run, j, l);
    NoRising(cfg, run, i, j, l);
    CancelKills(cfg, run, j, l);
    NoRising(cfg, run, j + 1, k, l);
  }

  lemma {:induction false} OvertakingBreaks(cfg: Config, run: seq<Action>, i: nat, j: nat, k: nat)
    requires cfg.lockedCheck && CancelOvertakes(cfg, run, i, j, k)
    ensures !SoundThrough(cfg, run, k + 1)
  {
    if SoundThrough(cfg, run, k + 1) {
      var l := LessonRead(cfg, run, i);
      SpanHolds(cfg, run, i, k);
      SoundFades(cfg, run, k, l);
      DeadAtWrite(cfg, run, i, j, k, l);
      WriteAt(cfg, run, k);
    }
  }

  /** If a write breaks the flag, a cancellation has overtaken it. */
  lemma {:induction false} BreakIsOvertaken(cfg: Config, run: seq<Action>, k: nat) returns (i: nat, j: nat)
    requires cfg.lockedCheck && k < |run| && SoundThrough(cfg, run, k) && EditWrites(At(cfg, run, k), run[k])
    requires Live(Seen(At(cfg, run, k), run[k])) != Live(Target(At(cfg, run, k), run[k]))
    ensures CancelOvertakes(cfg, run, i, j, k)
  {
    i := SpanOf(cfg, run, k);
    SpanHolds(cfg, run, i, k);
    var l := LessonRead(cfg, run, i);
    SoundFades(cfg, run, k, l);
    NoRising(cfg, run, i, k, l);
    j := DeathByCancel(cfg, run, i, k, l);
  }

  lemma {:induction false} StaysSound(cfg: Config, run: seq<Action>, n: nat)
    requires cfg.lockedCheck && cfg.schema.uniqueSlot && cfg.schema.slotReference && n <= |run|
    requires forall i: nat, j: nat, k: nat :: !CancelOvertakes(cfg, run, i, j, k)
    ensures SoundThrough(cfg, run, n)
  {
    if n == 0 {
      NothingYet(cfg, run);
    } else {
      StaysSound(cfg, run, n - 1);
      var c := At(cfg, run, n - 1);
      if EditWrites(c, run[n - 1]) {
        if Live(Seen(c, run[n - 1])) != Live(Target(c, run[n - 1])) {
          var i, j := BreakIsOvertaken(cfg, run, n - 1);
        }
        WriteAt(cfg, run, n - 1);
      } else {
        OtherAt(cfg, run, n - 1);
      }
    }
  }

  /** With the migration's constraints, is_booked agrees with the lessons table in every state
      of an interleaving if and only if no UpdateLesson writes back a lesson whose cancellation
      committed since it was read. */
  lemma {:induction false} FlagHoldsIff(cfg: Config, run: seq<Action>)
    requires cfg.lockedCheck && cfg.schema.uniqueSlot && cfg.schema.slotReference
    ensures (forall n | 0 <= n <= |run| :: Sound(At(cfg, run, n).db))
            <==> !exists i: nat, j: nat, k: nat :: CancelOvertakes(cfg, run, i, j, k)
  {
    if i: nat, j: nat, k: nat :| CancelOvertakes(cfg, run, i, j, k) {
      OvertakingBreaks(cfg, run, i, j, k);
    } else {
      StaysSound(cfg, run, |run|);
    }
  }

  // ------------------------------------------------------------- lessons that only climb

  /** The step lifts lesson l: cancels it, completes it or pays it. */
  predicate Lifts(c: Machine, a: Action, l: Id) {
    CancelsLive(c, a, l) || Pays(c, a, l) || Completes(c, a, l)
  }

  /** What a step other than an UpdateLesson's write does to a lesson row. */
  lemma {:induction false} RowStep(cfg: Config, c: Machine, a: Action, l: Id)
    requires cfg.lockedCheck && Inv(cfg, c) && l in c.db.lessons && !EditWrites(c, a)
    ensures var db := Step(cfg, c, a).db; var row := c.db.lessons[l];
            && l in db.lessons && db.lessons[l].slot == row.slot && db.lessons[l].student == row.student
            && Rank(row.status) <= Rank(db.lessons[l].status) && (row.isPaid ==> db.lessons[l].isPaid)
            && (db.lessons[l].status != row.status || db.lessons[l].isPaid != row.isPaid ==> Lifts(c, a, l))
            && (Live(row) && !Live(db.lessons[l]) ==> CancelsLive(c, a, l))
  {
    if Runs(c, a) {
      var tx := c.txs[a.t];
      if tx.job.Book? { assert BookOk(cfg, c, tx); }
      if tx.job.Cancel? { assert SeenOk(c, tx); }
    }
  }

  lemma {:induction false} OtherStepsClimb(cfg: Config, c: Machine, a: Action)
    requires cfg.lockedCheck && Inv(cfg, c) && !EditWrites(c, a)
    ensures Climbs(c.db, Step(cfg, c, a).db)
  {
    forall l | l in c.db.lessons
      ensures var db := Step(cfg, c, a).db; var row := c.db.lessons[l];
              && l in db.lessons && db.lessons[l].slot == row.slot && db.lessons[l].student == row.student
              && Rank(row.status) <= Rank(db.lessons[l].status) && (row.isPaid ==> db.lessons[l].isPaid)
    {
      RowStep(cfg, c, a, l);
    }
  }

  /** a row at least as far as another. */
  predicate AtLeast(row: Lesson, than: Lesson) {
    Rank(than.status) <= Rank(row.status) && (than.isPaid ==> row.isPaid)
  }

  /** An UpdateLesson's write takes nothing back exactly when the row it read is at least as
      far as the row it overwrites. */
  lemma {:induction false} EditClimbsIff(cfg: Config, c: Machine, a: Action)
    requires EditWrites(c, a)
    ensures Climbs(c.db, Step(cfg, c, a).db) <==> AtLeast(Seen(c, a), Target(c, a))
  {
    WhatIsWritten(cfg, c, a);
    var db := Step(cfg, c, a).db;
    forall l | l in c.db.lessons && l != c.txs[a.t].job.lesson
      ensures db.lessons[l] == c.db.lessons[l]
    {
    }
  }

  ghost predicate ClimbsAt(cfg: Config, run: seq<Action>, n: nat)
    requires n < |run|
  {
    Climbs(At(cfg, run, n).db, At(cfg, run, n + 1).db)
  }

  ghost predicate ClimbsThrough(cfg: Config, run: seq<Action>, n: nat)
    requires n <= |run|
  {
    forall m | 0 <= m < n :: ClimbsAt(cfg, run, m)
  }

  lemma {:induction false} ClimbsSpan(cfg: Config, run: seq<Action>, i: nat, n: nat)
    requires i <= n <= |run| && ClimbsThrough(cfg, run, n)
    ensures Climbs(At(cfg, run, i).db, At(cfg, run, n).db)
    decreases n
  {
    if i < n {
      ClimbsSpan(cfg, run, i, n - 1);
      assert ClimbsAt(cfg, run, n - 1);
    }
  }

  lemma {:induction false} OtherClimbsAt(cfg: Config, run: seq<Action>, n: nat)
    requires cfg.lockedCheck && n < |run| && !EditWrites(At(cfg, run, n), run[n])
    ensures ClimbsAt(cfg, run, n)
  {
    InvAt(cfg, run, n);
    StepAt(cfg, run, n);
    OtherStepsClimb(cfg, At(cfg, run, n), run[n]);
  }

  lemma {:induction false} EditClimbsAt(cfg: Config, run: seq<Action>, n: nat)
    requires n < |run| && EditWrites(At(cfg, run, n), run[n])
    ensures var c := At(cfg, run, n); ClimbsAt(cfg, run, n) <==> AtLeast(Seen(c, run[n]), Target(c, run[n]))
  {
    StepAt(cfg, run, n);
    EditClimbsIff(cfg, At(cfg, run, n), run[n]);
  }

  /** The row of l at n, if there is one. */
  predicate SameRow(cfg: Config, run: seq<Action>, i: nat, n: nat, l: Id)
    requires i <= n <= |run|
  {
    && l in At(cfg, run, i).db.lessons && l in At(cfg, run, n).db.lessons
    && At(cfg, run, n).db.lessons[l].status == At(cfg, run, i).db.lessons[l].status
    && At(cfg, run, n).db.lessons[l].isPaid == At(cfg, run, i).db.lessons[l].isPaid
  }

  /** Where every step so far has climbed, only a lifting changes a lesson's status or payment:
      an UpdateLesson that took nothing back has added nothing either. */
  lemma {:induction false} ChangeIsLift(cfg: Config, run: seq<Action>, n: nat, l: Id)
    requires cfg.lockedCheck && n < |run| && ClimbsThrough(cfg, run, n + 1)
    requires l in At(cfg, run, n).db.lessons && !Lifts(At(cfg, run, n), run[n], l)
    ensures SameRow(cfg, run, n, n + 1, l)
  {
    StepAt(cfg, run, n);
    var c := At(cfg, run, n);
    if EditWrites(c, run[n]) {
      WhatIsWritten(cfg, c, run[n]);
      var i := SpanOf(cfg, run, n);
      SpanHolds(cfg, run, i, n);
      assert ClimbsThrough(cfg, run, n);
      ClimbsSpan(cfg, run, i, n);
      assert ClimbsAt(cfg, run, n);
      EditClimbsAt(cfg, run, n);
    } else {
      InvAt(cfg, run, n);
      RowStep(cfg, c, run[n], l);
    }
  }

  /** Between an UpdateLesson's read at i and its write at k, its lesson is cancelled, completed
      or paid at j. */
  ghost predicate LiftOvertakes(cfg: Config, run: seq<Action>, i: nat, j: nat, k: nat) {
    Spans(cfg, run, i, k) && i < j < k && Lifts(At(cfg, run, j), run[j], LessonRead(cfg, run, i))
  }

  lemma {:induction false} NoLiftNoChange(cfg: Config, run: seq<Action>, i: nat, n: nat, l: Id)
    requires cfg.lockedCheck && i <= n <= |run| && ClimbsThrough(cfg, run, n) && l in At(cfg, run, i).db.lessons
    requires forall j | i <= j < n :: !Lifts(At(cfg, run, j), run[j], l)
    ensures SameRow(cfg, run, i, n, l)
    decreases n
  {
    if i < n {
      NoLiftNoChange(cfg, run, i, n - 1, l);
      ChangeIsLift(cfg, run, n - 1, l);
    }
  }

  lemma {:induction false} LiftIsProper(cfg: Config, run: seq<Action>, n: nat, l: Id)
    requires n < |run| && Lifts(At(cfg, run, n), run[n], l)
    ensures l in At(cfg, run, n).db.lessons && l in At(cfg, run, n + 1).db.lessons
    ensures !AtLeast(At(cfg, run, n).db.lessons[l], At(cfg, run, n + 1).db.lessons[l])
  {
    StepAt(cfg, run, n);
  }

  /** Rows lie in order along a climbing run. */
  lemma {:induction false} RowsInOrder(cfg: Config, run: seq<Action>, i: nat, n: nat, l: Id)
    requires i <= n <= |run| && ClimbsThrough(cfg, run, n) && l in At(cfg, run, i).db.lessons
    ensures l in At(cfg, run, n).db.lessons && AtLeast(At(cfg, run, n).db.lessons[l], At(cfg, run, i).db.lessons[l])
  {
    ClimbsSpan(cfg, run, i, n);
  }

  lemma {:induction false} LiftedAtWrite(cfg: Config, run: seq<Action>, i: nat, j: nat, k: nat, l: Id)
    requires i < j < k < |run| && ClimbsThrough(cfg, run, k)
    requires l in At(cfg, run, i).db.lessons && Lifts(At(cfg, run, j), run[j], l)
    ensures l in At(cfg, run, k).db.lessons && !AtLeast(At(cfg, run, i).db.lessons[l], At(cfg, run, k).db.lessons[l])
  {
    assert ClimbsThrough(cfg, run, j);
    RowsInOrder(cfg, run, i, j, l);
    LiftIsProper(cfg, run, j, l);
    RowsInOrder(cfg, run, j + 1, k, l);
  }

  lemma {:induction false} LiftingBreaks(cfg: Config, run: seq<Action>, i: nat, j: nat, k: nat)
    requires LiftOvertakes(cfg, run, i, j, k)
    ensures !ClimbsThrough(cfg, run, k + 1)
  {
    if ClimbsThrough(cfg, run, k + 1) {
      assert ClimbsThrough(cfg, run, k) && ClimbsAt(cfg, run, k);
      SpanHolds(cfg, run, i, k);
      LiftedAtWrite(cfg, run, i, j, k, LessonRead(cfg, run, i));
      EditClimbsAt(cfg, run, k);
    }
  }

  /** If a write takes something back, a lifting has overtaken it. */
  lemma {:induction false} FallIsOvertaken(cfg: Config, run: seq<Action>, k: nat) returns (i: nat, j: nat)
    requires cfg.lockedCheck && k < |run| && ClimbsThrough(cfg, run, k) && EditWrites(At(cfg, run, k), run[k])
    requires !AtLeast(Seen(At(cfg, run, k), run[k]), Target(At(cfg, run, k), run[k]))
    ensures LiftOvertakes(cfg, run, i, j, k)
  {
    i := SpanOf(cfg, run, k);
    SpanHolds(cfg, run, i, k);
    var l := LessonRead(cfg, run, i);
    if forall m | i <= m < k :: !Lifts(At(cfg, run, m), run[m], l) {
      NoLiftNoChange(cfg, run, i, k, l);
    }
    j :| i <= j < k && Lifts(At(cfg, run, j), run[j], l);
    assert j != i;
  }

  lemma {:induction false} StaysClimbing(cfg: Config, run: seq<Action>, n: nat)
    requires cfg.lockedCheck && n <= |run|
    requires forall i: nat, j: nat, k: nat :: !LiftOvertakes(cfg, run, i, j, k)
    ensures ClimbsThrough(cfg, run, n)
  {
    if n > 0 {
      StaysClimbing(cfg, run, n - 1);
      var c := At(cfg, run, n - 1);
      if EditWrites(c, run[n - 1]) {
        if !AtLeast(Seen(c, run[n - 1]), Target(c, run[n - 1])) {
          var i, j := FallIsOvertaken(cfg, run, n - 1);
        }
        EditClimbsAt(cfg, run, n - 1);
      } else {
        OtherClimbsAt(cfg, run, n - 1);
      }
    }
  }

  /** In an interleaving, from any moment to any later one, lesson status only climbs and
      payment is never undone, if and only if no UpdateLesson writes back a lesson that was
      cancelled, completed or paid since it was read. */
  lemma {:induction false} LessonsClimbIff(cfg: Config, run: seq<Action>)
    requires cfg.lockedCheck
    ensures (forall m, n | 0 <= m <= n <= |run| :: Climbs(At(cfg, run, m).db, At(cfg, run, n).db))
            <==> !exists i: nat, j: nat, k: nat :: LiftOvertakes(cfg, run, i, j, k)
  {
    if i: nat, j: nat, k: nat :| LiftOvertakes(cfg, run, i, j, k) {
      LiftingBreaks(cfg, run, i, j, k);
      var m: nat :| m < k + 1 && !ClimbsAt(cfg, run, m);
      assert !Climbs(At(cfg, run, m).db, At(cfg, run, m + 1).db);
    } else {
      StaysClimbing(cfg, run, |run|);
      forall m, n | 0 <= m <= n <= |run|
        ensures Climbs(At(cfg, run, m).db, At(cfg, run, n).db)
      {
        assert ClimbsThrough(cfg, run, n);
        ClimbsSpan(cfg, run, m, n);
      }
    }
  }
}

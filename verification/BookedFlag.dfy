/** The redundant is_booked flag against the lessons table, over sequential runs. */
module BookedFlag {
  import opened Prelude
  import opened ScheduleModel

  ghost function LiveOn(t: Tables, slot: Id): set<Id> {
    set l | l in t.lessons && Live(t.lessons[l]) && t.lessons[l].slot == slot
  }

  ghost predicate HasLive(t: Tables, slot: Id) {
    exists l :: l in t.lessons && Live(t.lessons[l]) && t.lessons[l].slot == slot
  }

  /** is_booked tells exactly which slots carry a live lesson; no slot carries two. */
  ghost predicate Agreement(t: Tables) {
    && (forall l :: l in t.lessons && Live(t.lessons[l]) ==>
          t.lessons[l].slot in t.slots && t.slots[t.lessons[l].slot].isBooked)
    && (forall l, m | l in t.lessons && m in t.lessons && Live(t.lessons[l]) && Live(t.lessons[m])
          :: t.lessons[l].slot == t.lessons[m].slot ==> l == m)
    && (forall s :: s in t.slots && t.slots[s].isBooked ==> HasLive(t, s))
  }

  ghost predicate OneLessonPerSlot(t: Tables) {
    forall l, m :: l in t.lessons && m in t.lessons && t.lessons[l].slot == t.lessons[m].slot ==> l == m
  }

  /** Agreement in the words of the design: a slot is booked exactly when one and only one
      non-cancelled lesson refers to it and free when none does, and such lessons have slots. */
  lemma AgreementCounts(t: Tables)
    ensures Agreement(t) <==>
            && (forall s :: s in t.slots ==> |LiveOn(t, s)| == if t.slots[s].isBooked then 1 else 0)
            && (forall l :: l in t.lessons && Live(t.lessons[l]) ==> t.lessons[l].slot in t.slots)
  {
    if Agreement(t) {
      forall s | s in t.slots
        ensures |LiveOn(t, s)| == if t.slots[s].isBooked then 1 else 0
      {
        if t.slots[s].isBooked {
          var l :| l in t.lessons && Live(t.lessons[l]) && t.lessons[l].slot == s;
          assert LiveOn(t, s) == {l};
        } else {
          assert LiveOn(t, s) == {};
        }
      }
    }
    if (forall s :: s in t.slots ==> |LiveOn(t, s)| == if t.slots[s].isBooked then 1 else 0)
       && (forall l :: l in t.lessons && Live(t.lessons[l]) ==> t.lessons[l].slot in t.slots) {
      forall l | l in t.lessons && Live(t.lessons[l])
        ensures t.slots[t.lessons[l].slot].isBooked
      {
        assert l in LiveOn(t, t.lessons[l].slot);
      }
      forall l, m | l in t.lessons && m in t.lessons && Live(t.lessons[l]) && Live(t.lessons[m])
                    && t.lessons[l].slot == t.lessons[m].slot
        ensures l == m
      {
        var live := LiveOn(t, t.lessons[l].slot);
        assert l in live && m in live;
        assert |live - {l}| == 0;
        assert live == {l} + (live - {l});
      }
      forall s | s in t.slots && t.slots[s].isBooked
        ensures HasLive(t, s)
      {
        var l :| l in LiveOn(t, s);
      }
    }
  }

  lemma BookKeepsAgreement(schema: Schema, t: Tables, id: Id, lesson: Lesson)
    requires Agreement(t) && Live(lesson)
    ensures var r := BookAtomic(schema, t, id, lesson); r.Ok? ==> Agreement(r.value)
  {
    var r := BookAtomic(schema, t, id, lesson);
    if r.Ok? {
      var t' := r.value;
      assert t'.lessons[id] == lesson;
      forall s | s in t'.slots && t'.slots[s].isBooked
        ensures HasLive(t', s)
      {
        if s != lesson.slot {
          var l :| l in t.lessons && Live(t.lessons[l]) && t.lessons[l].slot == s;
          assert t'.lessons[l] == t.lessons[l];
        }
      }
    }
  }

  lemma CancelFrees(t: Tables, id: Id, now: int)
    requires Agreement(t) && id in t.lessons && t.lessons[id].slot in t.slots
    requires Live(t.lessons[id]) || !t.slots[t.lessons[id].slot].isBooked
    ensures Agreement(CancelAtomic(t, id, t.lessons[id].slot, now))
  {
    var s := t.lessons[id].slot;
    var t' := CancelAtomic(t, id, s, now);
    assert forall l :: l in t.lessons && l != id ==> t'.lessons[l] == t.lessons[l];
    assert !Live(t'.lessons[id]);
    forall r | r in t'.slots && t'.slots[r].isBooked
      ensures HasLive(t', r)
    {
      var l :| l in t.lessons && Live(t.lessons[l]) && t.lessons[l].slot == r;
      assert l in t'.lessons;
    }
  }

  /** Cancelling keeps the agreement exactly when it does not hit a lesson that was already
      cancelled and whose slot a later lesson holds: the missing status guard of CancelLesson. */
  lemma CancelKeepsAgreementIff(t: Tables, id: Id, now: int)
    requires Agreement(t) && id in t.lessons && t.lessons[id].slot in t.slots
    ensures Agreement(CancelAtomic(t, id, t.lessons[id].slot, now))
            <==> Live(t.lessons[id]) || !t.slots[t.lessons[id].slot].isBooked
  {
    var s := t.lessons[id].slot;
    var t' := CancelAtomic(t, id, s, now);
    if Live(t.lessons[id]) || !t.slots[s].isBooked {
      CancelFrees(t, id, now);
    } else {
      var l :| l in t.lessons && Live(t.lessons[l]) && t.lessons[l].slot == s;
      assert t'.lessons[l] == t.lessons[l] && !t'.slots[s].isBooked;
    }
  }

  /** A statement that keeps every lesson's slot and liveness keeps the agreement. */
  lemma SameLivenessKeepsAgreement(t: Tables, t': Tables)
    requires Agreement(t)
    requires t'.lessons.Keys == t.lessons.Keys
    requires forall l :: l in t.lessons ==>
             t'.lessons[l].slot == t.lessons[l].slot && Live(t'.lessons[l]) == Live(t.lessons[l])
    requires forall s :: s in t'.slots && s in t.slots ==> t'.slots[s].isBooked == t.slots[s].isBooked
    requires forall s :: s in t.slots && s !in t'.slots ==> !t.slots[s].isBooked
    requires forall s :: s in t'.slots && s !in t.slots ==> !t'.slots[s].isBooked
    ensures Agreement(t')
  {
    forall s | s in t'.slots && t'.slots[s].isBooked
      ensures HasLive(t', s)
    {
      var l :| l in t.lessons && Live(t.lessons[l]) && t.lessons[l].slot == s;
      assert t'.lessons[l].slot == s;
    }
  }

  /** The request cancels a lesson that is cancelled already. */
  predicate CancelsAgain(t: Tables, req: Request) {
    req.CancelLesson? && req.lesson in t.lessons && !Live(t.lessons[req.lesson])
  }

  lemma OtherStepsKeepLiveness(schema: Schema, t: Tables, s: Served)
    requires Agreement(t) && !s.req.CreateLesson? && !s.req.CancelLesson?
    ensures Agreement(Apply(schema, t, s))
  {
    var t' := Apply(schema, t, s);
    if s.req.CreateSlot? || s.req.UpdateSlot? || s.req.DeleteSlot? {
      assert t'.lessons == t.lessons;
      SameLivenessKeepsAgreement(t, t');
    } else {
      assert t'.slots == t.slots;
      SameLivenessKeepsAgreement(t, t');
    }
  }

  lemma StepKeepsAgreement(schema: Schema, t: Tables, s: Served)
    requires Agreement(t)
    requires (schema.uniqueSlot && OneLessonPerSlot(t)) || !CancelsAgain(t, s.req)
    ensures Agreement(Apply(schema, t, s))
  {
    var t' := Apply(schema, t, s);
    if t' == t {
    } else if s.req.CreateLesson? {
      BookKeepsAgreement(schema, t, s.req.newId, NewLesson(s.req.slot, s.req.student, s.now));
    } else if s.req.CancelLesson? {
      CancelFrees(t, s.req.lesson, s.now);
    } else {
      OtherStepsKeepLiveness(schema, t, s);
    }
  }

  lemma StepKeepsOneLessonPerSlot(schema: Schema, t: Tables, s: Served)
    requires schema.uniqueSlot && OneLessonPerSlot(t)
    ensures OneLessonPerSlot(Apply(schema, t, s))
  {
  }

  /** The run never cancels a cancelled lesson a second time. */
  ghost predicate NeverCancelsAgain(schema: Schema, run: seq<Served>) {
    forall i :: 0 <= i < |run| ==> !CancelsAgain(Exec(schema, run[..i]), run[i].req)
  }

  lemma {:induction false} RunKeepsAgreement(schema: Schema, run: seq<Served>)
    requires schema.uniqueSlot || NeverCancelsAgain(schema, run)
    ensures Agreement(Exec(schema, run))
    ensures schema.uniqueSlot ==> OneLessonPerSlot(Exec(schema, run))
  {
    if run != [] {
      var n := |run| - 1;
      var before := run[..n];
      if !schema.uniqueSlot {
        forall i | 0 <= i < |before|
          ensures !CancelsAgain(Exec(schema, before[..i]), before[i].req)
        {
          assert before[..i] == run[..i];
        }
        assert !CancelsAgain(Exec(schema, run[..n]), run[n].req);
      }
      RunKeepsAgreement(schema, before);
      StepKeepsAgreement(schema, Exec(schema, before), run[n]);
      if schema.uniqueSlot { StepKeepsOneLessonPerSlot(schema, Exec(schema, before), run[n]); }
    }
  }

  lemma ExecTakes(schema: Schema, run: seq<Served>, n: nat)
    requires n < |run|
    ensures Exec(schema, run[..n + 1]) == Apply(schema, Exec(schema, run[..n]), run[n])
  {
    assert run[..n + 1][..n] == run[..n];
  }

  /** The request, permitted and carried out, cancels a lesson that is cancelled already while
      its slot is booked for another. */
  predicate CancelsUnderAnother(t: Tables, s: Served) {
    && s.took && CancelsAgain(t, s.req)
    && var lesson := t.lessons[s.req.lesson];
       && lesson.slot in t.slots && t.slots[lesson.slot].isBooked
       && (s.req.user == t.slots[lesson.slot].tutor || s.req.user == lesson.student)
  }

  lemma {:induction false} StepKeepsAgreementIff(schema: Schema, t: Tables, s: Served)
    requires Agreement(t)
    ensures Agreement(Apply(schema, t, s)) <==> !CancelsUnderAnother(t, s)
  {
    if s.req.CancelLesson? {
      if s.req.lesson in t.lessons && t.lessons[s.req.lesson].slot in t.slots {
        CancelKeepsAgreementIff(t, s.req.lesson, s.now);
      }
    } else {
      StepKeepsAgreement(schema, t, s);
    }
  }

  /** Without any help from the schema the flag is right throughout a sequential run if and only
      if no request cancels an already cancelled lesson whose slot another lesson holds. */
  lemma {:induction false} RunKeepsAgreementIff(schema: Schema, run: seq<Served>)
    ensures (forall n | 0 <= n <= |run| :: Agreement(Exec(schema, run[..n])))
            <==> forall n | 0 <= n < |run| :: !CancelsUnderAnother(Exec(schema, run[..n]), run[n])
  {
    if forall n | 0 <= n <= |run| :: Agreement(Exec(schema, run[..n])) {
      forall n | 0 <= n < |run|
        ensures !CancelsUnderAnother(Exec(schema, run[..n]), run[n])
      {
        ExecTakes(schema, run, n);
        assert Agreement(Exec(schema, run[..n + 1]));
        StepKeepsAgreementIff(schema, Exec(schema, run[..n]), run[n]);
      }
    }
    if forall n | 0 <= n < |run| :: !CancelsUnderAnother(Exec(schema, run[..n]), run[n]) {
      forall n | 0 <= n <= |run|
        ensures Agreement(Exec(schema, run[..n]))
      {
        AgreesUpTo(schema, run, n);
      }
    }
  }

  lemma {:induction false} AgreesUpTo(schema: Schema, run: seq<Served>, n: nat)
    requires n <= |run|
    requires forall m | 0 <= m < n :: !CancelsUnderAnother(Exec(schema, run[..m]), run[m])
    ensures Agreement(Exec(schema, run[..n]))
    decreases n
  {
    if n > 0 {
      AgreesUpTo(schema, run, n - 1);
      ExecTakes(schema, run, n - 1);
      StepKeepsAgreementIff(schema, Exec(schema, run[..n - 1]), run[n - 1]);
    }
  }

  /** One tutor, one slot, booked and cancelled, booked again, and the first lesson
      cancelled a second time. */
  function CancelTwice(): seq<Served> {
    [Served(0, CreateSlot(1, true, 1, 5, 6, 10), true),
     Served(1, CreateLesson(1, 10, 2, Some(true), 100), true),
     Served(2, CancelLesson(1, 100), true),
     Served(3, CreateLesson(1, 10, 3, Some(true), 101), true),
     Served(4, CancelLesson(1, 100), true)]
  }

  const FREE_SLOT := Slot(1, 5, 6, false, 0, None)
  const TAKEN_SLOT := FREE_SLOT.(isBooked := true)
  const FIRST := NewLesson(10, 2, 1)
  const FIRST_CANCELLED := FIRST.(status := Cancelled, editedAt := 2)
  const SECOND := NewLesson(10, 3, 3)

  lemma CancelTwiceStart(schema: Schema)
    ensures Exec(schema, CancelTwice()[..2]) == Tables(map[10 := TAKEN_SLOT], map[100 := FIRST])
  {
    ExecTakes(schema, CancelTwice(), 0);
    ExecTakes(schema, CancelTwice(), 1);
    assert Exec(schema, CancelTwice()[..1]) == Tables(map[10 := FREE_SLOT], map[]);
  }

  lemma CancelTwiceMiddle(schema: Schema)
    ensures Exec(schema, CancelTwice()[..3]) == Tables(map[10 := FREE_SLOT], map[100 := FIRST_CANCELLED])
  {
    CancelTwiceStart(schema);
    ExecTakes(schema, CancelTwice(), 2);
  }

  lemma CancelTwiceRebooked(schema: Schema)
    ensures Exec(schema, CancelTwice()[..4]) ==
            if schema.uniqueSlot then Tables(map[10 := FREE_SLOT], map[100 := FIRST_CANCELLED])
            else Tables(map[10 := TAKEN_SLOT], map[100 := FIRST_CANCELLED, 101 := SECOND])
  {
    CancelTwiceMiddle(schema);
    ExecTakes(schema, CancelTwice(), 3);
    var t := Tables(map[10 := FREE_SLOT], map[100 := FIRST_CANCELLED]);
    assert t.lessons[100].slot == 10;
    assert Referenced(t, 10);
    assert Referenced(SetBooked(t, 10, true), 10);
  }

  /** Without the unique constraint the second cancellation frees a slot that lesson 101
      still holds; with it the second booking is refused and the flag stays right. */
  lemma CancelTwiceBreaksTheFlag()
    ensures var t := Exec(Schema(false, true, true), CancelTwice());
            && 101 in t.lessons && Live(t.lessons[101])
            && t.lessons[101].slot in t.slots && !t.slots[t.lessons[101].slot].isBooked
            && !Agreement(t)
    ensures var t := Exec(MIGRATION, CancelTwice());
            101 !in t.lessons && Agreement(t)
  {
    var run := CancelTwice();
    RunKeepsAgreement(MIGRATION, run);
    CancelTwiceRebooked(MIGRATION);
    CancelTwiceRebooked(Schema(false, true, true));
    ExecTakes(MIGRATION, run, 4);
    ExecTakes(Schema(false, true, true), run, 4);
    assert run[..5] == run;
  }
}

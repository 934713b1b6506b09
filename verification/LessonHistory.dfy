/** What sequential runs can do to one lesson: its status only climbs, payment is never
    undone, and a completed lesson keeps its past slot. */
module LessonHistory {
  import opened Prelude
  import opened ScheduleModel
  import opened BookedFlag

  function Rank(s: Status): nat {
    match s
    case Booked => 0
    case Completed => 1
    case Cancelled => 2
  }

  /** t' is a later state of the lessons of t. */
  ghost predicate Climbs(t: Tables, t': Tables) {
    forall l :: l in t.lessons ==>
      && l in t'.lessons
      && t'.lessons[l].slot == t.lessons[l].slot
      && t'.lessons[l].student == t.lessons[l].student
      && Rank(t.lessons[l].status) <= Rank(t'.lessons[l].status)
      && (t.lessons[l].isPaid ==> t'.lessons[l].isPaid)
  }

  lemma StepClimbs(schema: Schema, t: Tables, s: Served)
    ensures Climbs(t, Apply(schema, t, s))
  {
    var t' := Apply(schema, t, s);
    if t' != t {
      match s.req
      case CreateLesson(_, slot, student, _, newId) =>
        assert t' == BookAtomic(schema, t, newId, NewLesson(slot, student, s.now)).value;
      case UpdateLesson(_, lesson, _, _, _) =>
        assert forall l :: l in t.lessons && l != lesson ==> t'.lessons[l] == t.lessons[l];
      case CancelLesson(_, lesson) =>
        assert forall l :: l in t.lessons && l != lesson ==> t'.lessons[l] == t.lessons[l];
      case MarkAsPaid(lesson) =>
        assert forall l :: l in t.lessons && l != lesson ==> t'.lessons[l] == t.lessons[l];
      case _ =>
    }
  }

  lemma {:induction false} RunClimbs(schema: Schema, run: seq<Served>, i: nat)
    requires i <= |run|
    ensures Climbs(Exec(schema, run[..i]), Exec(schema, run))
    decreases |run|
  {
    if i == |run| {
      assert run[..i] == run;
    } else {
      var n := |run| - 1;
      RunClimbs(schema, run[..n], i);
      assert run[..n][..i] == run[..i];
      StepClimbs(schema, Exec(schema, run[..n]), run[n]);
    }
  }

  /** Every completed lesson has a slot, and that slot ended before now. */
  ghost predicate CompletedAreOver(t: Tables, now: int) {
    forall l :: l in t.lessons && t.lessons[l].status.Completed? ==>
      t.lessons[l].slot in t.slots && t.slots[t.lessons[l].slot].endsAt < now
  }

  /** While a lesson is completed its slot stays and keeps its interval. */
  ghost predicate CompletedKeepSlots(t: Tables, t': Tables) {
    forall l :: l in t.lessons && t.lessons[l].status.Completed? && t.lessons[l].slot in t.slots ==>
      var s := t.lessons[l].slot;
      s in t'.slots && t'.slots[s].startsAt == t.slots[s].startsAt && t'.slots[s].endsAt == t.slots[s].endsAt
  }

  /** One step moves no slot under a completed lesson, because such a slot is booked and
      UpdateSlot and DeleteSlot refuse booked slots. */
  lemma StepKeepsCompletedSlots(schema: Schema, t: Tables, s: Served)
    requires Agreement(t)
    ensures CompletedKeepSlots(t, Apply(schema, t, s))
  {
  }

  /** Only the sweep completes lessons. */
  lemma OtherStepsCompleteNothing(schema: Schema, t: Tables, s: Served, l: Id)
    requires !s.req.UpdateCompletedLessons?
    requires var t' := Apply(schema, t, s); l in t'.lessons && t'.lessons[l].status.Completed?
    ensures l in t.lessons && t.lessons[l].status.Completed?
  {
  }

  lemma StepKeepsCompletedOver(schema: Schema, t: Tables, s: Served, before: int)
    requires Agreement(t) && CompletedAreOver(t, before) && before <= s.now
    ensures CompletedAreOver(Apply(schema, t, s), s.now)
  {
    var t' := Apply(schema, t, s);
    if s.req.UpdateCompletedLessons? {
      assert t'.slots == t.slots;
    } else {
      forall l | l in t'.lessons && t'.lessons[l].status.Completed?
        ensures t'.lessons[l].slot in t'.slots && t'.slots[t'.lessons[l].slot].endsAt < s.now
      {
        OtherStepsCompleteNothing(schema, t, s, l);
        StepClimbs(schema, t, s);
        StepKeepsCompletedSlots(schema, t, s);
      }
    }
  }

  lemma LaterIsFine(t: Tables, now: int, later: int)
    requires CompletedAreOver(t, now) && now <= later
    ensures CompletedAreOver(t, later)
  {
  }

  /** At any moment not before the last request, every completed lesson lies in the past. */
  lemma {:induction false} RunCompletedAreOver(schema: Schema, run: seq<Served>, now: int)
    requires MonotoneClock(run) && (run == [] || run[|run| - 1].now <= now)
    requires schema.uniqueSlot || NeverCancelsAgain(schema, run)
    ensures CompletedAreOver(Exec(schema, run), now)
  {
    if run != [] {
      var n := |run| - 1;
      PrefixIsSafe(schema, run, n);
      RunKeepsAgreement(schema, run[..n]);
      RunCompletedAreOver(schema, run[..n], run[n].now);
      StepKeepsCompletedOver(schema, Exec(schema, run[..n]), run[n], run[n].now);
      LaterIsFine(Exec(schema, run), run[n].now, now);
    }
  }

  lemma PrefixIsSafe(schema: Schema, run: seq<Served>, i: nat)
    requires i <= |run| && (schema.uniqueSlot || NeverCancelsAgain(schema, run))
    ensures schema.uniqueSlot || NeverCancelsAgain(schema, run[..i])
  {
    if !schema.uniqueSlot {
      forall k | 0 <= k < i
        ensures !CancelsAgain(Exec(schema, run[..i][..k]), run[..i][k].req)
      {
        assert run[..i][..k] == run[..k];
      }
    }
  }

  /** Once a lesson is completed its slot's interval never changes for as long as the lesson
      stays uncancelled, however long the run goes on. */
  lemma {:induction false} RunFreezesCompletedSlots(schema: Schema, run: seq<Served>, i: nat, l: Id)
    requires i <= |run|
    requires schema.uniqueSlot || NeverCancelsAgain(schema, run)
    requires var t := Exec(schema, run[..i]);
             l in t.lessons && t.lessons[l].status.Completed?
    ensures var t := Exec(schema, run[..i]); var t' := Exec(schema, run);
            && l in t'.lessons
            && (t'.lessons[l].status.Completed? ==>
                  && t.lessons[l].slot in t.slots && t.lessons[l].slot in t'.slots
                  && t'.slots[t.lessons[l].slot].startsAt == t.slots[t.lessons[l].slot].startsAt
                  && t'.slots[t.lessons[l].slot].endsAt == t.slots[t.lessons[l].slot].endsAt)
    decreases |run|
  {
    PrefixIsSafe(schema, run, i);
    RunKeepsAgreement(schema, run[..i]);
    RunClimbs(schema, run, i);
    if i == |run| {
      assert run[..i] == run;
    } else {
      var n := |run| - 1;
      assert run[..n][..i] == run[..i];
      PrefixIsSafe(schema, run, n);
      RunFreezesCompletedSlots(schema, run[..n], i, l);
      RunClimbs(schema, run[..n], i);
      RunKeepsAgreement(schema, run[..n]);
      StepClimbs(schema, Exec(schema, run[..n]), run[n]);
      StepKeepsCompletedSlots(schema, Exec(schema, run[..n]), run[n]);
    }
  }
}

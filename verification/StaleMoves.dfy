/** UpdateSlot and DeleteSlot check is_booked first and write later. When an interleaving keeps
    the intervals of booked slots, to the step. */
module StaleMoves {
  import opened Prelude
  import opened ScheduleModel
  import opened BookedFlag
  import opened BookingTransactions
  import opened BookingProofs
  import opened BookingHistory
  import opened StaleEdits

  /** Booked slots stay, with their intervals. */
  ghost predicate KeepsBooked(t: Tables, t': Tables) {
    forall s :: s in t.slots && t.slots[s].isBooked ==> SameInterval(t, t', s)
  }

  predicate SameInterval(t: Tables, t': Tables, s: Id) {
    && s in t.slots && s in t'.slots
    && t'.slots[s].startsAt == t.slots[s].startsAt && t'.slots[s].endsAt == t.slots[s].endsAt
  }

  /** Where the flag is right these are the slots of the lessons that are not cancelled, the
      completed ones among them. */
  lemma {:induction false} BookedAreLive(t: Tables, t': Tables)
    requires Sound(t)
    ensures KeepsBooked(t, t') <==> forall l :: l in t.lessons && Live(t.lessons[l]) ==>
            SameInterval(t, t', t.lessons[l].slot)
  {
    if forall l :: l in t.lessons && Live(t.lessons[l]) ==> SameInterval(t, t', t.lessons[l].slot) {
      forall s | s in t.slots && t.slots[s].isBooked
        ensures SameInterval(t, t', s)
      {
        assert HasLive(t, s);
        var l :| l in t.lessons && Live(t.lessons[l]) && t.lessons[l].slot == s;
      }
    }
  }

  // ------------------------------------------------------------------- single steps

  /** The statement about to run on slot s would change it: a deletion, or another interval. */
  predicate Changes(c: Machine, a: Action, s: Id) {
    Runs(c, a) && s in c.db.slots
    && var job := c.txs[a.t].job;
       job.Delete? || (job.Move? && (job.startsAt != c.db.slots[s].startsAt || job.endsAt != c.db.slots[s].endsAt))
  }

  /** A slot handler's statement keeps booked slots exactly when its slot is not booked, or it
      writes the interval that is there already. */
  lemma {:induction false} SlotWriteKeepsIff(cfg: Config, c: Machine, a: Action, s: Id)
    requires SlotWrites(cfg, c, a, s)
    ensures s in c.db.slots
    ensures KeepsBooked(c.db, Step(cfg, c, a).db) <==> !c.db.slots[s].isBooked || !Changes(c, a, s)
  {
    var db := Step(cfg, c, a).db;
    forall r | r in c.db.slots && r != s
      ensures SameInterval(c.db, db, r)
    {
    }
    assert SameInterval(c.db, db, s) <==> !Changes(c, a, s);
  }

  lemma {:induction false} TransactionsKeepIntervals(cfg: Config, c: Machine, a: Action)
    requires Runs(c, a) && !c.txs[a.t].job.Move? && !c.txs[a.t].job.Delete?
    ensures KeepsBooked(c.db, Step(cfg, c, a).db)
  {
  }

  lemma {:induction false} OtherStepsKeepBooked(cfg: Config, c: Machine, a: Action)
    requires c.db.slots.Keys <= c.issued && forall s :: !SlotWrites(cfg, c, a, s)
    ensures KeepsBooked(c.db, Step(cfg, c, a).db)
  {
    var db := Step(cfg, c, a).db;
    if Runs(c, a) {
      if c.txs[a.t].job.Move? || c.txs[a.t].job.Delete? {
        assert !SlotWrites(cfg, c, a, c.txs[a.t].job.slot);
        assert db == c.db;
      } else {
        TransactionsKeepIntervals(cfg, c, a);
      }
    }
  }

  /** What a step does to the flag of a slot that stays. */
  lemma {:induction false} FlagUp(cfg: Config, c: Machine, a: Action, s: Id)
    requires s in Step(cfg, c, a).db.slots
    ensures Step(cfg, c, a).db.slots[s].isBooked ==> (s in c.db.slots && c.db.slots[s].isBooked) || Books(c, a, s)
  {
  }

  lemma {:induction false} FlagDown(cfg: Config, c: Machine, a: Action, s: Id)
    requires s in Step(cfg, c, a).db.slots
    ensures s in c.db.slots && c.db.slots[s].isBooked && !Step(cfg, c, a).db.slots[s].isBooked ==> Frees(c, a, s)
    ensures Frees(c, a, s) ==> !Step(cfg, c, a).db.slots[s].isBooked
  {
  }

  lemma {:induction false} BookingBooks(cfg: Config, c: Machine, a: Action, s: Id)
    requires Inv(cfg, c) && Books(c, a, s)
    ensures var db := Step(cfg, c, a).db; s in db.slots && db.slots[s].isBooked
  {
    assert BookOk(cfg, c, c.txs[a.t]);
  }

  // --------------------------------------------------------------------- whole runs

  predicate BookedAt(cfg: Config, run: seq<Action>, n: nat, s: Id)
    requires n <= |run|
  {
    s in At(cfg, run, n).db.slots && At(cfg, run, n).db.slots[s].isBooked
  }

  ghost predicate KeepsAt(cfg: Config, run: seq<Action>, n: nat)
    requires n < |run|
  {
    KeepsBooked(At(cfg, run, n).db, At(cfg, run, n + 1).db)
  }

  /** A slot becomes booked only by a booking, and every booking makes it so. */
  lemma {:induction false} FlagRises(cfg: Config, run: seq<Action>, n: nat, s: Id)
    requires cfg.lockedCheck && n < |run|
    ensures BookedAt(cfg, run, n + 1, s) ==> BookedAt(cfg, run, n, s) || Books(At(cfg, run, n), run[n], s)
    ensures Books(At(cfg, run, n), run[n], s) ==> BookedAt(cfg, run, n + 1, s)
  {
    InvAt(cfg, run, n);
    StepAt(cfg, run, n);
    if s in At(cfg, run, n + 1).db.slots {
      FlagUp(cfg, At(cfg, run, n), run[n], s);
    }
    if Books(At(cfg, run, n), run[n], s) {
      BookingBooks(cfg, At(cfg, run, n), run[n], s);
    }
  }

  lemma {:induction false} FreeingFrees(cfg: Config, run: seq<Action>, n: nat, s: Id)
    requires n < |run| && Frees(At(cfg, run, n), run[n], s)
    ensures !BookedAt(cfg, run, n + 1, s)
  {
    StepAt(cfg, run, n);
    if s in At(cfg, run, n + 1).db.slots {
      FlagDown(cfg, At(cfg, run, n), run[n], s);
    }
  }

  /** A kept slot stays booked unless it is freed. */
  lemma {:induction false} FlagStays(cfg: Config, run: seq<Action>, n: nat, s: Id)
    requires n < |run| && KeepsAt(cfg, run, n) && BookedAt(cfg, run, n, s)
    requires !Frees(At(cfg, run, n), run[n], s)
    ensures BookedAt(cfg, run, n + 1, s)
  {
    StepAt(cfg, run, n);
    assert SameInterval(At(cfg, run, n).db, At(cfg, run, n + 1).db, s);
    FlagDown(cfg, At(cfg, run, n), run[n], s);
  }

  predicate StaysPut(cfg: Config, run: seq<Action>, n: nat, s: Id)
    requires n < |run|
  {
    BookedAt(cfg, run, n, s) ==> BookedAt(cfg, run, n + 1, s)
  }

  lemma {:induction false} StillBooked(cfg: Config, run: seq<Action>, i: nat, k: nat, s: Id)
    requires i <= k <= |run| && BookedAt(cfg, run, i, s) && forall m | i <= m < k :: StaysPut(cfg, run, m, s)
    ensures BookedAt(cfg, run, k, s)
    decreases k
  {
    if i < k {
      StillBooked(cfg, run, i, k - 1, s);
      assert StaysPut(cfg, run, k - 1, s);
    }
  }

  lemma {:induction false} LastRise(cfg: Config, run: seq<Action>, i: nat, k: nat, s: Id) returns (j: nat)
    requires i <= k <= |run| && !BookedAt(cfg, run, i, s) && BookedAt(cfg, run, k, s)
    ensures i <= j < k && !BookedAt(cfg, run, j, s)
    ensures forall m | j < m <= k :: BookedAt(cfg, run, m, s)
    decreases k
  {
    if BookedAt(cfg, run, k - 1, s) {
      j := LastRise(cfg, run, i, k - 1, s);
    } else {
      j := k - 1;
    }
  }

  /** A slot that became booked was booked by a commit it was not freed after. */
  lemma {:induction false} LastBooking(cfg: Config, run: seq<Action>, i: nat, k: nat, s: Id) returns (j: nat)
    requires cfg.lockedCheck && i <= k <= |run| && !BookedAt(cfg, run, i, s) && BookedAt(cfg, run, k, s)
    ensures i <= j < k && Books(At(cfg, run, j), run[j], s)
    ensures forall m | j < m < k :: !Frees(At(cfg, run, m), run[m], s)
  {
    j := LastRise(cfg, run, i, k, s);
    FlagRises(cfg, run, j, s);
    forall m | j < m < k
      ensures !Frees(At(cfg, run, m), run[m], s)
    {
      if Frees(At(cfg, run, m), run[m], s) { FreeingFrees(cfg, run, m, s); }
    }
  }

  /** Between the guard of an UpdateSlot or DeleteSlot at i and its statement at k, which
      changes slot s, a booking of s commits at j and is not freed again. */
  ghost predicate BookingOvertakes(cfg: Config, run: seq<Action>, i: nat, j: nat, k: nat, s: Id) {
    && i < j < k < |run| && run[i].Do? && run[k].Do? && run[i].t == run[k].t
    && Guards(At(cfg, run, i), run[i], s)
    && Books(At(cfg, run, j), run[j], s)
    && (forall m | j < m < k :: !Frees(At(cfg, run, m), run[m], s))
    && SlotWrites(cfg, At(cfg, run, k), run[k], s) && Changes(At(cfg, run, k), run[k], s)
  }

  lemma {:induction false} OvertakenLosesSlot(cfg: Config, run: seq<Action>, i: nat, j: nat, k: nat, s: Id)
    requires cfg.lockedCheck && BookingOvertakes(cfg, run, i, j, k, s)
    requires forall m | 0 <= m < k :: KeepsAt(cfg, run, m)
    ensures !KeepsAt(cfg, run, k)
  {
    FlagRises(cfg, run, j, s);
    forall m | j + 1 <= m < k
      ensures StaysPut(cfg, run, m, s)
    {
      if BookedAt(cfg, run, m, s) { FlagStays(cfg, run, m, s); }
    }
    StillBooked(cfg, run, j + 1, k, s);
    StepAt(cfg, run, k);
    SlotWriteKeepsIff(cfg, At(cfg, run, k), run[k], s);
  }

  lemma {:induction false} LostSlotIsOvertaken(cfg: Config, run: seq<Action>, k: nat) returns (i: nat, j: nat, s: Id)
    requires cfg.lockedCheck && k < |run| && !KeepsAt(cfg, run, k)
    ensures BookingOvertakes(cfg, run, i, j, k, s)
  {
    InvAt(cfg, run, k);
    StepAt(cfg, run, k);
    var c := At(cfg, run, k);
    if forall r :: !SlotWrites(cfg, c, run[k], r) {
      OtherStepsKeepBooked(cfg, c, run[k]);
    }
    s :| SlotWrites(cfg, c, run[k], s);
    SlotWriteKeepsIff(cfg, c, run[k], s);
    i := GuardPassed(cfg, run, k, run[k].t);
    j := LastBooking(cfg, run, i, k, s);
    assert j != i;
  }

  /** In every interleaving all booked slots keep their intervals at every step, if and only if
      no booking commits between the guard and the statement of an UpdateSlot or DeleteSlot
      that changes its slot. */
  lemma {:induction false} BookedSlotsFrozenIff(cfg: Config, run: seq<Action>)
    requires cfg.lockedCheck
    ensures (forall n | 0 <= n < |run| :: KeepsBooked(At(cfg, run, n).db, At(cfg, run, n + 1).db))
            <==> !exists i: nat, j: nat, k: nat, s: Id :: BookingOvertakes(cfg, run, i, j, k, s)
  {
    if i: nat, j: nat, k: nat, s: Id :| BookingOvertakes(cfg, run, i, j, k, s) {
      if forall n | 0 <= n < |run| :: KeepsAt(cfg, run, n) {
        OvertakenLosesSlot(cfg, run, i, j, k, s);
      }
      var n: nat :| n < |run| && !KeepsAt(cfg, run, n);
      assert !KeepsBooked(At(cfg, run, n).db, At(cfg, run, n + 1).db);
    } else {
      forall n | 0 <= n < |run|
        ensures KeepsBooked(At(cfg, run, n).db, At(cfg, run, n + 1).db)
      {
        if !KeepsAt(cfg, run, n) {
          var i, j, s := LostSlotIsOvertaken(cfg, run, n);
        }
      }
    }
  }

  // ------------------------------------------------------------ lessons and deletions

  lemma {:induction false} SlotOfLesson(cfg: Config, run: seq<Action>, n: nat, l: Id)
    requires cfg.lockedCheck && n < |run| && l in At(cfg, run, n).db.lessons
    ensures l in At(cfg, run, n + 1).db.lessons
    ensures At(cfg, run, n + 1).db.lessons[l].slot == At(cfg, run, n).db.lessons[l].slot
  {
    InvAt(cfg, run, n);
    StepAt(cfg, run, n);
    if EditWrites(At(cfg, run, n), run[n]) {
      WhatIsWritten(cfg, At(cfg, run, n), run[n]);
    } else {
      RowStep(cfg, At(cfg, run, n), run[n], l);
    }
  }

  /** At step n lesson l stays, and if it is live afterwards it was before, on the same slot
      with the same interval. */
  ghost predicate LessonKeepsSlot(cfg: Config, run: seq<Action>, n: nat, l: Id)
    requires n < |run|
  {
    var t, t' := At(cfg, run, n).db, At(cfg, run, n + 1).db;
    l in t.lessons ==>
      && l in t'.lessons && t'.lessons[l].slot == t.lessons[l].slot
      && (Live(t'.lessons[l]) ==> Live(t.lessons[l]) && SameInterval(t, t', t.lessons[l].slot))
  }

  lemma {:induction false} SlotKept(cfg: Config, run: seq<Action>, n: nat, l: Id)
    requires cfg.lockedCheck && n < |run| && Sound(At(cfg, run, n).db) && KeepsAt(cfg, run, n)
    requires Fades(cfg, run, n, l)
    ensures LessonKeepsSlot(cfg, run, n, l)
  {
    if l in At(cfg, run, n).db.lessons { SlotOfLesson(cfg, run, n, l); }
  }

  lemma {:induction false} SlotsKept(cfg: Config, run: seq<Action>, i: nat, n: nat, l: Id)
    requires i <= n <= |run| && forall m | 0 <= m < n :: LessonKeepsSlot(cfg, run, m, l)
    requires l in At(cfg, run, i).db.lessons
    requires At(cfg, run, i).db.lessons[l].slot in At(cfg, run, i).db.slots
    ensures var t, t' := At(cfg, run, i).db, At(cfg, run, n).db;
            && l in t'.lessons && t'.lessons[l].slot == t.lessons[l].slot
            && (Live(t'.lessons[l]) ==> SameInterval(t, t', t.lessons[l].slot))
    decreases n
  {
    if i < n {
      SlotsKept(cfg, run, i, n - 1, l);
      assert LessonKeepsSlot(cfg, run, n - 1, l);
    }
  }

  /** With the migration's constraints, and where neither a cancellation overtakes an
      UpdateLesson nor a booking an UpdateSlot, a lesson that is not cancelled, a completed one
      among them, has had its slot and interval since it was booked. */
  lemma {:induction false} LiveLessonsKeepSlots(cfg: Config, run: seq<Action>, i: nat, n: nat, l: Id)
    requires cfg.lockedCheck && cfg.schema.uniqueSlot && cfg.schema.slotReference && i <= n <= |run|
    requires !exists i: nat, j: nat, k: nat :: CancelOvertakes(cfg, run, i, j, k)
    requires !exists i: nat, j: nat, k: nat, s: Id :: BookingOvertakes(cfg, run, i, j, k, s)
    requires l in At(cfg, run, i).db.lessons && LiveAt(cfg, run, n, l)
    ensures At(cfg, run, n).db.lessons[l].slot == At(cfg, run, i).db.lessons[l].slot
    ensures SameInterval(At(cfg, run, i).db, At(cfg, run, n).db, At(cfg, run, i).db.lessons[l].slot)
  {
    StaysSound(cfg, run, n);
    SoundFades(cfg, run, n, l);
    BookedSlotsFrozenIff(cfg, run);
    assert Sound(At(cfg, run, i).db);
    forall m | 0 <= m < n
      ensures LessonKeepsSlot(cfg, run, m, l)
    {
      assert Sound(At(cfg, run, m).db) && KeepsAt(cfg, run, m) && Fades(cfg, run, m, l);
      SlotKept(cfg, run, m, l);
    }
    SlotsKept(cfg, run, i, n, l);
  }

  ghost predicate BookedReferenced(t: Tables) {
    forall s :: s in t.slots && t.slots[s].isBooked ==> Referenced(t, s)
  }

  lemma {:induction false} StepKeepsReferenced(cfg: Config, c: Machine, a: Action)
    requires cfg.lockedCheck && Inv(cfg, c) && BookedReferenced(c.db)
    ensures BookedReferenced(Step(cfg, c, a).db)
  {
    var db := Step(cfg, c, a).db;
    forall s | s in db.slots && db.slots[s].isBooked
      ensures Referenced(db, s)
    {
      FlagUp(cfg, c, a, s);
      if Books(c, a, s) {
        assert db.lessons[c.txs[a.t].job.lesson].slot == s;
      } else {
        var l :| l in c.db.lessons && c.db.lessons[l].slot == s;
        if EditWrites(c, a) { WhatIsWritten(cfg, c, a); } else { RowStep(cfg, c, a, l); }
        assert l in db.lessons && db.lessons[l].slot == s;
      }
    }
  }

  lemma {:induction false} RunKeepsReferenced(cfg: Config, run: seq<Action>, n: nat)
    requires cfg.lockedCheck && n <= |run|
    ensures BookedReferenced(At(cfg, run, n).db)
  {
    if n == 0 {
      NothingYet(cfg, run);
    } else {
      RunKeepsReferenced(cfg, run, n - 1);
      InvAt(cfg, run, n - 1);
      StepAt(cfg, run, n - 1);
      StepKeepsReferenced(cfg, At(cfg, run, n - 1), run[n - 1]);
    }
  }

  /** The foreign key alone stops every late DeleteSlot: only an UpdateSlot can hit a slot that
      was booked behind its back. */
  lemma {:induction false} DeletionsSpareBooked(cfg: Config, run: seq<Action>, k: nat, s: Id)
    requires cfg.lockedCheck && cfg.schema.slotReference && k < |run|
    requires SlotWrites(cfg, At(cfg, run, k), run[k], s) && At(cfg, run, k).txs[run[k].t].job.Delete?
    ensures !BookedAt(cfg, run, k, s)
  {
    RunKeepsReferenced(cfg, run, k);
  }
}

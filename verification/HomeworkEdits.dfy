/** UpdateAssignment reads an assignment, merges the request and writes the four columns back:
    its read and its write apart, in every interleaving. */
module HomeworkEdits {
  import opened Prelude
  import opened RowNumber
  import opened HomeworkStatus
  import opened HomeworkRuns

  /** What a handler holds between its read and its write. */
  datatype Held = Held(assignment: Id, row: Assignment, done: bool)

  datatype Desk = Desk(home: Homework, held: map<Id, Held>)

  const CLEAR := Desk(EMPTY, map[])

  /** Other is anything but an edit; edits are split, and each handler h edits once. */
  datatype Action =
    | Other(event: Event)
    | EditRead(h: Id, assignment: Id, patch: Patch)
    | EditWrite(h: Id)

  function Act(d: Desk, x: Action): Desk {
    match x
    case Other(e) => if e.Edit? then d else d.(home := Happen(d.home, e))
    case EditRead(h, a, p) =>
      if h in d.held || a !in d.home.rows.assignments then d
      else d.(held := d.held[h := Held(a, Merged(d.home.rows.assignments[a], p), false)])
    case EditWrite(h) =>
      if h !in d.held || d.held[h].done then d
      else Desk(d.home.(rows := WriteBack(d.home.rows, d.held[h].assignment, d.held[h].row)),
                d.held[h := d.held[h].(done := true)])
  }

  function Work(acts: seq<Action>): Desk {
    if acts == [] then CLEAR else Act(Work(acts[..|acts| - 1]), acts[|acts| - 1])
  }

  function At(acts: seq<Action>, n: nat): Desk
    requires n <= |acts|
  {
    Work(acts[..n])
  }

  lemma {:induction false} ActAt(acts: seq<Action>, n: nat)
    requires n < |acts|
    ensures At(acts, n + 1) == Act(At(acts, n), acts[n])
  {
    assert acts[..n + 1][..n] == acts[..n];
  }

  lemma {:induction false} Nothing(acts: seq<Action>)
    ensures At(acts, 0) == CLEAR
  {
    assert acts[..0] == [];
  }

  /** Undisturbed, the two halves are the edit in one piece. */
  lemma {:induction false} UndisturbedEditIsEdit(d: Desk, h: Id, a: Id, p: Patch)
    requires h !in d.held
    ensures Act(Act(d, EditRead(h, a, p)), EditWrite(h)).home == Happen(d.home, Edit(a, p))
  {
  }

  // ------------------------------------------------------------------ single steps

  /** x takes effect as the write of a handler on assignment a. */
  predicate Writes(d: Desk, x: Action, a: Id) {
    && x.EditWrite? && x.h in d.held && !d.held[x.h].done
    && d.held[x.h].assignment == a && a in d.home.rows.assignments
  }

  predicate HasDue(d: Desk, a: Id) { a in d.home.rows.assignments && d.home.rows.assignments[a].due.Some? }

  predicate HasNoDue(d: Desk, a: Id) { a in d.home.rows.assignments && d.home.rows.assignments[a].due.None? }

  lemma {:induction false} ActKeepsInv(d: Desk, x: Action)
    requires Inv(d.home)
    ensures Inv(Act(d, x).home) && d.home.issued <= Act(d, x).home.issued
  {
    if x.Other? { HappenKeepsInv(d.home, x.event); }
  }

  lemma {:induction false} InvAt(acts: seq<Action>, n: nat)
    requires n <= |acts|
    ensures Inv(At(acts, n).home)
  {
    if n == 0 {
      Nothing(acts);
    } else {
      InvAt(acts, n - 1);
      ActAt(acts, n - 1);
      ActKeepsInv(At(acts, n - 1), acts[n - 1]);
    }
  }

  /** A due date appears and disappears only by a write; an id once issued never comes back. */
  lemma {:induction false} DueStep(d: Desk, x: Action, a: Id)
    requires a in d.home.issued
    ensures a in Act(d, x).home.rows.assignments ==> a in d.home.rows.assignments
    ensures HasDue(Act(d, x), a) ==> HasDue(d, a) || (HasNoDue(d, a) && Writes(d, x, a) && d.held[x.h].row.due.Some?)
    ensures HasNoDue(Act(d, x), a) ==> HasNoDue(d, a) || (HasDue(d, a) && Writes(d, x, a) && d.held[x.h].row.due.None?)
    ensures Writes(d, x, a) ==> (HasDue(Act(d, x), a) <==> d.held[x.h].row.due.Some?)
  {
  }

  /** What a write does to the status: only that of its own assignment, only while nothing is
      submitted, and then by the due date it holds, which may be none. */
  lemma {:induction false} WriteMoves(d: Desk, x: Action, a: Id, b: Id)
    requires Writes(d, x, a) && b in d.home.rows.assignments
    ensures var home := Act(d, x).home;
            && b in home.rows.assignments && Submitted(home.rows, b) == Submitted(d.home.rows, b)
            && StatusOf(home, b) ==
               if b == a && !Submitted(d.home.rows, a) then ByDueDate(d.held[x.h].row.due, d.home.now)
               else StatusOf(d.home, b)
  {
    var home := Act(d, x).home;
    assert home.rows.submissions == d.home.rows.submissions && home.rows.feedbacks == d.home.rows.feedbacks;
    assert forall s :: Reviewed(home.rows, s) == Reviewed(d.home.rows, s);
    if b != a || Submitted(d.home.rows, a) { SameView(d.home, home, b); }
  }

  // -------------------------------------------------------------------- whole runs

  lemma {:induction false} IssuedAt(acts: seq<Action>, m: nat, n: nat, a: Id)
    requires m <= n <= |acts| && a in At(acts, m).home.rows.assignments
    ensures a in At(acts, n).home.issued
    decreases n
  {
    InvAt(acts, m);
    if m < n {
      IssuedAt(acts, m, n - 1, a);
      ActAt(acts, n - 1);
      InvAt(acts, n - 1);
      ActKeepsInv(At(acts, n - 1), acts[n - 1]);
    }
  }

  /** Handler h holds what it read. */
  lemma {:induction false} HeldRead(acts: seq<Action>, k: nat, h: Id) returns (i: nat)
    requires k <= |acts| && h in At(acts, k).held
    ensures i < k && Reads(acts, i, h) && acts[i].assignment == At(acts, k).held[h].assignment
    ensures At(acts, k).held[h].row == Merged(At(acts, i).home.rows.assignments[acts[i].assignment], acts[i].patch)
    decreases k
  {
    Nothing(acts);
    ActAt(acts, k - 1);
    if h in At(acts, k - 1).held {
      i := HeldRead(acts, k - 1, h);
    } else {
      i := k - 1;
    }
  }

  /** Handler h reads its assignment at i. */
  predicate Reads(acts: seq<Action>, i: nat, h: Id) {
    && i < |acts| && acts[i].EditRead? && acts[i].h == h && h !in At(acts, i).held
    && acts[i].assignment in At(acts, i).home.rows.assignments
  }

  lemma {:induction false} StaysHeld(acts: seq<Action>, i: nat, k: nat, h: Id)
    requires i < k <= |acts| && Reads(acts, i, h)
    ensures h in At(acts, k).held && At(acts, k).held[h].assignment == acts[i].assignment
    ensures At(acts, k).held[h].row == Merged(At(acts, i).home.rows.assignments[acts[i].assignment], acts[i].patch)
    decreases k
  {
    ActAt(acts, k - 1);
    if i < k - 1 { StaysHeld(acts, i, k - 1, h); }
  }

  /** At j a write gives assignment a its due date. */
  predicate SetsDue(acts: seq<Action>, j: nat, a: Id) {
    j < |acts| && Writes(At(acts, j), acts[j], a) && HasNoDue(At(acts, j), a)
      && At(acts, j).held[acts[j].h].row.due.Some?
  }

  /** A handler reads assignment a without a due date at i, and brings none; another gives it
      one at j; the first writes at k. */
  ghost predicate DueOvertakes(acts: seq<Action>, i: nat, j: nat, k: nat) {
    && i < j < k < |acts| && acts[i].EditRead? && Reads(acts, i, acts[i].h)
    && acts[i].patch.due.None? && HasNoDue(At(acts, i), acts[i].assignment)
    && SetsDue(acts, j, acts[i].assignment)
    && acts[k] == EditWrite(acts[i].h) && Writes(At(acts, k), acts[k], acts[i].assignment)
  }

  /** From m to n no assignment that is still there has lost its due date. */
  ghost predicate DuesKept(acts: seq<Action>, m: nat, n: nat)
    requires m <= |acts| && n <= |acts|
  {
    forall a :: HasDue(At(acts, m), a) ==> !HasNoDue(At(acts, n), a)
  }

  lemma {:induction false} DueAppears(acts: seq<Action>, i: nat, k: nat, a: Id) returns (j: nat)
    requires i <= k <= |acts| && HasNoDue(At(acts, i), a) && HasDue(At(acts, k), a)
    ensures i <= j < k && SetsDue(acts, j, a)
    decreases k
  {
    IssuedAt(acts, i, k - 1, a);
    ActAt(acts, k - 1);
    DueStep(At(acts, k - 1), acts[k - 1], a);
    if HasDue(At(acts, k - 1), a) {
      j := DueAppears(acts, i, k - 1, a);
    } else {
      j := k - 1;
    }
  }

  /** If a due date is lost, a handler that knew of none has been overtaken. */
  lemma {:induction false} LossIsOvertaken(acts: seq<Action>, k: nat, a: Id) returns (i: nat, j: nat)
    requires k < |acts| && HasDue(At(acts, k), a) && HasNoDue(At(acts, k + 1), a)
    ensures DueOvertakes(acts, i, j, k)
  {
    IssuedAt(acts, k, k, a);
    ActAt(acts, k);
    DueStep(At(acts, k), acts[k], a);
    i := HeldRead(acts, k, acts[k].h);
    j := DueAppears(acts, i, k, a);
    ActAt(acts, j);
    assert i != j;
  }

  lemma {:induction false} DuesKeptThrough(acts: seq<Action>, m: nat, n: nat)
    requires m <= n <= |acts| && forall i: nat, j: nat, k: nat :: !DueOvertakes(acts, i, j, k)
    ensures DuesKept(acts, m, n)
    decreases n
  {
    if m < n {
      DuesKeptThrough(acts, m, n - 1);
      forall a | HasDue(At(acts, m), a)
        ensures !HasNoDue(At(acts, n), a)
      {
        IssuedAt(acts, m, n - 1, a);
        ActAt(acts, n - 1);
        DueStep(At(acts, n - 1), acts[n - 1], a);
        if HasDue(At(acts, n - 1), a) && HasNoDue(At(acts, n), a) {
          var i, j := LossIsOvertaken(acts, n - 1, a);
        }
      }
    }
  }

  lemma {:induction false} OvertakingLosesDue(acts: seq<Action>, i: nat, j: nat, k: nat)
    requires DueOvertakes(acts, i, j, k)
    ensures !DuesKept(acts, j + 1, k) || !DuesKept(acts, k, k + 1)
  {
    var a := acts[i].assignment;
    IssuedAt(acts, i, j, a);
    IssuedAt(acts, i, k, a);
    ActAt(acts, j);
    DueStep(At(acts, j), acts[j], a);
    ActAt(acts, k);
    DueStep(At(acts, k), acts[k], a);
    StaysHeld(acts, i, k, acts[i].h);
    assert HasDue(At(acts, j + 1), a) && HasNoDue(At(acts, k + 1), a);
    assert HasDue(At(acts, k), a) || HasNoDue(At(acts, k), a);
  }

  /** In an interleaving of edits and everything else a due date once set stays set until its
      assignment is deleted, if and only if no handler that read none, and brings none, writes
      after another has set one. */
  lemma {:induction false} DueDatesKeptIff(acts: seq<Action>)
    ensures (forall m, n | 0 <= m <= n <= |acts| :: DuesKept(acts, m, n))
            <==> !exists i: nat, j: nat, k: nat :: DueOvertakes(acts, i, j, k)
  {
    if i: nat, j: nat, k: nat :| DueOvertakes(acts, i, j, k) {
      OvertakingLosesDue(acts, i, j, k);
    } else {
      forall m, n | 0 <= m <= n <= |acts|
        ensures DuesKept(acts, m, n)
      {
        DuesKeptThrough(acts, m, n);
      }
    }
  }

  /** Overlapping or not, edits never touch what has been submitted: once submitted, never
      UNSENT, OVERDUE or UNSPECIFIED again until deleted. */
  lemma {:induction false} SubmittedThroughEdits(acts: seq<Action>, m: nat, n: nat, a: Id)
    requires m <= n <= |acts| && a in At(acts, m).home.rows.assignments && a in At(acts, n).home.rows.assignments
    requires Submitted(At(acts, m).home.rows, a)
    ensures Submitted(At(acts, n).home.rows, a)
    ensures StatusOf(At(acts, n).home, a) == UNREVIEWED || StatusOf(At(acts, n).home, a) == REVIEWED
    decreases n
  {
    if m < n {
      IssuedAt(acts, m, n - 1, a);
      ActAt(acts, n - 1);
      DueStep(At(acts, n - 1), acts[n - 1], a);
      SubmittedThroughEdits(acts, m, n - 1, a);
      InvAt(acts, n - 1);
      if acts[n - 1].Other? {
        SubmittedStays(At(acts, n - 1).home, acts[n - 1].event, a);
      } else {
        assert At(acts, n).home.rows.submissions == At(acts, n - 1).home.rows.submissions;
      }
    }
  }

  // ------------------------------------------------------------------------ witness

  const BARE := Assignment(1, 2, None, None, None, None, 0)

  /** Handler 11 brings a title, handler 12 a due date; both read before either writes. */
  const OVERLAP: seq<Action> :=
    [Other(Assign(7, BARE)), EditRead(11, 7, Patch(Some("t"), None, None, None)),
     EditRead(12, 7, Patch(None, None, None, Some(9))), EditWrite(12), EditWrite(11)]

  lemma {:induction false} BothRead()
    ensures At(OVERLAP, 3).home.rows.assignments == map[7 := BARE] && At(OVERLAP, 3).home.now == 0
    ensures At(OVERLAP, 3).home.rows.submissions == map[]
    ensures At(OVERLAP, 3).held
            == map[11 := Held(7, BARE.(title := Some("t")), false), 12 := Held(7, BARE.(due := Some(9)), false)]
  {
    Nothing(OVERLAP);
    ActAt(OVERLAP, 0);
    ActAt(OVERLAP, 1);
    ActAt(OVERLAP, 2);
  }

  /** The due date is set, then gone; UNSENT falls back to UNSPECIFIED. */
  lemma {:induction false} OverlappingEditsLoseDueDate()
    ensures HasDue(At(OVERLAP, 4), 7) && StatusOf(At(OVERLAP, 4).home, 7) == UNSENT
    ensures HasNoDue(At(OVERLAP, 5), 7) && StatusOf(At(OVERLAP, 5).home, 7) == UNSPECIFIED
  {
    BothRead();
    ActAt(OVERLAP, 3);
    ActAt(OVERLAP, 4);
  }
}

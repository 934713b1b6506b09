/** How an assignment's status moves over submissions, feedbacks, edits and time. */
module HomeworkRuns {
  import opened Prelude
  import opened RowNumber
  import opened HomeworkStatus

  // ------------------------------------------------------------------ statements

  function InsertSubmission(t: Tables, id: Id, row: Submission): Tables
  {
    if id in t.submissions || row.assignment !in t.assignments then t
    else t.(submissions := t.submissions[id := row])
  }

  function InsertFeedback(t: Tables, id: Id, row: Feedback): Tables {
    if id in t.feedbacks || row.submission !in t.submissions then t
    else t.(feedbacks := t.feedbacks[id := row])
  }

  /** UpdateAssignment: the fields present in the request replace the stored ones. */
  datatype Patch = Patch(title: Option<string>, description: Option<string>, file: Option<Id>, due: Option<int>)

  function Merged(row: Assignment, p: Patch): Assignment {
    row.(title := if p.title.Some? then p.title else row.title,
         description := if p.description.Some? then p.description else row.description,
         file := if p.file.Some? then p.file else row.file,
         due := if p.due.Some? then p.due else row.due)
  }

  function PatchAssignment(t: Tables, id: Id, p: Patch): Tables {
    if id !in t.assignments then t else t.(assignments := t.assignments[id := Merged(t.assignments[id], p)])
  }

  /** UpdateFeedback: content only. */
  function PatchFeedback(t: Tables, id: Id, file: Option<Id>, comment: Option<string>): Tables {
    if id !in t.feedbacks then t
    else
      var row := t.feedbacks[id];
      t.(feedbacks := t.feedbacks[id := row.(file := if file.Some? then file else row.file,
                                             comment := if comment.Some? then comment else row.comment)])
  }

  /** UPDATE assignments SET title, description, file_id, due_date: the other columns stay. */
  function Overwritten(stored: Assignment, held: Assignment): Assignment {
    stored.(title := held.title, description := held.description, file := held.file, due := held.due)
  }

  function WriteBack(t: Tables, id: Id, held: Assignment): Tables {
    if id !in t.assignments then t
    else t.(assignments := t.assignments[id := Overwritten(t.assignments[id], held)])
  }

  /** s is a submission of assignment id. */
  predicate SubmittedTo(t: Tables, s: Id, id: Id) { s in t.submissions && t.submissions[s].assignment == id }

  /** DELETE FROM assignments, cascading to submissions and their feedbacks. */
  function DeleteCascade(t: Tables, id: Id): Tables {
    Tables(t.assignments - {id},
           map s | s in t.submissions && !SubmittedTo(t, s, id) :: t.submissions[s],
           map f | f in t.feedbacks && !SubmittedTo(t, t.feedbacks[f].submission, id) :: t.feedbacks[f])
  }

  class Store {
    var assignments: map<Id, Assignment>
    var submissions: map<Id, Submission>
    var feedbacks: map<Id, Feedback>

    function Rows(): Tables
      reads this
    {
      Tables(assignments, submissions, feedbacks)
    }

    constructor ()
      ensures Rows() == Tables(map[], map[], map[])
    {
      assignments, submissions, feedbacks := map[], map[], map[];
    }

    method CreateSubmission(assignment: Id, file: Option<Id>, comment: Option<string>, id: Id,
                            now: int) returns (ok: bool)
      modifies this`submissions
      ensures ok <==> assignment in assignments && id !in old(submissions)
      ensures !ok ==> submissions == old(submissions)
      ensures ok ==>
                && submissions.Keys == old(submissions).Keys + {id}
                && (forall s :: s in old(submissions) ==> submissions[s] == old(submissions)[s])
                && submissions[id].assignment == assignment && submissions[id].file == file
                && submissions[id].comment == comment && submissions[id].createdAt == now
      ensures Rows() == InsertSubmission(old(Rows()), id, Submission(assignment, file, comment, now))
    {
      if assignment !in assignments || id in submissions { return false; }
      submissions := submissions[id := Submission(assignment, file, comment, now)];
      return true;
    }

    method CreateFeedback(submission: Id, file: Option<Id>, comment: Option<string>, id: Id,
                          now: int) returns (ok: bool)
      modifies this`feedbacks
      ensures ok <==> submission in submissions && id !in old(feedbacks)
      ensures !ok ==> feedbacks == old(feedbacks)
      ensures ok ==>
                && feedbacks.Keys == old(feedbacks).Keys + {id}
                && (forall f :: f in old(feedbacks) ==> feedbacks[f] == old(feedbacks)[f])
                && feedbacks[id].submission == submission && feedbacks[id].file == file
                && feedbacks[id].comment == comment && feedbacks[id].createdAt == now
      ensures Rows() == InsertFeedback(old(Rows()), id, Feedback(submission, file, comment, now))
    {
      if submission !in submissions || id in feedbacks { return false; }
      feedbacks := feedbacks[id := Feedback(submission, file, comment, now)];
      return true;
    }

    /** The repository's Update: the four columns of the given row replace the stored ones. */
    method Update(id: Id, row: Assignment) returns (ok: bool)
      modifies this`assignments
      ensures ok <==> id in old(assignments)
      ensures assignments.Keys == old(assignments).Keys
      ensures forall a :: a in assignments && a != id ==> assignments[a] == old(assignments)[a]
      ensures ok ==>
                var was, now := old(assignments)[id], assignments[id];
                && now.title == row.title && now.description == row.description && now.file == row.file
                && now.due == row.due
                && now.tutor == was.tutor && now.student == was.student && now.createdAt == was.createdAt
      ensures Rows() == WriteBack(old(Rows()), id, row)
    {
      if id !in assignments { return false; }
      assignments := assignments[id := Overwritten(assignments[id], row)];
      return true;
    }

    /** The handler undisturbed: read, replace the fields the request brings, write back. */
    method UpdateAssignment(id: Id, p: Patch) returns (ok: bool)
      modifies this`assignments
      ensures ok <==> id in old(assignments)
      ensures assignments.Keys == old(assignments).Keys
      ensures forall a :: a in assignments && a != id ==> assignments[a] == old(assignments)[a]
      ensures ok ==>
                var was, now := old(assignments)[id], assignments[id];
                && now.title == (if p.title.Some? then p.title else was.title)
                && now.description == (if p.description.Some? then p.description else was.description)
                && now.file == (if p.file.Some? then p.file else was.file)
                && now.due == (if p.due.Some? then p.due else was.due)
                && now.tutor == was.tutor && now.student == was.student && now.createdAt == was.createdAt
      ensures Rows() == PatchAssignment(old(Rows()), id, p)
    {
      if id !in assignments { return false; }
      var updated := assignments[id];
      if p.title.Some? { updated := updated.(title := p.title); }
      if p.description.Some? { updated := updated.(description := p.description); }
      if p.file.Some? { updated := updated.(file := p.file); }
      if p.due.Some? { updated := updated.(due := p.due); }
      ok := Update(id, updated);
    }

    /** The assignment goes, its submissions go, the feedbacks on them go; nothing else does. */
    method DeleteAssignment(id: Id) returns (ok: bool)
      modifies this
      ensures ok <==> id in old(assignments)
      ensures id !in assignments
      ensures forall a :: a != id && a in old(assignments) ==>
              a in assignments && assignments[a] == old(assignments)[a]
      ensures forall s :: s in submissions ==> s in old(submissions) && submissions[s].assignment != id
      ensures forall s :: s in old(submissions) && old(submissions)[s].assignment != id ==>
                s in submissions && submissions[s] == old(submissions)[s]
      ensures forall f :: f in feedbacks ==>
              f in old(feedbacks) && !SubmittedTo(old(Rows()), feedbacks[f].submission, id)
      ensures forall f :: f in old(feedbacks) && !SubmittedTo(old(Rows()), old(feedbacks)[f].submission, id) ==>
                f in feedbacks && feedbacks[f] == old(feedbacks)[f]
      ensures Rows() == DeleteCascade(old(Rows()), id)
    {
      ok := id in assignments;
      var gone := set s | s in submissions && submissions[s].assignment == id;
      assignments := assignments - {id};
      feedbacks := feedbacks - (set f | f in feedbacks && feedbacks[f].submission in gone);
      submissions := submissions - gone;
    }

    method UpdateFeedback(id: Id, file: Option<Id>, comment: Option<string>) returns (ok: bool)
      modifies this`feedbacks
      ensures ok <==> id in old(feedbacks)
      ensures feedbacks.Keys == old(feedbacks).Keys
      ensures forall f :: f in feedbacks && f != id ==> feedbacks[f] == old(feedbacks)[f]
      ensures ok ==>
                var was, now := old(feedbacks)[id], feedbacks[id];
                && now.file == (if file.Some? then file else was.file)
                && now.comment == (if comment.Some? then comment else was.comment)
                && now.submission == was.submission && now.createdAt == was.createdAt
      ensures Rows() == PatchFeedback(old(Rows()), id, file, comment)
    {
      if id !in feedbacks { return false; }
      var existing := feedbacks[id];
      if comment.Some? { existing := existing.(comment := comment); }
      if file.Some? { existing := existing.(file := file); }
      feedbacks := feedbacks[id := existing];
      return true;
    }
  }

  // ------------------------------------------------------------------------ runs

  datatype Event =
    | Assign(id: Id, row: Assignment)
    | Submit(assignment: Id, id: Id, file: Option<Id>, comment: Option<string>)
    | Review(submission: Id, id: Id, file: Option<Id>, comment: Option<string>)
    | Edit(assignment: Id, patch: Patch)
    | EditReview(id: Id, file: Option<Id>, comment: Option<string>)
    | Delete(assignment: Id)
    | Tick(elapsed: nat)

  /** last is the newest creation time handed out; issued the ids drawn. */
  datatype Homework = Homework(rows: Tables, now: int, last: int, issued: set<Id>)

  const EMPTY := Homework(Tables(map[], map[], map[]), 0, -1, {})

  /** Creation times are strictly increasing and ids are never drawn twice. */
  predicate MayCreate(h: Homework, id: Id) { h.now > h.last && id !in h.issued }

  function Created(h: Homework, rows: Tables, id: Id): Homework {
    Homework(rows, h.now, h.now, h.issued + {id})
  }

  function Happen(h: Homework, e: Event): Homework {
    match e
    case Assign(id, row) =>
      if !MayCreate(h, id) then h
      else Created(h, h.rows.(assignments := h.rows.assignments[id := row.(createdAt := h.now)]), id)
    case Submit(a, id, file, comment) =>
      if !MayCreate(h, id) then h else Created(h, InsertSubmission(h.rows, id, Submission(a, file, comment, h.now)), id)
    case Review(s, id, file, comment) =>
      if !MayCreate(h, id) then h else Created(h, InsertFeedback(h.rows, id, Feedback(s, file, comment, h.now)), id)
    case Edit(a, p) => h.(rows := PatchAssignment(h.rows, a, p))
    case EditReview(f, file, comment) => h.(rows := PatchFeedback(h.rows, f, file, comment))
    case Delete(a) => h.(rows := DeleteCascade(h.rows, a))
    case Tick(elapsed) => h.(now := h.now + elapsed)
  }

  function Live(events: seq<Event>): Homework {
    if events == [] then EMPTY else Happen(Live(events[..|events| - 1]), events[|events| - 1])
  }

  ghost predicate TimesDiffer(submissions: map<Id, Submission>) {
    forall s, q | s in submissions && q in submissions && s != q :: submissions[s].createdAt != submissions[q].createdAt
  }

  ghost predicate SubmissionsOk(submissions: map<Id, Submission>, assignments: set<Id>, last: int, issued: set<Id>) {
    forall s :: s in submissions ==>
      submissions[s].assignment in assignments && submissions[s].createdAt <= last && s in issued
  }

  ghost predicate FeedbacksOk(feedbacks: map<Id, Feedback>, submissions: set<Id>, issued: set<Id>) {
    forall f :: f in feedbacks ==> feedbacks[f].submission in submissions && f in issued
  }

  /** References hold, ids are drawn, and creation times lie in the past and differ. */
  ghost predicate Inv(h: Homework) {
    && h.last <= h.now
    && SubmissionsOk(h.rows.submissions, h.rows.assignments.Keys, h.last, h.issued)
    && FeedbacksOk(h.rows.feedbacks, h.rows.submissions.Keys, h.issued)
    && h.rows.assignments.Keys <= h.issued
    && TimesDiffer(h.rows.submissions)
  }

  lemma {:induction false} HappenKeepsInv(h: Homework, e: Event)
    requires Inv(h)
    ensures Inv(Happen(h, e))
  {
    if e.Submit? {
      SubmitKeepsInv(h, e);
    } else if e.Delete? {
      DeleteKeepsInv(h, e);
    } else if e.Review? || e.EditReview? {
      FeedbackKeepsInv(h, e);
    } else {
      AssignmentKeepsInv(h, e);
    }
  }

  lemma {:induction false} FeedbackKeepsInv(h: Homework, e: Event)
    requires Inv(h) && (e.Review? || e.EditReview?)
    ensures Inv(Happen(h, e))
  {
    var h' := Happen(h, e);
    assert h'.rows.submissions == h.rows.submissions && h'.rows.assignments == h.rows.assignments;
    forall f | f in h'.rows.feedbacks
      ensures h'.rows.feedbacks[f].submission in h.rows.submissions && f in h'.issued
    {
      if f in h.rows.feedbacks {
        assert h'.rows.feedbacks[f].submission == h.rows.feedbacks[f].submission;
      }
    }
  }

  lemma {:induction false} AssignmentKeepsInv(h: Homework, e: Event)
    requires Inv(h) && (e.Assign? || e.Edit? || e.Tick?)
    ensures Inv(Happen(h, e))
  {
    var h' := Happen(h, e);
    assert h'.rows.submissions == h.rows.submissions && h'.rows.feedbacks == h.rows.feedbacks;
  }

  lemma {:induction false} SubmitKeepsInv(h: Homework, e: Event)
    requires Inv(h) && e.Submit?
    ensures Inv(Happen(h, e))
  {
    var h' := Happen(h, e);
    assert forall s :: s in h.rows.submissions ==>
           s in h'.rows.submissions && h'.rows.submissions[s] == h.rows.submissions[s];
  }

  lemma {:induction false} DeleteKeepsInv(h: Homework, e: Event)
    requires Inv(h) && e.Delete?
    ensures Inv(Happen(h, e))
  {
    var h' := Happen(h, e);
    assert forall s :: s in h'.rows.submissions ==>
           s in h.rows.submissions && h'.rows.submissions[s] == h.rows.submissions[s];
  }

  lemma {:induction false} LiveKeepsInv(events: seq<Event>)
    ensures Inv(Live(events))
  {
    if events != [] {
      LiveKeepsInv(events[..|events| - 1]);
      HappenKeepsInv(Live(events[..|events| - 1]), events[|events| - 1]);
    }
  }

  /** The status as a function, which it is once creation times do not tie. */
  ghost function StatusOf(h: Homework, a: Id): Status
    requires a in h.rows.assignments
  {
    if Submitted(h.rows, a) then
      if exists s :: IsLatestSubmission(h.rows, a, s) && Reviewed(h.rows, s) then REVIEWED else UNREVIEWED
    else ByDueDate(h.rows.assignments[a].due, h.now)
  }

  /** In any state of any run the query, however the server numbers the rows, reports StatusOf. */
  lemma QueryReportsStatusOf(events: seq<Event>, n: Numbers, a: Id)
    requires IsNumbers(Live(events).rows, n) && a in Live(events).rows.assignments
    ensures forall row :: row in StatusRows(Live(events).rows, n, Live(events).now) && row.assignment == a
              <==> row == StatusRow(a, StatusOf(Live(events), a))
  {
    var h := Live(events);
    LiveKeepsInv(events);
    var st := QueryIsDirect(h.rows, n, h.now, a);
    if Submitted(h.rows, a) {
      var s :| IsLatestSubmission(h.rows, a, s) && st == ByReview(h.rows, s);
      forall q | IsLatestSubmission(h.rows, a, q)
        ensures q == s
      {
        assert h.rows.submissions[q].createdAt == h.rows.submissions[s].createdAt;
      }
    }
  }

  /** Two states show an assignment alike when its due date, its submissions and which of them
      have feedback are the same. */
  lemma SameView(h: Homework, h': Homework, a: Id)
    requires a in h.rows.assignments && a in h'.rows.assignments && h.now == h'.now
    requires h'.rows.assignments[a].due == h.rows.assignments[a].due || Submitted(h.rows, a)
    requires forall s | s in h.rows.submissions && h.rows.submissions[s].assignment == a ::
               s in h'.rows.submissions && h'.rows.submissions[s] == h.rows.submissions[s]
    requires forall s | s in h'.rows.submissions && h'.rows.submissions[s].assignment == a ::
               s in h.rows.submissions && h.rows.submissions[s].assignment == a
    requires forall s | s in h.rows.submissions && h.rows.submissions[s].assignment == a ::
             Reviewed(h'.rows, s) == Reviewed(h.rows, s)
    ensures StatusOf(h', a) == StatusOf(h, a)
  {
    assert forall s :: IsLatestSubmission(h.rows, a, s) <==> IsLatestSubmission(h'.rows, a, s);
  }

  /** A new submission makes its assignment UNREVIEWED and no other assignment moves. */
  lemma SubmitMoves(h: Homework, e: Event, a: Id)
    requires Inv(h) && e.Submit? && a in h.rows.assignments && MayCreate(h, e.id)
    ensures StatusOf(Happen(h, e), a) == if a == e.assignment then UNREVIEWED else StatusOf(h, a)
  {
    var h' := Happen(h, e);
    if a == e.assignment {
      assert IsLatestSubmission(h'.rows, a, e.id);
      assert !Reviewed(h'.rows, e.id);
    } else {
      SameView(h, h', a);
    }
  }

  /** Feedback makes an assignment REVIEWED exactly when it is feedback on its latest
      submission; on an older one, or on another assignment's, it changes nothing. */
  lemma ReviewMoves(h: Homework, e: Event, a: Id)
    requires Inv(h) && e.Review? && a in h.rows.assignments && MayCreate(h, e.id) && e.submission in h.rows.submissions
    ensures StatusOf(Happen(h, e), a)
            == if IsLatestSubmission(h.rows, a, e.submission) then REVIEWED else StatusOf(h, a)
  {
    var h' := Happen(h, e);
    assert h'.rows.feedbacks[e.id].submission == e.submission;
    forall s
      ensures Reviewed(h'.rows, s) <==> s == e.submission || Reviewed(h.rows, s)
    {
      if Reviewed(h.rows, s) {
        var f :| f in h.rows.feedbacks && h.rows.feedbacks[f].submission == s;
        assert f in h'.rows.feedbacks && h'.rows.feedbacks[f].submission == s;
      }
    }
    assert forall s :: IsLatestSubmission(h.rows, a, s) <==> IsLatestSubmission(h'.rows, a, s);
    if IsLatestSubmission(h.rows, a, e.submission) {
      assert IsLatestSubmission(h'.rows, a, e.submission) && Reviewed(h'.rows, e.submission);
    }
    assert Submitted(h'.rows, a) <==> Submitted(h.rows, a);
  }

  /** Time alone only turns UNSENT into OVERDUE, and does so exactly when the due date passes. */
  lemma TickMoves(h: Homework, elapsed: nat, a: Id)
    requires a in h.rows.assignments
    ensures var st, st' := StatusOf(h, a), StatusOf(Happen(h, Tick(elapsed)), a);
            && (st' == st || (st == UNSENT && st' == OVERDUE))
            && (st == UNSENT ==> (st' == OVERDUE <==> h.rows.assignments[a].due.value <= h.now + elapsed))
  {
    var h' := Happen(h, Tick(elapsed));
    assert h'.rows == h.rows;
  }

  /** Editing an assignment moves only it, only through its due date, and only while nothing
      has been submitted; a due date once set stays set. */
  lemma EditMoves(h: Homework, e: Event, a: Id)
    requires e.Edit? && a in h.rows.assignments
    ensures var h' := Happen(h, e);
            && h'.rows == PatchAssignment(h.rows, e.assignment, e.patch)
            && a in h'.rows.assignments
            && (h.rows.assignments[a].due.Some? ==> h'.rows.assignments[a].due.Some?)
            && StatusOf(h', a) ==
               if a == e.assignment && !Submitted(h.rows, a) && e.patch.due.Some? then ByDueDate(e.patch.due, h.now)
               else StatusOf(h, a)
  {
    var h' := Happen(h, e);
    assert forall s :: Reviewed(h'.rows, s) == Reviewed(h.rows, s);
    if a == e.assignment && !Submitted(h.rows, a) && e.patch.due.Some? {
      assert !Submitted(h'.rows, a);
    } else {
      SameView(h, h', a);
    }
  }

  lemma EditReviewMovesNothing(h: Homework, e: Event, a: Id)
    requires e.EditReview? && a in h.rows.assignments
    ensures StatusOf(Happen(h, e), a) == StatusOf(h, a)
    ensures Happen(h, e).rows == PatchFeedback(h.rows, e.id, e.file, e.comment)
  {
    var h' := Happen(h, e);
    forall s
      ensures Reviewed(h'.rows, s) == Reviewed(h.rows, s)
    {
      if Reviewed(h.rows, s) {
        var f :| f in h.rows.feedbacks && h.rows.feedbacks[f].submission == s;
        assert f in h'.rows.feedbacks && h'.rows.feedbacks[f].submission == s;
      }
    }
    SameView(h, h', a);
  }

  /** A new assignment is there with the row given, by its due date alone, and no other moves. */
  lemma {:induction false} AssignMoves(h: Homework, id: Id, row: Assignment, a: Id)
    requires Inv(h) && MayCreate(h, id) && (a in h.rows.assignments || a == id)
    ensures var h' := Happen(h, Assign(id, row));
            && h'.rows.assignments == h.rows.assignments[id := row.(createdAt := h.now)]
            && StatusOf(h', a) == if a != id then StatusOf(h, a)
                                  else if row.due == None then UNSPECIFIED
                                  else if h.now < row.due.value then UNSENT else OVERDUE
  {
    var h' := Happen(h, Assign(id, row));
    if a != id {
      SameView(h, h', a);
    } else {
      assert !Submitted(h'.rows, id);
    }
  }

  /** Deleting an assignment removes it and moves no other. */
  lemma {:induction false} DeleteMoves(h: Homework, id: Id, a: Id)
    requires Inv(h) && a in h.rows.assignments && a != id
    ensures var h' := Happen(h, Delete(id));
            && id !in h'.rows.assignments && !Submitted(h'.rows, id)
            && a in h'.rows.assignments && StatusOf(h', a) == StatusOf(h, a)
  {
    var h' := Happen(h, Delete(id));
    forall s | s in h.rows.submissions && h.rows.submissions[s].assignment == a
      ensures Reviewed(h'.rows, s) == Reviewed(h.rows, s)
    {
      if Reviewed(h.rows, s) {
        var f :| f in h.rows.feedbacks && h.rows.feedbacks[f].submission == s;
        assert !SubmittedTo(h.rows, s, id);
        assert f in h'.rows.feedbacks && h'.rows.feedbacks[f].submission == s;
      }
    }
    SameView(h, h', a);
  }

  /** What a live assignment keeps: being submitted, and having a due date. */
  ghost predicate Keeps(h: Homework, h': Homework, a: Id)
    requires a in h.rows.assignments
  {
    && a in h'.rows.assignments
    && (Submitted(h.rows, a) ==> Submitted(h'.rows, a))
    && (h.rows.assignments[a].due.Some? ==> h'.rows.assignments[a].due.Some?)
  }

  lemma SubmittedStays(h: Homework, e: Event, a: Id)
    requires a in h.rows.assignments && e != Delete(a)
    ensures Inv(h) && Submitted(h.rows, a) ==> Submitted(Happen(h, e).rows, a)
  {
    if Inv(h) && Submitted(h.rows, a) {
      var h' := Happen(h, e);
      var s :| s in h.rows.submissions && h.rows.submissions[s].assignment == a;
      assert s in h'.rows.submissions && h'.rows.submissions[s].assignment == a;
    }
  }

  lemma HappenKeeps(h: Homework, e: Event, a: Id)
    requires Inv(h) && a in h.rows.assignments && e != Delete(a)
    ensures Keeps(h, Happen(h, e), a)
  {
    SubmittedStays(h, e, a);
    if e.Edit? { EditMoves(h, e, a); }
  }

  lemma {:induction false} LiveKeeps(events: seq<Event>, i: nat, a: Id)
    requires i <= |events| && a in Live(events[..i]).rows.assignments
    requires forall k :: i <= k < |events| ==> events[k] != Delete(a)
    ensures Keeps(Live(events[..i]), Live(events), a)
    decreases |events|
  {
    if i == |events| {
      assert events[..i] == events;
    } else {
      var n := |events| - 1;
      assert events[..n][..i] == events[..i];
      LiveKeeps(events[..n], i, a);
      LiveKeepsInv(events[..n]);
      HappenKeeps(Live(events[..n]), events[n], a);
    }
  }

  /** Once something has been submitted to an assignment, it is UNREVIEWED or REVIEWED until it
      is deleted: never again UNSENT, OVERDUE or UNSPECIFIED. */
  lemma SubmittedForGood(events: seq<Event>, i: nat, a: Id)
    requires i <= |events| && a in Live(events[..i]).rows.assignments && Submitted(Live(events[..i]).rows, a)
    requires forall k :: i <= k < |events| ==> events[k] != Delete(a)
    ensures a in Live(events).rows.assignments
    ensures StatusOf(Live(events), a) == UNREVIEWED || StatusOf(Live(events), a) == REVIEWED
  {
    LiveKeeps(events, i, a);
  }
}

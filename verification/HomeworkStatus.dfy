/** The status query of homework_service: windows, rn = 1, two left joins and a CASE over
    NULLs, against a direct definition of an assignment's status. */
module HomeworkStatus {
  import opened Prelude
  import opened RowNumber

  datatype Assignment = Assignment(tutor: Id, student: Id, title: Option<string>, description: Option<string>,
                                   file: Option<Id>, due: Option<int>, createdAt: int)

  datatype Submission = Submission(assignment: Id, file: Option<Id>, comment: Option<string>, createdAt: int)

  datatype Feedback = Feedback(submission: Id, file: Option<Id>, comment: Option<string>, createdAt: int)

  datatype Tables = Tables(assignments: map<Id, Assignment>, submissions: map<Id, Submission>,
                           feedbacks: map<Id, Feedback>)

  datatype Status = UNSPECIFIED | UNSENT | UNREVIEWED | REVIEWED | OVERDUE

  // ------------------------------------------------------------------ the query

  function SubmissionStamps(t: Tables): map<Id, Stamp> {
    map s | s in t.submissions :: Stamp(t.submissions[s].assignment, t.submissions[s].createdAt)
  }

  function FeedbackStamps(t: Tables): map<Id, Stamp> {
    map f | f in t.feedbacks :: Stamp(t.feedbacks[f].submission, t.feedbacks[f].createdAt)
  }

  /** The numbers the server gives the rows of the two windows. */
  datatype Numbers = Numbers(submissions: map<Id, nat>, feedbacks: map<Id, nat>)

  ghost predicate IsNumbers(t: Tables, n: Numbers) {
    IsNumbering(SubmissionStamps(t), n.submissions) && IsNumbering(FeedbackStamps(t), n.feedbacks)
  }

  /** WHERE rn = 1. */
  function LatestRows(rn: map<Id, nat>): set<Id> {
    set r | r in rn && rn[r] == 1
  }

  /** A row of assignments LEFT JOIN latest_submissions LEFT JOIN latest_feedbacks: the ids of
      the matched rows, None for NULLs. */
  datatype Joined = Joined(assignment: Id, submission: Option<Id>, feedback: Option<Id>)

  function JoinSubmissions(t: Tables, latest: set<Id>): set<Joined> {
    (set s | s in latest && s in t.submissions && t.submissions[s].assignment in t.assignments ::
       Joined(t.submissions[s].assignment, Some(s), None))
    + (set a | a in t.assignments
             && !(exists s | s in latest :: s in t.submissions && t.submissions[s].assignment == a)
         :: Joined(a, None, None))
  }

  /** lf.submission_id = ls.id; a NULL submission id matches nothing. */
  predicate Matches(t: Tables, j: Joined, f: Id) {
    f in t.feedbacks && j.submission == Some(t.feedbacks[f].submission)
  }

  function JoinFeedbacks(t: Tables, rows: set<Joined>, latest: set<Id>): set<Joined> {
    (set j, f | j in rows && f in latest && Matches(t, j, f) :: j.(feedback := Some(f)))
    + (set j | j in rows && !(exists f | f in latest :: Matches(t, j, f)))
  }

  datatype Tri = True | False | Unknown

  function Compare(due: Option<int>, holds: int -> bool): Tri {
    if due.None? then Unknown else if holds(due.value) then True else False
  }

  function Both(p: Tri, q: Tri): Tri {
    if p.False? || q.False? then False else if p.Unknown? || q.Unknown? then Unknown else True
  }

  function Of(b: bool): Tri { if b then True else False }

  /** The CASE: the first WHEN that is true, not merely not false. */
  function CaseStatus(due: Option<int>, now: int, j: Joined): Status {
    if Both(Of(j.submission.None?), Compare(due, d => d > now)) == True then UNSENT
    else if Both(Of(j.submission.None?), Compare(due, d => d <= now)) == True then OVERDUE
    else if Both(Of(j.submission.Some?), Of(j.feedback.None?)) == True then UNREVIEWED
    else if Of(j.feedback.Some?) == True then REVIEWED
    else UNSPECIFIED
  }

  datatype StatusRow = StatusRow(assignment: Id, status: Status)

  function JoinedRows(t: Tables, n: Numbers): set<Joined> {
    JoinFeedbacks(t, JoinSubmissions(t, LatestRows(n.submissions)), LatestRows(n.feedbacks))
  }

  function StatusRows(t: Tables, n: Numbers, now: int): set<StatusRow> {
    set j | j in JoinedRows(t, n) && j.assignment in t.assignments ::
      StatusRow(j.assignment, CaseStatus(t.assignments[j.assignment].due, now, j))
  }

  // ------------------------------------------------------- the direct definition

  predicate Submitted(t: Tables, a: Id) {
    exists s :: s in t.submissions && t.submissions[s].assignment == a
  }

  predicate Reviewed(t: Tables, s: Id) {
    exists f :: f in t.feedbacks && t.feedbacks[f].submission == s
  }

  predicate IsLatestSubmission(t: Tables, a: Id, s: Id) {
    && s in t.submissions && t.submissions[s].assignment == a
    && forall q | q in t.submissions && t.submissions[q].assignment == a ::
       t.submissions[q].createdAt <= t.submissions[s].createdAt
  }

  /** The status of an assignment nobody has submitted to. */
  function ByDueDate(due: Option<int>, now: int): Status {
    match due
    case None => UNSPECIFIED
    case Some(d) => if d > now then UNSENT else OVERDUE
  }

  /** The status of a submitted assignment, seen from a latest submission of it. */
  function ByReview(t: Tables, s: Id): Status {
    if Reviewed(t, s) then REVIEWED else UNREVIEWED
  }

  /** st is a status the design allows for a: by due date while nothing is submitted, by the
      feedback of a latest submission afterwards. */
  ghost predicate HasStatus(t: Tables, now: int, a: Id, st: Status)
    requires a in t.assignments
  {
    if Submitted(t, a) then exists s :: IsLatestSubmission(t, a, s) && st == ByReview(t, s)
    else st == ByDueDate(t.assignments[a].due, now)
  }

  // ------------------------------------------------------------------ equivalence

  /** The latest submission the numbers pick for a, if there is one. */
  lemma PickedSubmission(t: Tables, n: Numbers, a: Id) returns (s: Option<Id>)
    requires IsNumbers(t, n) && a in t.assignments
    ensures s.Some? <==> Submitted(t, a)
    ensures s.Some? ==> IsLatestSubmission(t, a, s.value) && n.submissions[s.value] == 1
    ensures forall j :: j in JoinSubmissions(t, LatestRows(n.submissions)) && j.assignment == a
                        <==> j == Joined(a, s, None)
  {
    var rows := SubmissionStamps(t);
    var latest := LatestRows(n.submissions);
    if Submitted(t, a) {
      var some :| some in t.submissions && t.submissions[some].assignment == a;
      assert some in Partition(rows, a);
      var r := FirstRow(rows, n.submissions, a);
      s := Some(r);
      assert r in latest;
      forall q | q in t.submissions && t.submissions[q].assignment == a
        ensures t.submissions[q].createdAt <= t.submissions[r].createdAt
        ensures q in latest ==> q == r
      {
        assert q in Partition(rows, a);
      }
    } else {
      s := None;
    }
  }

  /** Whether the picked submission has a picked feedback: exactly when it has any. */
  lemma PickedFeedback(t: Tables, n: Numbers, s: Id) returns (f: Option<Id>)
    requires IsNumbers(t, n)
    ensures f.Some? <==> Reviewed(t, s)
    ensures forall g :: g in LatestRows(n.feedbacks) && g in t.feedbacks && t.feedbacks[g].submission == s
                        <==> f == Some(g)
  {
    var rows := FeedbackStamps(t);
    if Reviewed(t, s) {
      var some :| some in t.feedbacks && t.feedbacks[some].submission == s;
      assert some in Partition(rows, s);
      var r := FirstRow(rows, n.feedbacks, s);
      f := Some(r);
      forall g | g in LatestRows(n.feedbacks) && g in t.feedbacks && t.feedbacks[g].submission == s
        ensures g == r
      {
        assert g in Partition(rows, s);
      }
    } else {
      f := None;
    }
  }

  /** The joins keep exactly one row for every assignment. */
  lemma OneJoinedRow(t: Tables, n: Numbers, a: Id) returns (row: Joined)
    requires IsNumbers(t, n) && a in t.assignments
    ensures forall j :: j in JoinedRows(t, n) && j.assignment == a <==> j == row
    ensures row.assignment == a
    ensures row.submission.Some? <==> Submitted(t, a)
    ensures row.submission.Some? ==>
            IsLatestSubmission(t, a, row.submission.value) && n.submissions[row.submission.value] == 1
    ensures row.feedback.Some? <==> row.submission.Some? && Reviewed(t, row.submission.value)
  {
    var s := PickedSubmission(t, n, a);
    var left := Joined(a, s, None);
    var f: Option<Id> := None;
    if s.Some? { f := PickedFeedback(t, n, s.value); }
    row := left.(feedback := f);
    FeedbackJoin(t, JoinSubmissions(t, LatestRows(n.submissions)), LatestRows(n.feedbacks), left, f);
  }

  /** Joining feedbacks replaces the one row of an assignment by one row. */
  lemma FeedbackJoin(t: Tables, rows: set<Joined>, latest: set<Id>, left: Joined, f: Option<Id>)
    requires left.feedback == None
    requires forall j :: j in rows && j.assignment == left.assignment <==> j == left
    requires forall g :: g in latest && Matches(t, left, g) <==> f == Some(g)
    ensures forall j :: j in JoinFeedbacks(t, rows, latest) && j.assignment == left.assignment
                        <==> j == left.(feedback := f)
  {
    var joined := JoinFeedbacks(t, rows, latest);
    assert left in rows;
    if f.Some? {
      assert f.value in latest && Matches(t, left, f.value);
      assert left.(feedback := Some(f.value)) in joined;
    } else {
      assert left in joined;
    }
    forall j | j in joined && j.assignment == left.assignment
      ensures j == left.(feedback := f)
    {
      if j in rows && !(exists g | g in latest :: Matches(t, j, g)) {
        assert j == left;
      } else {
        var k, g :| k in rows && g in latest && Matches(t, k, g) && j == k.(feedback := Some(g));
        assert k == left;
      }
    }
  }

  /** For any tables, any clock and any tie-break the query yields exactly one row per
      assignment, and its status is one the direct definition allows. */
  lemma QueryIsDirect(t: Tables, n: Numbers, now: int, a: Id) returns (st: Status)
    requires IsNumbers(t, n) && a in t.assignments
    ensures forall row :: row in StatusRows(t, n, now) && row.assignment == a <==> row == StatusRow(a, st)
    ensures HasStatus(t, now, a, st)
    ensures st == UNSPECIFIED <==> !Submitted(t, a) && t.assignments[a].due.None?
  {
    var j := OneJoinedRow(t, n, a);
    st := CaseStatus(t.assignments[a].due, now, j);
    assert j in JoinedRows(t, n);
    if Submitted(t, a) {
      assert st == ByReview(t, j.submission.value);
    } else {
      assert st == ByDueDate(t.assignments[a].due, now);
    }
  }

  lemma {:induction false} ReportedIs(t: Tables, n: Numbers, now: int, a: Id, st: Status) returns (j: Joined)
    requires IsNumbers(t, n) && a in t.assignments
    ensures StatusRow(a, st) in StatusRows(t, n, now) <==> st == CaseStatus(t.assignments[a].due, now, j)
    ensures j.submission.Some? <==> Submitted(t, a)
    ensures j.submission.Some? ==>
              IsLatestSubmission(t, a, j.submission.value) && n.submissions[j.submission.value] == 1
    ensures j.feedback.Some? <==> j.submission.Some? && Reviewed(t, j.submission.value)
  {
    j := OneJoinedRow(t, n, a);
    assert j in JoinedRows(t, n);
  }

  /** The status the query reports, in the columns' own words, while nothing is submitted. */
  lemma {:induction false} StatusByDueDate(t: Tables, n: Numbers, now: int, a: Id, st: Status)
    requires IsNumbers(t, n) && a in t.assignments
    requires forall s :: s in t.submissions ==> t.submissions[s].assignment != a
    ensures StatusRow(a, st) in StatusRows(t, n, now) <==>
            if t.assignments[a].due == None then st == UNSPECIFIED
            else if now < t.assignments[a].due.value then st == UNSENT
            else st == OVERDUE
  {
    var j := ReportedIs(t, n, now, a, st);
  }

  /** Once something is, one submission is numbered 1, none is newer, and whether it has any
      feedback decides. */
  lemma {:induction false} StatusByReview(t: Tables, n: Numbers, now: int, a: Id, st: Status) returns (s: Id)
    requires IsNumbers(t, n) && a in t.assignments
    requires exists q :: q in t.submissions && t.submissions[q].assignment == a
    ensures s in t.submissions && t.submissions[s].assignment == a && n.submissions[s] == 1
    ensures forall q :: q in t.submissions && t.submissions[q].assignment == a ==>
              t.submissions[q].createdAt <= t.submissions[s].createdAt
    ensures StatusRow(a, st) in StatusRows(t, n, now) <==>
            if exists f :: f in t.feedbacks && t.feedbacks[f].submission == s then st == REVIEWED
            else st == UNREVIEWED
  {
    var j := ReportedIs(t, n, now, a, st);
    s := j.submission.value;
  }

  /** The query yields rows of stored assignments only. */
  lemma RowsAreAssignments(t: Tables, n: Numbers, now: int, row: StatusRow)
    requires row in StatusRows(t, n, now)
    ensures row.assignment in t.assignments
  {
  }

  // -------------------------------------------------------------------- tie-breaks

  /** All latest submissions of a, if several share the newest time, agree on being reviewed. */
  ghost predicate TiesAgree(t: Tables, a: Id) {
    forall s, q | IsLatestSubmission(t, a, s) && IsLatestSubmission(t, a, q) :: Reviewed(t, s) == Reviewed(t, q)
  }

  /** Every latest submission is the one some tie-break picks. */
  lemma EveryTieBreakHappens(t: Tables, a: Id, s: Id) returns (n: Numbers)
    requires a in t.assignments && IsLatestSubmission(t, a, s)
    ensures IsNumbers(t, n) && n.submissions[s] == 1
  {
    var rows := SubmissionStamps(t);
    n := Numbers(Favouring(rows, s), Favouring(FeedbackStamps(t), 0));
    FavouringNumbers(rows, s);
    FavouringNumbers(FeedbackStamps(t), 0);
    forall q | q in Partition(rows, a)
      ensures rows[q].createdAt <= rows[s].createdAt
    {
      assert t.submissions[q].assignment == a;
    }
    assert IsLatest(rows, rows[s].group, s);
  }

  lemma PickDecides(t: Tables, n: Numbers, now: int, a: Id, s: Id)
    requires IsNumbers(t, n) && a in t.assignments && IsLatestSubmission(t, a, s) && n.submissions[s] == 1
    ensures StatusRow(a, ByReview(t, s)) in StatusRows(t, n, now)
  {
    var j := OneJoinedRow(t, n, a);
    var rows := SubmissionStamps(t);
    assert rows[j.submission.value].group == rows[s].group == a;
    assert j in JoinedRows(t, n);
  }

  ghost predicate Yields(t: Tables, n: Numbers, now: int, a: Id, st: Status) {
    IsNumbers(t, n) && StatusRow(a, st) in StatusRows(t, n, now)
  }

  lemma {:induction false} TieChanges(t: Tables, now: int, a: Id, s: Id, q: Id)
    returns (n: Numbers, m: Numbers, st: Status, st': Status)
    requires a in t.assignments && Reviewed(t, s) != Reviewed(t, q)
    requires IsLatestSubmission(t, a, s) && IsLatestSubmission(t, a, q)
    ensures Yields(t, n, now, a, st) && Yields(t, m, now, a, st') && st != st'
  {
    n := EveryTieBreakHappens(t, a, s);
    m := EveryTieBreakHappens(t, a, q);
    PickDecides(t, n, now, a, s);
    PickDecides(t, m, now, a, q);
    st, st' := ByReview(t, s), ByReview(t, q);
  }

  lemma {:induction false} TieIsOne(t: Tables, now: int, a: Id, n: Numbers, m: Numbers, st: Status, st': Status)
    requires a in t.assignments && TiesAgree(t, a) && Yields(t, n, now, a, st) && Yields(t, m, now, a, st')
    ensures st == st'
  {
    var x := QueryIsDirect(t, n, now, a);
    var y := QueryIsDirect(t, m, now, a);
    assert StatusRow(a, st) == StatusRow(a, x) && StatusRow(a, st') == StatusRow(a, y);
  }

  /** The status does not depend on how the server breaks ties exactly when the latest
      submissions that share a creation time agree on having feedback. */
  lemma {:induction false} TieBreakIrrelevantIff(t: Tables, now: int, a: Id)
    requires a in t.assignments
    ensures TiesAgree(t, a) <==>
            forall n, m, st, st' :: Yields(t, n, now, a, st) && Yields(t, m, now, a, st') ==> st == st'
  {
    if TiesAgree(t, a) {
      forall n, m, st, st' | Yields(t, n, now, a, st) && Yields(t, m, now, a, st')
        ensures st == st'
      {
        TieIsOne(t, now, a, n, m, st, st');
      }
    } else {
      var s, q :| IsLatestSubmission(t, a, s) && IsLatestSubmission(t, a, q) && Reviewed(t, s) != Reviewed(t, q);
      var n, m, st, st' := TieChanges(t, now, a, s, q);
    }
  }

  // ------------------------------------------------------------------- consumers

  /** due_date BETWEEN NOW() AND deadline AND status NOT IN ('REVIEWED', 'OVERDUE'). */
  function FindAssignmentsDueSoon(t: Tables, n: Numbers, now: int, deadline: int): set<Id> {
    set row | row in StatusRows(t, n, now) && row.assignment in t.assignments
      && DueSoon(t.assignments[row.assignment].due, row.status, now, deadline) == True
      :: row.assignment
  }

  function DueSoon(due: Option<int>, st: Status, now: int, deadline: int): Tri {
    Both(Both(Compare(due, d => now <= d), Compare(due, d => d <= deadline)), Of(st != REVIEWED && st != OVERDUE))
  }

  /** The reminder query finds exactly the assignments due in the window that are UNSENT or
      UNREVIEWED: an UNSPECIFIED one has no due date, and one due this very instant with
      nothing submitted is already OVERDUE. */
  lemma DueSoonExactly(t: Tables, n: Numbers, now: int, deadline: int, a: Id)
    requires IsNumbers(t, n) && a in t.assignments
    ensures a in FindAssignmentsDueSoon(t, n, now, deadline) <==>
            && t.assignments[a].due.Some? && now <= t.assignments[a].due.value <= deadline
            && (Yields(t, n, now, a, UNSENT) || Yields(t, n, now, a, UNREVIEWED))
  {
    var st := QueryIsDirect(t, n, now, a);
    assert forall row :: row in StatusRows(t, n, now) && row.assignment == a <==> row == StatusRow(a, st);
    assert StatusRow(a, st) in StatusRows(t, n, now);
    var due := t.assignments[a].due;
    assert DueSoon(due, st, now, deadline) == True <==>
           due.Some? && now <= due.value <= deadline && st != REVIEWED && st != OVERDUE;
    assert a in FindAssignmentsDueSoon(t, n, now, deadline) <==> DueSoon(due, st, now, deadline) == True;
  }

  /** ListByFilter's WHERE: an absent id or an empty status list filters nothing. */
  datatype Filter = Filter(tutor: Option<Id>, student: Option<Id>, statuses: seq<Status>)

  predicate Passes(f: Filter, tutor: Id, student: Id, status: Status) {
    && (f.tutor.None? || f.tutor.value == tutor)
    && (f.student.None? || f.student.value == student)
    && (f.statuses == [] || status in f.statuses)
  }

  function ListByFilter(t: Tables, n: Numbers, now: int, f: Filter): set<Id> {
    set row | row in StatusRows(t, n, now) && row.assignment in t.assignments
      && Passes(f, t.assignments[row.assignment].tutor, t.assignments[row.assignment].student, row.status)
      :: row.assignment
  }

  /** The status names a request may carry, UNSPECIFIED standing for any other name too. */
  method NormaliseStatuses(requested: seq<Status>) returns (statuses: seq<Status>)
    ensures statuses == Specified(requested)
  {
    statuses := [];
    for i := 0 to |requested|
      invariant statuses == Specified(requested[..i])
    {
      assert requested[..i + 1][..i] == requested[..i];
      if requested[i] != UNSPECIFIED {
        statuses := statuses + [requested[i]];
      }
    }
    assert requested[..|requested|] == requested;
  }

  function Specified(requested: seq<Status>): seq<Status> {
    if requested == [] then []
    else
      var last := requested[|requested| - 1];
      Specified(requested[..|requested| - 1]) + if last != UNSPECIFIED then [last] else []
  }

  lemma {:induction false} SpecifiedHas(requested: seq<Status>, st: Status)
    ensures st in Specified(requested) <==> st in requested && st != UNSPECIFIED
  {
    if requested != [] {
      var n := |requested| - 1;
      SpecifiedHas(requested[..n], st);
      assert requested == requested[..n] + [requested[n]];
    }
  }

  lemma ListingOf(t: Tables, n: Numbers, now: int, f: Filter, a: Id)
    requires IsNumbers(t, n) && a in t.assignments
    ensures a in ListByFilter(t, n, now, f) <==>
            && (f.tutor.None? || f.tutor.value == t.assignments[a].tutor)
            && (f.student.None? || f.student.value == t.assignments[a].student)
            && (f.statuses == [] || exists st :: st in f.statuses && Yields(t, n, now, a, st))
  {
    var st := QueryIsDirect(t, n, now, a);
    assert StatusRow(a, st) in StatusRows(t, n, now);
    assert forall row :: row in StatusRows(t, n, now) && row.assignment == a <==> row == StatusRow(a, st);
    if st in f.statuses { assert Yields(t, n, now, a, st); }
  }

  /** What a listing request returns: a status filter keeps the assignments in one of the named
      statuses, except that UNSPECIFIED is dropped from it, so that a filter of nothing but
      UNSPECIFIED lists everything and no filter ever selects the unspecified ones alone. */
  lemma RequestedListing(t: Tables, n: Numbers, now: int, f: Filter, a: Id)
    requires IsNumbers(t, n) && a in t.assignments
    ensures a in ListByFilter(t, n, now, f.(statuses := Specified(f.statuses))) <==>
            && (f.tutor.None? || f.tutor.value == t.assignments[a].tutor)
            && (f.student.None? || f.student.value == t.assignments[a].student)
            && ((forall st :: st in f.statuses ==> st == UNSPECIFIED)
                || exists st :: st in f.statuses && st != UNSPECIFIED && Yields(t, n, now, a, st))
  {
    forall st
      ensures st in Specified(f.statuses) <==> st in f.statuses && st != UNSPECIFIED
    {
      SpecifiedHas(f.statuses, st);
    }
    ListingOf(t, n, now, f.(statuses := Specified(f.statuses)), a);
    if Specified(f.statuses) != [] { assert Specified(f.statuses)[0] in Specified(f.statuses); }
  }
}

/** The assignment listing of homework_service: optional ids and any number of statuses. */
module SqlAssignments {
  import opened Prelude
  import opened SqlText
  import opened SqlMeaning
  import opened SqlClauses
  import opened SqlBuilders
  import HomeworkStatus

  datatype ListedAssignment = ListedAssignment(tutor: Id, student: Id, status: HomeworkStatus.Status)

  function StatusName(st: HomeworkStatus.Status): string {
    match st
    case UNSPECIFIED => "UNSPECIFIED"
    case UNSENT => "UNSENT"
    case UNREVIEWED => "UNREVIEWED"
    case REVIEWED => "REVIEWED"
    case OVERDUE => "OVERDUE"
  }

  lemma {:induction false} NamesDiffer(x: HomeworkStatus.Status, y: HomeworkStatus.Status)
    requires StatusName(x) == StatusName(y)
    ensures x == y
  {
    var n, m := StatusName(x), StatusName(y);
    assert |n| == |m| && n[0] == m[0] && n[2] == m[2];
  }

  /** The columns of assignment_statuses the filter looks at. */
  function AssignmentCells(r: ListedAssignment): Row {
    map["tutor_id" := Uuid(r.tutor), "student_id" := Uuid(r.student), "status" := Text(StatusName(r.status))]
  }

  function Names(statuses: seq<HomeworkStatus.Status>): seq<Value> {
    seq(|statuses|, i requires 0 <= i < |statuses| => Text(StatusName(statuses[i])))
  }

  lemma {:induction false} NamesNext(statuses: seq<HomeworkStatus.Status>, i: nat)
    requires i < |statuses|
    ensures Names(statuses[..i + 1]) == Names(statuses[..i]) + [Text(StatusName(statuses[i]))]
  {
  }

  lemma {:induction false} NameIn(st: HomeworkStatus.Status, statuses: seq<HomeworkStatus.Status>)
    ensures Text(StatusName(st)) in Names(statuses) <==> st in statuses
  {
    if st in statuses {
      var i :| 0 <= i < |statuses| && statuses[i] == st;
      assert Names(statuses)[i] == Text(StatusName(st));
    }
    if Text(StatusName(st)) in Names(statuses) {
      var i :| 0 <= i < |statuses| && Names(statuses)[i] == Text(StatusName(st));
      NamesDiffer(statuses[i], st);
    }
  }

  function Listed(f: HomeworkStatus.Filter): ListedAssignment -> bool {
    (r: ListedAssignment) => HomeworkStatus.Passes(f, r.tutor, r.student, r.status)
  }

  lemma {:induction false} ReadTruth()
    ensures CondIs("1=1", Truth, [])
  {
    assert "1=1" == "1" + "=1" && "=1" == "=" + "1";
    ReadWord("1");
    ReadInTurn("1", "=1");
    NoParams([ONE, Sign('='), ONE]);
    assert "=1"[1..] == "1";
  }

  /** body lists the assignments that pass seen. */
  ghost predicate Lists(body: string, args: seq<Value>, seen: HomeworkStatus.Filter) {
    exists conds :: Builds(body, conds, args, AssignmentCells, Listed(seen))
  }

  lemma {:induction false} ListsAllOf(all: string)
    requires WhereIs(all, [Truth], [])
    ensures Lists(all, [], HomeworkStatus.Filter(None, None, []))
  {
    assert UpFrom(1, 0) == [];
    assert Builds(all, [Truth], [], AssignmentCells, Listed(HomeworkStatus.Filter(None, None, [])));
  }

  lemma {:induction false} ListsAll()
    ensures Lists(ALL, [], HomeworkStatus.Filter(None, None, []))
  {
    ReadTruth();
    WhereLine("1=1", Truth, [], "\n");
    assert "WHERE " + "1=1" + "\n" == "WHERE 1=1\n";
    ListsAllOf(ALL);
  }

  lemma {:induction false} ListsByTutor(body: string, args: seq<Value>, seen: HomeworkStatus.Filter, tutor: Id)
    requires Lists(body, args, seen) && seen.tutor.None?
    ensures Lists(body + " AND " + Equals("tutor_id", |args| + 1), args + [Uuid(tutor)], seen.(tutor := Some(tutor)))
  {
    var conds :| Builds(body, conds, args, AssignmentCells, Listed(seen));
    AddEqual(body, conds, args, AssignmentCells, Listed(seen), "tutor_id", Uuid(tutor),
             Listed(seen.(tutor := Some(tutor))));
  }

  lemma {:induction false} ListsByStudent(body: string, args: seq<Value>, seen: HomeworkStatus.Filter, student: Id)
    requires Lists(body, args, seen) && seen.student.None?
    ensures Lists(body + " AND " + Equals("student_id", |args| + 1), args + [Uuid(student)],
                  seen.(student := Some(student)))
  {
    var conds :| Builds(body, conds, args, AssignmentCells, Listed(seen));
    AddEqual(body, conds, args, AssignmentCells, Listed(seen), "student_id", Uuid(student),
             Listed(seen.(student := Some(student))));
  }

  lemma {:induction false} ListsByStatus(body: string, args: seq<Value>, seen: HomeworkStatus.Filter,
                                         parts: seq<string>, statuses: seq<HomeworkStatus.Status>)
    requires Lists(body, args, seen) && seen.statuses == [] && |parts| == |statuses| > 0
    requires forall i :: 0 <= i < |parts| ==> parts[i] == Placeholder(|args| + 1 + i)
    ensures Lists(body + " AND " + In("status", parts), args + Names(statuses), seen.(statuses := statuses))
  {
    var conds :| Builds(body, conds, args, AssignmentCells, Listed(seen));
    forall st
      ensures Text(StatusName(st)) in Names(statuses) <==> st in statuses
    {
      NameIn(st, statuses);
    }
    AddIn(body, conds, args, AssignmentCells, Listed(seen), "status", parts, Names(statuses),
          Listed(seen.(statuses := statuses)));
  }

  // The three optional parts of the text and their arguments.

  function TutorArgs(f: HomeworkStatus.Filter): seq<Value> { if f.tutor.None? then [] else [Uuid(f.tutor.value)] }

  function StudentArgs(f: HomeworkStatus.Filter): seq<Value> { if f.student.None? then [] else [Uuid(f.student.value)] }

  function TutorText(f: HomeworkStatus.Filter): string {
    if f.tutor.None? then "" else " AND " + Equals("tutor_id", 1)
  }

  function StudentText(f: HomeworkStatus.Filter): string {
    if f.student.None? then "" else " AND " + Equals("student_id", |TutorArgs(f)| + 1)
  }

  function StatusText(f: HomeworkStatus.Filter): string {
    if f.statuses == [] then ""
    else " AND " + In("status", Placeholders(|TutorArgs(f) + StudentArgs(f)| + 1, |f.statuses|))
  }

  const ALL := "WHERE 1=1\n"

  lemma {:induction false} ListsTutor(f: HomeworkStatus.Filter, body: string)
    requires Lists(body, [], HomeworkStatus.Filter(None, None, []))
    ensures Lists(body + TutorText(f), TutorArgs(f), HomeworkStatus.Filter(f.tutor, None, []))
  {
    if f.tutor.Some? {
      ListsByTutor(body, [], HomeworkStatus.Filter(None, None, []), f.tutor.value);
      assert body + " AND " + Equals("tutor_id", 1) == body + TutorText(f);
      assert [] + TutorArgs(f) == TutorArgs(f);
    } else {
      assert body + "" == body;
    }
  }

  lemma {:induction false} ListsStudent(f: HomeworkStatus.Filter, body: string)
    requires Lists(body, TutorArgs(f), HomeworkStatus.Filter(f.tutor, None, []))
    ensures Lists(body + StudentText(f), TutorArgs(f) + StudentArgs(f), HomeworkStatus.Filter(f.tutor, f.student, []))
  {
    if f.student.Some? {
      ListsByStudent(body, TutorArgs(f), HomeworkStatus.Filter(f.tutor, None, []), f.student.value);
      assert body + " AND " + Equals("student_id", |TutorArgs(f)| + 1) == body + StudentText(f);
    } else {
      assert body + "" == body && TutorArgs(f) + [] == TutorArgs(f);
    }
  }

  lemma {:induction false} ListsStatus(f: HomeworkStatus.Filter, body: string, args: seq<Value>)
    requires Lists(body, args, HomeworkStatus.Filter(f.tutor, f.student, [])) && args == TutorArgs(f) + StudentArgs(f)
    ensures Lists(body + StatusText(f), args + Names(f.statuses), f)
  {
    var seen := HomeworkStatus.Filter(f.tutor, f.student, []);
    if f.statuses != [] {
      var parts := Placeholders(|args| + 1, |f.statuses|);
      ListsByStatus(body, args, seen, parts, f.statuses);
      Glued(body, " AND ", In("status", parts));
      assert seen.(statuses := f.statuses) == f;
    } else {
      assert body + StatusText(f) == body && args + Names(f.statuses) == args;
      assert f == seen;
    }
  }

  lemma {:induction false} ListsSelects(from: string, all: string, f: HomeworkStatus.Filter)
    requires Fixed(from) && Lists(all, [], HomeworkStatus.Filter(None, None, []))
    ensures Selects(from, from + (all + TutorText(f) + StudentText(f) + StatusText(f)),
                    TutorArgs(f) + StudentArgs(f) + Names(f.statuses), AssignmentCells, Listed(f), None)
  {
    var body := all + TutorText(f) + StudentText(f) + StatusText(f);
    var args := TutorArgs(f) + StudentArgs(f) + Names(f.statuses);
    ListsTutor(f, all);
    ListsStudent(f, all + TutorText(f));
    ListsStatus(f, all + TutorText(f) + StudentText(f), TutorArgs(f) + StudentArgs(f));
    assert Lists(body, args, f);
    var conds :| Builds(body, conds, args, AssignmentCells, Listed(f));
    BuiltSelects(from, body, conds, args, AssignmentCells, Listed(f));
  }

  lemma {:induction false} Regroup(from: string, a: string, b: string, c: string, d: string)
    ensures from + (a + b + c + d) == from + a + b + c + d
  {
  }

  /** The loop over the statuses: one placeholder and one argument each. */
  method StatusPlaceholders(statuses: seq<HomeworkStatus.Status>,
                            first: nat) returns (placeholders: seq<string>, args: seq<Value>)
    ensures placeholders == Placeholders(first, |statuses|) && args == Names(statuses)
  {
    placeholders, args := [], [];
    var argsCount := first;
    for i := 0 to |statuses|
      invariant argsCount == first + i
      invariant placeholders == Placeholders(first, i)
      invariant args == Names(statuses[..i])
    {
      NamesNext(statuses, i);
      placeholders := placeholders + [Placeholder(argsCount)];
      args := args + [Text(StatusName(statuses[i]))];
      argsCount := argsCount + 1;
    }
    assert statuses[..|statuses|] == statuses;
  }

  /** from is the status query down to FROM assignment_statuses. */
  method ListByFilter(from: string, f: HomeworkStatus.Filter) returns (query: string, args: seq<Value>)
    requires Fixed(from)
    ensures Selects(from, query, args, AssignmentCells, Listed(f), None)
  {
    query := from + "WHERE 1=1\n";
    args := [];
    var argsCount := 1;

    if f.tutor.Some? {
      query := query + (" AND " + Equals("tutor_id", argsCount));
      args := args + [Uuid(f.tutor.value)];
      argsCount := argsCount + 1;
    }
    assert query == from + ALL + TutorText(f) && args == TutorArgs(f) && argsCount == |args| + 1;

    if f.student.Some? {
      query := query + (" AND " + Equals("student_id", argsCount));
      args := args + [Uuid(f.student.value)];
      argsCount := argsCount + 1;
    }
    assert query == from + ALL + TutorText(f) + StudentText(f) && args == TutorArgs(f) + StudentArgs(f)
           && argsCount == |args| + 1;

    if |f.statuses| > 0 {
      var placeholders, added := StatusPlaceholders(f.statuses, argsCount);
      query := query + (" AND " + In("status", placeholders));
      args := args + added;
    }
    Regroup(from, ALL, TutorText(f), StudentText(f), StatusText(f));
    assert args == TutorArgs(f) + StudentArgs(f) + Names(f.statuses);
    assert query == from + ALL + TutorText(f) + StudentText(f) + StatusText(f);
    ListsAll();
    ListsSelects(from, ALL, f);
  }

  /** What the listing gives, in the rows' own fields: an absent id and an empty status list ask
      for everything. */
  lemma {:induction false} ListingMeans(from: string, query: string, args: seq<Value>, f: HomeworkStatus.Filter,
                                        rows: seq<ListedAssignment>, answer: seq<ListedAssignment>,
                                        r: ListedAssignment)
    requires Selects(from, query, args, AssignmentCells, Listed(f), None)
    requires MayAnswer(from, query, args, rows, AssignmentCells, Some(answer))
    ensures multiset(answer)[r]
            == if && (f.tutor == None || f.tutor == Some(r.tutor))
                  && (f.student == None || f.student == Some(r.student))
                  && (f.statuses == [] || r.status in f.statuses)
               then multiset(rows)[r] else 0
  {
    AnswerCounts(from, query, args, AssignmentCells, Listed(f), None, rows, answer, r);
  }

  /** The columns the text compares, and the names it compares the status with. */
  lemma {:induction false} CellsHold(r: ListedAssignment)
    ensures var cells := AssignmentCells(r);
            && "tutor_id" in cells && cells["tutor_id"] == Uuid(r.tutor)
            && "student_id" in cells && cells["student_id"] == Uuid(r.student)
            && "status" in cells && (r.status == HomeworkStatus.UNSENT ==> cells["status"] == Text("UNSENT"))
            && (r.status == HomeworkStatus.UNREVIEWED ==> cells["status"] == Text("UNREVIEWED"))
            && (r.status == HomeworkStatus.REVIEWED ==> cells["status"] == Text("REVIEWED"))
            && (r.status == HomeworkStatus.OVERDUE ==> cells["status"] == Text("OVERDUE"))
  {
  }
}

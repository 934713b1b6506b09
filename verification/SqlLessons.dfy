/** The lesson listings of schedule_service: whose lessons, and any number of statuses. */
module SqlLessons {
  import opened Prelude
  import opened SqlText
  import opened SqlMeaning
  import opened SqlClauses
  import opened SqlBuilders

  /** A row of lessons JOIN slots, in the columns the listings look at. */
  datatype LessonRow = LessonRow(tutor: Id, student: Id, status: string, startsAt: int)

  function LessonCells(r: LessonRow): Row {
    map["s.tutor_id" := Uuid(r.tutor), "l.student_id" := Uuid(r.student), "l.status" := Text(r.status),
        STARTS_AT := Int(r.startsAt)]
  }

  function OfTutor(tutor: Id): LessonRow -> bool { (r: LessonRow) => r.tutor == tutor }

  function OfStudent(student: Id): LessonRow -> bool { (r: LessonRow) => r.student == student }

  function OfPair(tutor: Id,
                  student: Id): LessonRow -> bool { (r: LessonRow) => r.tutor == tutor && r.student == student }

  /** An empty status filter filters nothing. */
  function InStatus(whose: LessonRow -> bool, statuses: seq<string>): LessonRow -> bool {
    (r: LessonRow) => whose(r) && (statuses == [] || r.status in statuses)
  }

  function Texts(statuses: seq<string>): seq<Value> {
    seq(|statuses|, i requires 0 <= i < |statuses| => Text(statuses[i]))
  }

  lemma {:induction false} TextsNext(statuses: seq<string>, i: nat)
    requires i < |statuses|
    ensures Texts(statuses[..i + 1]) == Texts(statuses[..i]) + [Text(statuses[i])]
  {
  }

  lemma {:induction false} TextIn(st: string, statuses: seq<string>)
    ensures Text(st) in Texts(statuses) <==> st in statuses
  {
    if st in statuses {
      var i :| 0 <= i < |statuses| && statuses[i] == st;
      assert Texts(statuses)[i] == Text(st);
    }
  }

  const STARTS_AT := "s.starts_at"
  const BY_START := Some(STARTS_AT)
  const ORDER_BY := " ORDER BY s.starts_at ASC"

  function StatusPart(first: nat, statuses: seq<string>): string {
    if statuses == [] then "" else " AND " + In("l.status", Placeholders(first, |statuses|))
  }

  /** A tail that orders rows by start and binds nothing. */
  ghost predicate Orders(tail: string) {
    && tail != "" && !Glue(tail[0]) && Tokens(tail) == [ORDER, BY, Word(STARTS_AT), ASC]
    && Params(Tokens(tail)) == []
  }

  lemma {:induction false} ReadOneMore(a: string, blank: string, w: string, ts: seq<Token>)
    requires Tokens(a) == ts && Separates(blank) && Tokens(blank) == [] && IsWord(w)
    ensures Tokens(a + blank + w) == ts + [Word(w)]
  {
    ReadWord(w);
    Paste(a, blank, w);
    assert ts + [] + [Word(w)] == ts + [Word(w)];
  }

  lemma {:induction false} ReadFourWords(blank: string, w: string, x: string, y: string, z: string)
    requires Separates(blank) && Tokens(blank) == [] && IsWord(w) && IsWord(x) && IsWord(y) && IsWord(z)
    ensures Tokens(blank + w + blank + x + blank + y + blank + z) == [Word(w), Word(x), Word(y), Word(z)]
  {
    assert "" + blank == blank;
    ReadOneMore("", blank, w, []);
    ReadOneMore(blank + w, blank, x, [Word(w)]);
    ReadOneMore(blank + w + blank + x, blank, y, [Word(w), Word(x)]);
    ReadOneMore(blank + w + blank + x + blank + y, blank, z, [Word(w), Word(x), Word(y)]);
  }

  lemma {:induction false} OrderWords()
    ensures IsWord("ORDER") && IsWord("BY") && IsWord(STARTS_AT) && IsWord("ASC")
    ensures Separates(" ") && Tokens(" ") == []
  {
  }

  lemma {:induction false} OrderText()
    ensures ORDER_BY == " " + "ORDER" + " " + "BY" + " " + STARTS_AT + " " + "ASC"
  {
  }

  lemma {:induction false} OrderBinds(column: string)
    ensures Params([ORDER, BY, Word(column), ASC]) == []
  {
    NoParams([ORDER, BY]);
    NoParams([Word(column), ASC]);
    ParamsInTurn([ORDER, BY], [Word(column), ASC]);
    assert [ORDER, BY] + [Word(column), ASC] == [ORDER, BY, Word(column), ASC];
  }

  lemma {:induction false} ReadsOrdered(before: seq<Token>, conds: seq<Cond>, tail: seq<Token>)
    requires AllWritten(conds) && before == [WHERE] + CondsTokens(conds) && tail == [ORDER, BY, Word(STARTS_AT), ASC]
    ensures ReadSelect(before + tail) == Some(SelectStatement(conds, BY_START))
  {
    assert before + tail == [WHERE] + (CondsTokens(conds) + tail);
    ReadsSelect(before + tail, conds, tail, BY_START);
  }

  lemma {:induction false} WhereThenOrder(body: string, conds: seq<Cond>, ps: seq<nat>, tail: string)
    requires WhereIs(body, conds, ps) && Orders(tail)
    ensures ReadSelect(Tokens(body + tail)) == Some(SelectStatement(conds, BY_START))
    ensures Params(Tokens(body + tail)) == ps
  {
    ReadInTurn(body, tail);
    ParamsInTurn(Tokens(body), Tokens(tail));
    ReadsOrdered(Tokens(body), conds, Tokens(tail));
  }

  lemma {:induction false} OrderedSelects(from: string, body: string, conds: seq<Cond>, args: seq<Value>,
                                          direct: LessonRow -> bool, tail: string)
    requires Fixed(from) && Builds(body, conds, args, LessonCells, direct) && Orders(tail)
    ensures Selects(from, from + (body + tail), args, LessonCells, direct, BY_START)
  {
    WhereThenOrder(body, conds, UpFrom(1, |args|), tail);
    SelectsBy(from, body + tail, conds, args, LessonCells, direct, BY_START);
  }

  /** A listing always has an answer. */
  lemma {:induction false} ListingAnswers(from: string, query: string, args: seq<Value>, direct: LessonRow -> bool,
                                          rows: seq<LessonRow>)
    requires Selects(from, query, args, LessonCells, direct, BY_START)
    ensures exists answer :: MayAnswer(from, query, args, rows, LessonCells, Some(answer))
  {
    SomeOrder(Keep(rows, direct), BY_START, LessonCells);
    var answer :| Delivered(Keep(rows, direct), BY_START, LessonCells, answer);
    assert MayAnswer(from, query, args, rows, LessonCells, Some(answer));
  }

  lemma {:induction false} BuildsStatus(body: string, conds: seq<Cond>, args: seq<Value>, whose: LessonRow -> bool,
                                        statuses: seq<string>)
    requires Builds(body, conds, args, LessonCells, whose) && statuses != []
    ensures Builds(body + " AND " + In("l.status", Placeholders(|args| + 1, |statuses|)),
                   conds + [Among("l.status", UpFrom(|args| + 1, |statuses|))],
                   args + Texts(statuses), LessonCells, InStatus(whose, statuses))
  {
    forall st
      ensures Text(st) in Texts(statuses) <==> st in statuses
    {
      TextIn(st, statuses);
    }
    AddIn(body, conds, args, LessonCells, whose, "l.status", Placeholders(|args| + 1, |statuses|), Texts(statuses),
          InStatus(whose, statuses));
  }

  lemma {:induction false} BuildsAnyStatus(body: string, conds: seq<Cond>, args: seq<Value>, whose: LessonRow -> bool)
    requires Builds(body, conds, args, LessonCells, whose)
    ensures Builds(body, conds, args, LessonCells, InStatus(whose, []))
  {
    assert forall r: LessonRow :: InStatus(whose, [])(r) == whose(r);
  }

  /** Whatever a listing starts with, the status part and the order leave its rows in status. */
  lemma {:induction false} LessonsSelect(from: string, body: string, conds: seq<Cond>, args: seq<Value>,
                                         whose: LessonRow -> bool, statuses: seq<string>, tail: string)
    requires Fixed(from) && Builds(body, conds, args, LessonCells, whose) && Orders(tail)
    ensures Selects(from, from + (body + StatusPart(|args| + 1, statuses) + tail),
                    args + Texts(statuses), LessonCells, InStatus(whose, statuses), BY_START)
  {
    if statuses == [] {
      assert body + StatusPart(|args| + 1, statuses) == body && args + Texts(statuses) == args;
      BuildsAnyStatus(body, conds, args, whose);
      OrderedSelects(from, body, conds, args, InStatus(whose, []), tail);
    } else {
      var part := In("l.status", Placeholders(|args| + 1, |statuses|));
      BuildsStatus(body, conds, args, whose, statuses);
      Glued(body, " AND ", part);
      OrderedSelects(from, body + " AND " + part, conds + [Among("l.status", UpFrom(|args| + 1, |statuses|))],
                     args + Texts(statuses), InStatus(whose, statuses), tail);
    }
  }

  /** The loop each listing runs: the i-th status is bound to $(i + first). */
  method StatusFilter(statuses: seq<string>, first: nat) returns (placeholders: seq<string>, args: seq<Value>)
    ensures placeholders == Placeholders(first, |statuses|) && args == Texts(statuses)
  {
    placeholders, args := [], [];
    for i := 0 to |statuses|
      invariant placeholders == Placeholders(first, i) && args == Texts(statuses[..i])
    {
      TextsNext(statuses, i);
      placeholders := placeholders + [Placeholder(i + first)];
      args := args + [Text(statuses[i])];
    }
    assert statuses[..|statuses|] == statuses;
  }

  lemma {:induction false} Regroup3(from: string, a: string, b: string, c: string)
    ensures from + (a + b + c) == from + a + b + c
  {
  }

  lemma {:induction false} FinishLessons(from: string, start: string, conds: seq<Cond>, args: seq<Value>,
                                         whose: LessonRow -> bool, statuses: seq<string>, tail: string)
    requires Fixed(from) && Builds(start, conds, args, LessonCells, whose) && Orders(tail)
    ensures Selects(from, from + start + StatusPart(|args| + 1, statuses) + tail,
                    args + Texts(statuses), LessonCells, InStatus(whose, statuses), BY_START)
  {
    Regroup3(from, start, StatusPart(|args| + 1, statuses), tail);
    LessonsSelect(from, start, conds, args, whose, statuses, tail);
  }

  lemma {:induction false} SortedOrders()
    ensures Orders(ORDER_BY)
  {
    OrderWords();
    ReadFourWords(" ", "ORDER", "BY", STARTS_AT, "ASC");
    OrderText();
    OrderBinds(STARTS_AT);
  }

  lemma {:induction false} CellsHold(r: LessonRow)
    ensures var cells := LessonCells(r);
            && "s.tutor_id" in cells && cells["s.tutor_id"] == Uuid(r.tutor)
            && "l.student_id" in cells && cells["l.student_id"] == Uuid(r.student)
            && "l.status" in cells && cells["l.status"] == Text(r.status)
            && STARTS_AT in cells && cells[STARTS_AT] == Int(r.startsAt)
  {
  }

  lemma {:induction false} IdColumns()
    ensures IsWord("s.tutor_id") && IsWord("l.student_id")
    ensures forall r: LessonRow :: "s.tutor_id" in LessonCells(r) && LessonCells(r)["s.tutor_id"] == Uuid(r.tutor)
    ensures forall r: LessonRow :: "l.student_id" in LessonCells(r) && LessonCells(r)["l.student_id"] == Uuid(r.student)
  {
    forall r: LessonRow
      ensures "s.tutor_id" in LessonCells(r) && LessonCells(r)["s.tutor_id"] == Uuid(r.tutor)
      ensures "l.student_id" in LessonCells(r) && LessonCells(r)["l.student_id"] == Uuid(r.student)
    {
      CellsHold(r);
    }
  }

  /** A listing by the id in one column. */
  lemma {:induction false} LessonsBy(from: string, column: string, id: Id, whose: LessonRow -> bool,
                                     statuses: seq<string>, tail: string)
    requires Fixed(from) && IsWord(column) && Orders(tail)
    requires forall r: LessonRow :: column in LessonCells(r) && whose(r) == (LessonCells(r)[column] == Uuid(id))
    ensures Selects(from, from + ("WHERE " + Equals(column, 1) + "\n\t") + StatusPart(2, statuses) + tail,
                    [Uuid(id)] + Texts(statuses), LessonCells, InStatus(whose, statuses), BY_START)
  {
    StartsBy(column, id, "\n\t", LessonCells, whose);
    FinishLessons(from, "WHERE " + Equals(column, 1) + "\n\t", [Equal(column, 1)], [Uuid(id)], whose, statuses, tail);
  }

  /** A listing by the ids in two columns. */
  lemma {:induction false} LessonsByTwo(from: string, first: string, id: Id, second: string, od: Id,
                                        whose: LessonRow -> bool, statuses: seq<string>, tail: string)
    requires Fixed(from) && IsWord(first) && IsWord(second) && Orders(tail)
    requires forall r: LessonRow :: first in LessonCells(r) && second in LessonCells(r)
    requires forall r: LessonRow ::
      whose(r) == (LessonCells(r)[first] == Uuid(id) && LessonCells(r)[second] == Uuid(od))
    ensures var start := "WHERE " + Equals(first, 1) + " AND " + Equals(second, 2) + "\n\t";
            Selects(from, from + start + StatusPart(3, statuses) + tail, [Uuid(id), Uuid(od)] + Texts(statuses),
                    LessonCells, InStatus(whose, statuses), BY_START)
  {
    var start := "WHERE " + Equals(first, 1) + " AND " + Equals(second, 2) + "\n\t";
    StartsByTwo(first, id, second, od, "\n\t", LessonCells, whose);
    FinishLessons(from, start, [Equal(first, 1), Equal(second, 2)], [Uuid(id), Uuid(od)], whose, statuses, tail);
  }

  method ListLessonsByTutor(from: string, tutor: Id, statuses: seq<string>)
    returns (query: string, args: seq<Value>)
    requires Fixed(from)
    ensures Selects(from, query, args, LessonCells, InStatus(OfTutor(tutor), statuses), BY_START)
  {
    ghost var start := "WHERE " + Equals("s.tutor_id", 1) + "\n\t";
    query := from + ("WHERE " + Equals("s.tutor_id", 1) + "\n\t");
    args := [Uuid(tutor)];
    if |statuses| > 0 {
      var placeholders, added := StatusFilter(statuses, 2);
      query := query + (" AND " + In("l.status", placeholders));
      args := args + added;
    }
    assert query == from + start + StatusPart(2, statuses) && args == [Uuid(tutor)] + Texts(statuses);
    query := query + ORDER_BY;
    SortedOrders();
    IdColumns();
    LessonsBy(from, "s.tutor_id", tutor, OfTutor(tutor), statuses, ORDER_BY);
  }

  method ListLessonsByStudent(from: string, student: Id, statuses: seq<string>)
    returns (query: string, args: seq<Value>)
    requires Fixed(from)
    ensures Selects(from, query, args, LessonCells, InStatus(OfStudent(student), statuses), BY_START)
  {
    ghost var start := "WHERE " + Equals("l.student_id", 1) + "\n\t";
    query := from + ("WHERE " + Equals("l.student_id", 1) + "\n\t");
    args := [Uuid(student)];
    if |statuses| > 0 {
      var placeholders, added := StatusFilter(statuses, 2);
      query := query + (" AND " + In("l.status", placeholders));
      args := args + added;
    }
    assert query == from + start + StatusPart(2, statuses) && args == [Uuid(student)] + Texts(statuses);
    query := query + ORDER_BY;
    SortedOrders();
    IdColumns();
    LessonsBy(from, "l.student_id", student, OfStudent(student), statuses, ORDER_BY);
  }

  method ListLessonsByPair(from: string, tutor: Id, student: Id, statuses: seq<string>)
    returns (query: string, args: seq<Value>)
    requires Fixed(from)
    ensures Selects(from, query, args, LessonCells, InStatus(OfPair(tutor, student), statuses), BY_START)
  {
    ghost var start := "WHERE " + Equals("s.tutor_id", 1) + " AND " + Equals("l.student_id", 2) + "\n\t";
    query := from + ("WHERE " + Equals("s.tutor_id", 1) + " AND " + Equals("l.student_id", 2) + "\n\t");
    args := [Uuid(tutor), Uuid(student)];
    if |statuses| > 0 {
      var placeholders, added := StatusFilter(statuses, 3);
      query := query + (" AND " + In("l.status", placeholders));
      args := args + added;
    }
    assert query == from + start + StatusPart(3, statuses) && args == [Uuid(tutor), Uuid(student)] + Texts(statuses);
    query := query + ORDER_BY;
    SortedOrders();
    IdColumns();
    LessonsByTwo(from, "s.tutor_id", tutor, "l.student_id", student, OfPair(tutor, student), statuses, ORDER_BY);
  }

  // ----------------------------------------------------- the answers, in the rows' own fields

  lemma {:induction false} SortedByStart(answer: seq<LessonRow>)
    requires InOrder(answer, STARTS_AT, LessonCells)
    ensures forall i, j :: 0 <= i < j < |answer| ==> answer[i].startsAt <= answer[j].startsAt
  {
    forall i, j | 0 <= i < j < |answer|
      ensures answer[i].startsAt <= answer[j].startsAt
    {
      CellsHold(answer[i]);
      CellsHold(answer[j]);
    }
  }

  /** A listing by tutor gives the tutor's lessons in the statuses asked for, or in any if none
      is, each as often as stored, earlier ones first. */
  lemma {:induction false} TutorListingMeans(from: string, query: string, args: seq<Value>, tutor: Id,
                                             statuses: seq<string>, rows: seq<LessonRow>, answer: seq<LessonRow>,
                                             r: LessonRow)
    requires Selects(from, query, args, LessonCells, InStatus(OfTutor(tutor), statuses), BY_START)
    requires MayAnswer(from, query, args, rows, LessonCells, Some(answer))
    ensures multiset(answer)[r]
            == if r.tutor == tutor && (statuses == [] || r.status in statuses) then multiset(rows)[r] else 0
    ensures forall i, j :: 0 <= i < j < |answer| ==> answer[i].startsAt <= answer[j].startsAt
  {
    AnswerCounts(from, query, args, LessonCells, InStatus(OfTutor(tutor), statuses), BY_START, rows, answer, r);
    SortedByStart(answer);
  }

  lemma {:induction false} StudentListingMeans(from: string, query: string, args: seq<Value>, student: Id,
                                               statuses: seq<string>, rows: seq<LessonRow>, answer: seq<LessonRow>,
                                               r: LessonRow)
    requires Selects(from, query, args, LessonCells, InStatus(OfStudent(student), statuses), BY_START)
    requires MayAnswer(from, query, args, rows, LessonCells, Some(answer))
    ensures multiset(answer)[r]
            == if r.student == student && (statuses == [] || r.status in statuses) then multiset(rows)[r] else 0
    ensures forall i, j :: 0 <= i < j < |answer| ==> answer[i].startsAt <= answer[j].startsAt
  {
    AnswerCounts(from, query, args, LessonCells, InStatus(OfStudent(student), statuses), BY_START, rows, answer, r);
    SortedByStart(answer);
  }

  lemma {:induction false} PairListingMeans(from: string, query: string, args: seq<Value>, tutor: Id, student: Id,
                                            statuses: seq<string>, rows: seq<LessonRow>, answer: seq<LessonRow>,
                                            r: LessonRow)
    requires Selects(from, query, args, LessonCells, InStatus(OfPair(tutor, student), statuses), BY_START)
    requires MayAnswer(from, query, args, rows, LessonCells, Some(answer))
    ensures multiset(answer)[r]
            == if r.tutor == tutor && r.student == student && (statuses == [] || r.status in statuses) then
                 multiset(rows)[r]
               else 0
    ensures forall i, j :: 0 <= i < j < |answer| ==> answer[i].startsAt <= answer[j].startsAt
  {
    AnswerCounts(from, query, args, LessonCells, InStatus(OfPair(tutor, student), statuses), BY_START, rows, answer,
                 r);
    SortedByStart(answer);
  }
}

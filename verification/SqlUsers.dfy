/** The query builders of user_service: the pair listing and the three partial updates. */
module SqlUsers {
  import opened Prelude
  import opened SqlText
  import opened SqlMeaning
  import opened SqlClauses
  import opened SqlBuilders
  import opened SqlUpdates

  // ------------------------------------------------------------------- pair listing

  datatype PairRow = PairRow(tutor: Id, student: Id)

  function PairCells(r: PairRow): Row { map["tutor_id" := Uuid(r.tutor), "student_id" := Uuid(r.student)] }

  /** An absent id filters nothing. */
  function OfBoth(tutor: Option<Id>, student: Option<Id>): PairRow -> bool {
    (r: PairRow) => (tutor.None? || r.tutor == tutor.value) && (student.None? || r.student == student.value)
  }

  lemma {:induction false} NoWhere(from: string)
    requires Fixed(from)
    ensures Selects(from, from, [], PairCells, OfBoth(None, None), None)
  {
    assert from + "" == from && UpFrom(1, 0) == [];
    assert ReadSelect(Tokens("")) == Some(SelectStatement([], None));
    SelectsBy(from, "", [], [], PairCells, OfBoth(None, None), None);
  }

  lemma {:induction false} JoinsFew(a: string, b: string)
    ensures Join([a], " AND ") == a
    ensures "WHERE " + Join([a, b], " AND ") + "\n" == "WHERE " + a + " AND " + b + "\n"
  {
    assert [a, b][1..] == [b];
  }

  lemma {:induction false} OneSelects(from: string, column: string, id: Id, direct: PairRow -> bool)
    requires Fixed(from) && IsWord(column)
    requires forall r: PairRow :: column in PairCells(r) && direct(r) == (PairCells(r)[column] == Uuid(id))
    ensures Selects(from, from + ("WHERE " + Equals(column, 1) + "\n"), [Uuid(id)], PairCells, direct, None)
  {
    StartsBy(column, id, "\n", PairCells, direct);
    BuiltSelects(from, "WHERE " + Equals(column, 1) + "\n", [Equal(column, 1)], [Uuid(id)], PairCells, direct);
  }

  lemma {:induction false} BothSelect(from: string, tutor: Id, student: Id)
    requires Fixed(from)
    ensures Selects(from, from + ("WHERE " + Equals("tutor_id", 1) + " AND " + Equals("student_id", 2) + "\n"),
                    [Uuid(tutor), Uuid(student)], PairCells, OfBoth(Some(tutor), Some(student)), None)
  {
    StartsByTwo("tutor_id", tutor, "student_id", student, "\n", PairCells, OfBoth(Some(tutor), Some(student)));
    BuiltSelects(from, "WHERE " + Equals("tutor_id", 1) + " AND " + Equals("student_id", 2) + "\n",
                 [Equal("tutor_id", 1), Equal("student_id", 2)], [Uuid(tutor), Uuid(student)], PairCells,
                 OfBoth(Some(tutor), Some(student)));
  }

  /** from is the text down to FROM tutor_students. */
  method BuildListTutorStudentsQuery(from: string, tutor: Option<Id>,
                                     student: Option<Id>) returns (query: string, args: seq<Value>)
    requires Fixed(from)
    ensures Selects(from, query, args, PairCells, OfBoth(tutor, student), None)
  {
    var where: seq<string> := [];
    args := [];
    var argIdx := 1;
    if tutor.Some? {
      where := where + [Equals("tutor_id", argIdx)];
      args := args + [Uuid(tutor.value)];
      argIdx := argIdx + 1;
    }
    if student.Some? {
      where := where + [Equals("student_id", argIdx)];
      args := args + [Uuid(student.value)];
    }
    query := from;
    if |where| > 0 {
      query := query + ("WHERE " + Join(where, " AND ") + "\n");
    }
    PairQueryIs(from, tutor, student, where, args);
  }

  /** The four shapes of the query. */
  lemma {:induction false} PairQueryIs(from: string, tutor: Option<Id>, student: Option<Id>, where: seq<string>,
                                       args: seq<Value>)
    requires Fixed(from)
    requires where == (if tutor.Some? then [Equals("tutor_id", 1)] else [])
                      + (if student.Some? then [Equals("student_id", if tutor.Some? then 2 else 1)] else [])
    requires args == (if tutor.Some? then [Uuid(tutor.value)] else [])
             + (if student.Some? then [Uuid(student.value)] else [])
    ensures Selects(from, if where == [] then from else from + ("WHERE " + Join(where, " AND ") + "\n"),
                    args, PairCells, OfBoth(tutor, student), None)
  {
    if tutor.None? && student.None? {
      NoWhere(from);
    } else if student.None? {
      assert where == [Equals("tutor_id", 1)] && args == [Uuid(tutor.value)];
      JoinsFew(where[0], "");
      OneSelects(from, "tutor_id", tutor.value, OfBoth(tutor, student));
    } else if tutor.None? {
      assert where == [Equals("student_id", 1)] && args == [Uuid(student.value)];
      JoinsFew(where[0], "");
      OneSelects(from, "student_id", student.value, OfBoth(tutor, student));
    } else {
      assert where == [Equals("tutor_id", 1), Equals("student_id", 2)]
             && args == [Uuid(tutor.value), Uuid(student.value)];
      JoinsFew(where[0], where[1]);
      BothSelect(from, tutor.value, student.value);
    }
  }

  // ---------------------------------------------------------------- partial updates

  datatype BuildError = NoFieldsToUpdate

  type Built = Result<(string, seq<Value>), BuildError>

  datatype UserInput = UserInput(firstName: Option<string>, lastName: Option<string>, timezone: Option<string>)

  datatype ProfileInput = ProfileInput(paymentInfo: Option<string>, lessonPriceRub: Option<int>,
                                       lessonConnectionLink: Option<string>)

  datatype PairInput = PairInput(lessonPriceRub: Option<int>, lessonConnectionLink: Option<string>,
                                 status: Option<string>)

  function TextOf(v: Option<string>): Option<Value> { if v.None? then None else Some(Text(v.value)) }

  function IntOf(v: Option<int>): Option<Value> { if v.None? then None else Some(Int(v.value)) }

  function With(fields: map<string, Value>, column: string, v: Option<Value>): map<string, Value> {
    if v.None? then fields else fields[column := v.value]
  }

  /** The columns an input writes, and what it writes there. */
  function UserFields(i: UserInput): map<string, Value> {
    With(With(With(map[], "first_name", TextOf(i.firstName)), "last_name", TextOf(i.lastName)),
         "timezone", TextOf(i.timezone))
  }

  function ProfileFields(i: ProfileInput): map<string, Value> {
    With(With(With(map[], "payment_info", TextOf(i.paymentInfo)), "lesson_price_rub", IntOf(i.lessonPriceRub)),
         "lesson_connection_link", TextOf(i.lessonConnectionLink))
  }

  function PairFields(i: PairInput): map<string, Value> {
    With(With(With(map[], "lesson_price_rub", IntOf(i.lessonPriceRub)),
              "lesson_connection_link", TextOf(i.lessonConnectionLink)),
         "status", TextOf(i.status))
  }

  /** Each field of the input lands in its own column, with its value, exactly if present. */
  lemma {:induction false} UserFieldsMean(i: UserInput)
    ensures var m := UserFields(i);
            && ("first_name" in m <==> i.firstName.Some?) && ("last_name" in m <==> i.lastName.Some?)
            && ("timezone" in m <==> i.timezone.Some?)
            && (i.firstName.Some? ==> m["first_name"] == Text(i.firstName.value))
            && (i.lastName.Some? ==> m["last_name"] == Text(i.lastName.value))
            && (i.timezone.Some? ==> m["timezone"] == Text(i.timezone.value))
    ensures forall c :: c in UserFields(i) ==> c == "first_name" || c == "last_name" || c == "timezone"
  {
  }

  lemma {:induction false} ProfileFieldsMean(i: ProfileInput)
    ensures var m := ProfileFields(i);
            && ("payment_info" in m <==> i.paymentInfo.Some?)
            && ("lesson_price_rub" in m <==> i.lessonPriceRub.Some?)
            && ("lesson_connection_link" in m <==> i.lessonConnectionLink.Some?)
            && (i.paymentInfo.Some? ==> m["payment_info"] == Text(i.paymentInfo.value))
            && (i.lessonPriceRub.Some? ==> m["lesson_price_rub"] == Int(i.lessonPriceRub.value))
            && (i.lessonConnectionLink.Some? ==> m["lesson_connection_link"] == Text(i.lessonConnectionLink.value))
    ensures forall c :: c in ProfileFields(i) ==>
              c == "payment_info" || c == "lesson_price_rub" || c == "lesson_connection_link"
  {
  }

  lemma {:induction false} PairFieldsMean(i: PairInput)
    ensures var m := PairFields(i);
            && ("lesson_price_rub" in m <==> i.lessonPriceRub.Some?)
            && ("lesson_connection_link" in m <==> i.lessonConnectionLink.Some?)
            && ("status" in m <==> i.status.Some?)
            && (i.lessonPriceRub.Some? ==> m["lesson_price_rub"] == Int(i.lessonPriceRub.value))
            && (i.lessonConnectionLink.Some? ==> m["lesson_connection_link"] == Text(i.lessonConnectionLink.value))
            && (i.status.Some? ==> m["status"] == Text(i.status.value))
    ensures forall c :: c in PairFields(i) ==>
              c == "lesson_price_rub" || c == "lesson_connection_link" || c == "status"
  {
  }

  /** The pair listing, in the rows' own fields. */
  lemma {:induction false} PairListingMeans(from: string, query: string, args: seq<Value>, tutor: Option<Id>,
                                            student: Option<Id>, rows: seq<PairRow>, answer: seq<PairRow>, r: PairRow)
    requires Selects(from, query, args, PairCells, OfBoth(tutor, student), None)
    requires MayAnswer(from, query, args, rows, PairCells, Some(answer))
    ensures multiset(answer)[r]
            == if (tutor == None || tutor == Some(r.tutor)) && (student == None || student == Some(r.student)) then
                 multiset(rows)[r]
               else 0
  {
    AnswerCounts(from, query, args, PairCells, OfBoth(tutor, student), None, rows, answer, r);
  }

  lemma {:induction false} PairCellsHold(r: PairRow)
    ensures var cells := PairCells(r);
            && "tutor_id" in cells && cells["tutor_id"] == Uuid(r.tutor)
            && "student_id" in cells && cells["student_id"] == Uuid(r.student)
  {
  }

  const USER_COLUMNS := {"id", "first_name", "last_name", "timezone"}
  const PROFILE_COLUMNS := {"user_id", "payment_info", "lesson_price_rub", "lesson_connection_link"}
  const PAIR_COLUMNS := {"tutor_id", "student_id", "lesson_price_rub", "lesson_connection_link", "status"}

  lemma {:induction false} AssignMore(parts: seq<string>, values: seq<Value>, fields: map<string, Value>,
                                      names: seq<string>, column: string, v: Value)
    requires Assigning(parts, values, fields, names) && IsWord(column) && column !in fields
    ensures Assigning(parts + [Equals(column, |values| + 1)], values + [v], fields[column := v], names + [column])
  {
    assert forall i :: 0 <= i < |names| ==> names[i] in fields;
  }

  /** The block each builder repeats per field: an absent field leaves everything alone. */
  method SetIfPresent(parts: seq<string>, args: seq<Value>, argIdx: nat, column: string, v: Option<Value>,
                      ghost fields: map<string, Value>, ghost names: seq<string>)
    returns (newParts: seq<string>, newArgs: seq<Value>, newIdx: nat, ghost newNames: seq<string>)
    requires Assigning(parts, args, fields, names) && argIdx == |args| + 1 && IsWord(column) && column !in fields
    ensures Assigning(newParts, newArgs, With(fields, column, v), newNames) && newIdx == |newArgs| + 1
    ensures newParts == [] <==> parts == [] && v.None?
  {
    newParts, newArgs, newIdx, newNames := parts, args, argIdx, names;
    if v.Some? {
      AssignMore(parts, args, fields, names, column, v.value);
      newParts := newParts + [Equals(column, argIdx)];
      newArgs := newArgs + [v.value];
      newIdx := newIdx + 1;
      newNames := newNames + [column];
    }
  }

  // Below, returning is the text after RETURNING.

  lemma {:induction false} UserWords()
    ensures IsWord("users") && IsWord("id") && IsWord("first_name") && IsWord("last_name") && IsWord("timezone")
  {
  }

  lemma {:induction false} UserNames(input: UserInput)
    ensures "last_name" !in With(map[], "first_name", TextOf(input.firstName))
    ensures "timezone" !in With(With(map[], "first_name", TextOf(input.firstName)), "last_name", TextOf(input.lastName))
    ensures UserFields(input).Keys <= USER_COLUMNS
  {
  }

  method BuildUserUpdateQuery(input: UserInput, returning: string) returns (r: Built)
    requires Returned(returning)
    ensures r.Err? <==> input == UserInput(None, None, None)
    ensures r.Ok? ==> UpdatesById("users", r.value.0, r.value.1, USER_COLUMNS, "id", UserFields(input))
  {
    var parts: seq<string>, args: seq<Value> := [], [];
    UserWords();
    UserNames(input);
    var argIdx := 1;
    ghost var names: seq<string> := [];
    parts, args, argIdx, names :=
      SetIfPresent(parts, args, argIdx, "first_name", TextOf(input.firstName), map[], names);
    parts, args, argIdx, names := SetIfPresent(parts, args, argIdx, "last_name", TextOf(input.lastName),
      With(map[], "first_name", TextOf(input.firstName)), names);
    parts, args, argIdx, names := SetIfPresent(parts, args, argIdx, "timezone", TextOf(input.timezone),
      With(With(map[], "first_name", TextOf(input.firstName)), "last_name", TextOf(input.lastName)), names);
    if |parts| == 0 { return Err(NoFieldsToUpdate); }
    r := Ok((UpdateText("users", " \n", Join(parts, ", "), "WHERE " + Equals("id", argIdx), returning), args));
    UpdatesOne("users", " \n", parts, names, args, UserFields(input), "id", returning, USER_COLUMNS);
  }

  lemma {:induction false} ProfileWords()
    ensures IsWord("tutor_profiles") && IsWord("user_id") && IsWord("payment_info") && IsWord("lesson_price_rub")
            && IsWord("lesson_connection_link")
  {
  }

  lemma {:induction false} ProfileNames(input: ProfileInput)
    ensures "lesson_price_rub" !in With(map[], "payment_info", TextOf(input.paymentInfo))
    ensures "lesson_connection_link" !in With(With(map[], "payment_info", TextOf(input.paymentInfo)),
                                              "lesson_price_rub", IntOf(input.lessonPriceRub))
    ensures ProfileFields(input).Keys <= PROFILE_COLUMNS
  {
  }

  method BuildTutorProfileUpdateQuery(input: ProfileInput, returning: string) returns (r: Built)
    requires Returned(returning)
    ensures r.Err? <==> input == ProfileInput(None, None, None)
    ensures r.Ok? ==> UpdatesById("tutor_profiles", r.value.0, r.value.1, PROFILE_COLUMNS, "user_id",
                                  ProfileFields(input))
  {
    var parts: seq<string>, args: seq<Value> := [], [];
    ProfileWords();
    ProfileNames(input);
    var argIdx := 1;
    ghost var names: seq<string> := [];
    parts, args, argIdx, names :=
      SetIfPresent(parts, args, argIdx, "payment_info", TextOf(input.paymentInfo), map[], names);
    parts, args, argIdx, names := SetIfPresent(parts, args, argIdx, "lesson_price_rub", IntOf(input.lessonPriceRub),
      With(map[], "payment_info", TextOf(input.paymentInfo)), names);
    parts, args, argIdx, names :=
      SetIfPresent(parts, args, argIdx, "lesson_connection_link", TextOf(input.lessonConnectionLink),
      With(With(map[], "payment_info", TextOf(input.paymentInfo)), "lesson_price_rub", IntOf(input.lessonPriceRub)),
      names);
    if |parts| == 0 { return Err(NoFieldsToUpdate); }
    r := Ok((UpdateText("tutor_profiles", "\n", Join(parts, ", "), "WHERE " + Equals("user_id", argIdx), returning),
             args));
    UpdatesOne("tutor_profiles", "\n", parts, names, args, ProfileFields(input), "user_id", returning, PROFILE_COLUMNS);
  }

  lemma {:induction false} PairWords()
    ensures IsWord("tutor_students") && IsWord("tutor_id") && IsWord("student_id") && IsWord("lesson_price_rub")
            && IsWord("lesson_connection_link") && IsWord("status")
  {
  }

  lemma {:induction false} PairNames(input: PairInput)
    ensures "lesson_connection_link" !in With(map[], "lesson_price_rub", IntOf(input.lessonPriceRub))
    ensures "status" !in With(With(map[], "lesson_price_rub", IntOf(input.lessonPriceRub)), "lesson_connection_link",
                              TextOf(input.lessonConnectionLink))
    ensures PairFields(input).Keys <= PAIR_COLUMNS
  {
  }

  method BuildUpdateTutorStudentQuery(input: PairInput, returning: string) returns (r: Built)
    requires Returned(returning)
    ensures r.Err? <==> input == PairInput(None, None, None)
    ensures r.Ok? ==> UpdatesByIds("tutor_students", r.value.0, r.value.1, PAIR_COLUMNS, "tutor_id", "student_id",
                                   PairFields(input))
  {
    var parts: seq<string>, args: seq<Value> := [], [];
    PairWords();
    PairNames(input);
    var argIdx := 1;
    ghost var names: seq<string> := [];
    parts, args, argIdx, names :=
      SetIfPresent(parts, args, argIdx, "lesson_price_rub", IntOf(input.lessonPriceRub), map[], names);
    parts, args, argIdx, names :=
      SetIfPresent(parts, args, argIdx, "lesson_connection_link", TextOf(input.lessonConnectionLink),
      With(map[], "lesson_price_rub", IntOf(input.lessonPriceRub)), names);
    parts, args, argIdx, names := SetIfPresent(parts, args, argIdx, "status", TextOf(input.status),
      With(With(map[], "lesson_price_rub", IntOf(input.lessonPriceRub)), "lesson_connection_link",
           TextOf(input.lessonConnectionLink)), names);
    if |parts| == 0 { return Err(NoFieldsToUpdate); }
    r := Ok((UpdateText("tutor_students", "\n", Join(parts, ", "),
                        "WHERE " + (Equals("tutor_id", argIdx) + " AND " + Equals("student_id", argIdx + 1)),
                        returning), args));
    assert "tutor_id" != "student_id";
    UpdatesTwo("tutor_students", "\n", parts, names, args, PairFields(input), "tutor_id", "student_id", returning,
               PAIR_COLUMNS);
  }
}

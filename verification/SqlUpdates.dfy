/** UPDATE texts: the assignments joined by commas, the key conditions, and what the statement
    does to the rows. */
module SqlUpdates {
  import opened Prelude
  import opened SqlText
  import opened SqlMeaning
  import opened SqlClauses
  import opened SqlBuilders

  const UPDATE := Word("UPDATE")
  const SET := Word("SET")
  const RETURNING := Word("RETURNING")

  // ------------------------------------------------------------------ assignments

  /** columns[i] is set to $(first + i). */
  function AssignsOf(columns: seq<string>, first: nat): seq<Assign> {
    seq(|columns|, i requires 0 <= i < |columns| => Assign(columns[i], first + i))
  }

  function OneAssign(column: string, k: nat): seq<Token> { [Word(column), Sign('='), Param(k)] }

  lemma {:induction false} FirstAssign(columns: seq<string>, first: nat)
    requires columns != []
    ensures AssignsTokens(AssignsOf(columns, first))
            == if |columns| == 1 then OneAssign(columns[0], first)
               else OneAssign(columns[0], first) + [Sign(',')] + AssignsTokens(AssignsOf(columns[1..], first + 1))
  {
    assert AssignsOf(columns, first)[1..] == AssignsOf(columns[1..], first + 1);
  }

  lemma {:induction false} ReadsSet(parts: seq<string>, columns: seq<string>, first: nat)
    requires |parts| == |columns| > 0
    requires forall i :: 0 <= i < |parts| ==> IsWord(columns[i]) && parts[i] == Equals(columns[i], first + i)
    ensures Tokens(Join(parts, ", ")) == AssignsTokens(AssignsOf(columns, first))
  {
    FirstAssign(columns, first);
    ReadEquals(columns[0], first);
    if |parts| > 1 {
      ReadComma();
      ReadsSet(parts[1..], columns[1..], first + 1);
      ReadJoin(parts, ", ");
    }
  }

  lemma {:induction false} ParamsOfSet(columns: seq<string>, first: nat)
    requires columns != []
    ensures Params(AssignsTokens(AssignsOf(columns, first))) == UpFrom(first, |columns|)
  {
    FirstAssign(columns, first);
    ParamsOfEquals(columns[0], first);
    UpFromStep(first, |columns|);
    if |columns| > 1 {
      ParamsOfSet(columns[1..], first + 1);
      ParamsOfMore(OneAssign(columns[0], first), first, AssignsTokens(AssignsOf(columns[1..], first + 1)),
                   UpFrom(first + 1, |columns| - 1));
    }
  }

  lemma {:induction false} UpFromStep(first: nat, n: nat)
    requires n > 0
    ensures UpFrom(first, n) == [first] + UpFrom(first + 1, n - 1)
  {
  }

  /** columns and values list the map m, each column once. */
  ghost predicate Enumerates(columns: seq<string>, values: seq<Value>, m: map<string, Value>) {
    && |columns| == |values|
    && (forall i, j :: 0 <= i < j < |columns| ==> columns[i] != columns[j])
    && (forall i :: 0 <= i < |columns| ==> columns[i] in m && m[columns[i]] == values[i])
    && (forall c | c in m :: c in columns)
  }

  /** The partial update: a field that is present is written, any other column stays. */
  function Patch(row: Row, fields: map<string, Value>): Row {
    map c | c in row :: if c in fields then fields[c] else row[c]
  }

  lemma {:induction false} NewValueIs(c: string, columns: seq<string>, first: nat, args: seq<Value>, was: Value)
    requires 1 <= first && first - 1 + |columns| <= |args|
    requires forall i, j :: 0 <= i < j < |columns| ==> columns[i] != columns[j]
    ensures forall i :: 0 <= i < |columns| && columns[i] == c ==>
            NewValue(c, AssignsOf(columns, first), args, was) == args[first - 1 + i]
    ensures c !in columns ==> NewValue(c, AssignsOf(columns, first), args, was) == was
  {
    if columns != [] {
      var assigns := AssignsOf(columns, first);
      assert assigns[1..] == AssignsOf(columns[1..], first + 1);
      NewValueIs(c, columns[1..], first + 1, args, was);
      forall i | 0 <= i < |columns| && columns[i] == c
        ensures NewValue(c, assigns, args, was) == args[first - 1 + i]
      {
        if i > 0 { assert columns[1..][i - 1] == c; }
      }
    }
  }

  lemma {:induction false} OverwriteIsPatch(row: Row, columns: seq<string>, values: seq<Value>, m: map<string, Value>,
                                            keys: seq<Value>)
    requires Enumerates(columns, values, m)
    ensures Overwrite(row, AssignsOf(columns, 1), values + keys) == Patch(row, m)
  {
    forall c | c in row
      ensures Overwrite(row, AssignsOf(columns, 1), values + keys)[c] == Patch(row, m)[c]
    {
      NewValueIs(c, columns, 1, values + keys, row[c]);
      if c in columns {
        var i :| 0 <= i < |columns| && columns[i] == c;
        assert (values + keys)[i] == values[i];
      }
    }
  }

  // --------------------------------------------------------------- the statement

  predicate Gap(gap: string) { gap == "\n" || gap == " \n" }

  function UpdateText(table: string, gap: string, sets: string, where: string, columns: string): string {
    "\nUPDATE " + table + (gap + "SET ") + sets + gap + where + (gap + "RETURNING") + columns
  }

  lemma {:induction false} ReadGap(gap: string)
    requires Gap(gap)
    ensures Tokens(gap) == [] && Separates(gap)
  {
    assert " \n"[1..] == "\n";
  }

  lemma {:induction false} ReadKeyword(blank: string, w: string)
    requires blank != "" && !Glue(blank[|blank| - 1]) && Tokens(blank) == [] && IsWord(w)
    ensures Tokens(blank + w) == [Word(w)]
  {
    ReadWord(w);
    ReadInTurn(blank, w);
  }

  /** A keyword, its blanks included, however the text spells the two in one. */
  lemma {:induction false} ReadSpaced(blank: string, w: string, text: string)
    requires blank != "" && !Glue(blank[|blank| - 1]) && Tokens(blank) == [] && IsWord(w) && text == blank + w + " "
    ensures Tokens(text) == [Word(w)]
  {
    ReadKeyword(blank, w);
    ReadInTurn(blank + w, " ");
    assert Tokens(" ") == [];
  }

  lemma {:induction false} ReadNewline()
    ensures Tokens("\n") == []
  {
  }

  lemma {:induction false} KeywordsAreWords()
    ensures IsWord("UPDATE") && IsWord("SET") && IsWord("RETURNING")
  {
  }

  lemma {:induction false} ReadSetWord(gap: string)
    requires Gap(gap)
    ensures Tokens(gap + "SET ") == [SET] && Separates(gap + "SET ")
  {
    ReadGap(gap);
    KeywordsAreWords();
    ReadSpaced(gap, "SET", gap + "SET ");
  }

  lemma {:induction false} ReadReturning(gap: string)
    requires Gap(gap)
    ensures Tokens(gap + "RETURNING") == [RETURNING]
  {
    ReadGap(gap);
    KeywordsAreWords();
    ReadKeyword(gap, "RETURNING");
  }

  lemma {:induction false} ReadUpdateKeyword()
    ensures Tokens("\nUPDATE ") == [UPDATE]
  {
    ReadNewline();
    KeywordsAreWords();
    ReadSpaced("\n", "UPDATE", "\nUPDATE ");
  }

  lemma {:induction false} ReadUpdateWord(table: string)
    requires IsWord(table)
    ensures Tokens("\nUPDATE " + table) == [UPDATE, Word(table)]
  {
    ReadUpdateKeyword();
    ReadWord(table);
    ReadInTurn("\nUPDATE ", table);
  }

  /** The columns after RETURNING bind nothing and stand apart. */
  ghost predicate Returned(columns: string) { '$' !in columns && columns != "" && !Glue(columns[0]) }

  lemma {:induction false} ReadUpdateText(table: string, gap: string, sets: string, where: string, columns: string)
    requires IsWord(table) && Gap(gap) && Returned(columns)
    ensures Tokens(UpdateText(table, gap, sets, where, columns))
            == [UPDATE, Word(table)] + [SET] + Tokens(sets) + [] + Tokens(where) + [RETURNING] + Tokens(columns)
  {
    var a := "\nUPDATE " + table;
    var b := a + (gap + "SET ") + sets;
    var c := b + gap + where;
    ReadUpdateWord(table);
    ReadSetWord(gap);
    Paste(a, gap + "SET ", sets);
    ReadGap(gap);
    Paste(b, gap, where);
    ReadReturning(gap);
    ReadInTurn(c, gap + "RETURNING");
    ReadInTurn(c + (gap + "RETURNING"), columns);
  }

  lemma {:induction false} ReadsStatement(table: string, assigns: seq<Assign>, conds: seq<Cond>, columns: seq<Token>)
    requires assigns != [] && AllWritten(conds)
    ensures var ts :=
              [UPDATE, Word(table), SET]
              + (AssignsTokens(assigns) + ([WHERE] + (CondsTokens(conds) + ([RETURNING] + columns))));
            ReadUpdate(ts) == Some(UpdateStatement(table, assigns, conds))
  {
    var after := [RETURNING] + columns;
    var rest := [WHERE] + (CondsTokens(conds) + after);
    var ts := [UPDATE, Word(table), SET] + (AssignsTokens(assigns) + rest);
    assert ts[3..] == AssignsTokens(assigns) + rest;
    ReadsAssigns(assigns, rest);
    assert rest[1..] == CondsTokens(conds) + after;
    ReadsConds(conds, after);
  }

  lemma {:induction false} ParamsOfStatement(a: seq<Token>, b: seq<Token>, c: seq<Token>)
    requires Params(c) == []
    ensures forall table :: Params([UPDATE, Word(table), SET] + (a + (b + ([RETURNING] + c)))) == Params(a) + Params(b)
  {
    forall table
      ensures Params([UPDATE, Word(table), SET] + (a + (b + ([RETURNING] + c)))) == Params(a) + Params(b)
    {
      NoParams([UPDATE, Word(table), SET]);
      NoParams([RETURNING]);
      ParamsInTurn([RETURNING], c);
      ParamsInTurn(b, [RETURNING] + c);
      ParamsInTurn(a, b + ([RETURNING] + c));
      ParamsInTurn([UPDATE, Word(table), SET], a + (b + ([RETURNING] + c)));
    }
  }

  /** parts are the texts of the assignments of names, in order. */
  ghost predicate SetParts(parts: seq<string>, names: seq<string>) {
    |parts| == |names| && forall i :: 0 <= i < |parts| ==> IsWord(names[i]) && parts[i] == Equals(names[i], 1 + i)
  }

  /** What the whole text reads as, and its placeholders. */
  lemma {:induction false} ReadWholeUpdate(table: string, gap: string, parts: seq<string>, names: seq<string>,
                                           where: string, conds: seq<Cond>, ps: seq<nat>, columns: string)
    requires IsWord(table) && Gap(gap) && Returned(columns) && WhereIs(where, conds, ps)
    requires parts != [] && SetParts(parts, names)
    ensures var ts := Tokens(UpdateText(table, gap, Join(parts, ", "), where, columns));
            && ReadUpdate(ts) == Some(UpdateStatement(table, AssignsOf(names, 1), conds))
            && Params(ts) == UpFrom(1, |names|) + ps
  {
    var sets := Join(parts, ", ");
    ReadUpdateText(table, gap, sets, where, columns);
    ReadsSet(parts, names, 1);
    ParamsOfSet(names, 1);
    NoDollarNoParams(columns);
    var a, b, c := Tokens(sets), Tokens(where), Tokens(columns);
    Reassociate(table, a, b, conds, c);
    ParamsOfStatement(a, b, c);
    ReadsStatement(table, AssignsOf(names, 1), conds, c);
  }

  lemma {:induction false} Reassociate(table: string, a: seq<Token>, b: seq<Token>, conds: seq<Cond>, c: seq<Token>)
    requires AllWritten(conds) && b == [WHERE] + CondsTokens(conds)
    ensures var ts := [UPDATE, Word(table)] + [SET] + a + [] + b + [RETURNING] + c;
            && ts == [UPDATE, Word(table), SET] + (a + (b + ([RETURNING] + c)))
            && ts == [UPDATE, Word(table), SET] + (a + ([WHERE] + (CondsTokens(conds) + ([RETURNING] + c))))
  {
  }

  // --------------------------------------------------------------------- meaning

  /** The rows that carry every key get the present fields; all other rows stay. */
  function PatchWhere(key: map<string, Value>, fields: map<string, Value>): Row -> Row {
    row => if forall c | c in key :: c in row && row[c] == key[c] then Patch(row, fields) else row
  }

  /** Cell by cell: a row that carries every key has the present fields in their columns, and
      every other cell of the table is as it was. */
  lemma {:induction false} PatchedCells(rows: seq<Row>, key: map<string, Value>, fields: map<string, Value>, i: nat,
                                        c: string)
    requires i < |rows| && c in rows[i]
    ensures var after := Each(rows, PatchWhere(key, fields));
            && |after| == |rows| && after[i].Keys == rows[i].Keys
            && after[i][c] == if c in fields && (forall k | k in key :: k in rows[i] && rows[i][k] == key[k])
                              then fields[c] else rows[i][c]
  {
    EachAt(rows, PatchWhere(key, fields), i);
  }

  lemma {:induction false} EachAt(rows: seq<Row>, f: Row -> Row, i: nat)
    requires i < |rows|
    ensures |Each(rows, f)| == |rows| && Each(rows, f)[i] == f(rows[i])
  {
    if i > 0 { EachAt(rows[1..], f, i - 1); } else if |rows| > 1 { EachAt(rows[1..], f, 0); }
  }

  /** The text's placeholders are $1, $2, ... up to the number of arguments, each once and in
      order, and on any table with these columns the statement changes each row as direct says. */
  ghost predicate Updates(table: string, query: string, args: seq<Value>, columns: set<string>, direct: Row -> Row) {
    && Params(Tokens(query)) == UpFrom(1, |args|)
    && forall rows: seq<Row> | HaveColumns(rows, columns) ::
       Update(table, query, args, rows) == Some(Each(rows, direct))
  }

  ghost predicate HaveColumns(rows: seq<Row>, columns: set<string>) {
    forall row | row in rows :: columns <= row.Keys
  }

  lemma {:induction false} EachSame(rows: seq<Row>, f: Row -> Row, g: Row -> Row)
    requires forall row | row in rows :: f(row) == g(row)
    ensures Each(rows, f) == Each(rows, g)
  {
    if rows != [] {
      assert rows[0] in rows;
      assert forall row | row in rows[1..] :: row in rows;
      EachSame(rows[1..], f, g);
    }
  }

  /** The conditions, with these arguments, pick the rows that carry every key. */
  ghost predicate Picks(conds: seq<Cond>, args: seq<Value>, key: map<string, Value>, columns: set<string>) {
    && (forall c, row: Row | c in conds && columns <= row.Keys :: Known(c, row))
    && (forall row: Row | columns <= row.Keys ::
          AllHold(conds, row, args) <==> (forall c | c in key :: c in row && row[c] == key[c]))
  }

  lemma {:induction false} RowUpdate(row: Row, names: seq<string>, values: seq<Value>, fields: map<string, Value>,
                                     conds: seq<Cond>, keys: seq<Value>, key: map<string, Value>, columns: set<string>)
    requires Enumerates(names, values, fields) && Picks(conds, values + keys, key, columns) && columns <= row.Keys
    ensures PatchWhere(key, fields)(row)
            == if AllHold(conds, row, values + keys) then Overwrite(row, AssignsOf(names, 1), values + keys) else row
  {
    OverwriteIsPatch(row, names, values, fields, keys);
  }

  lemma {:induction false} UpdateIs(table: string, query: string, names: seq<string>, values: seq<Value>,
                                    fields: map<string, Value>,
                                    conds: seq<Cond>, keys: seq<Value>, key: map<string, Value>, columns: set<string>,
                                    rows: seq<Row>)
    requires ReadUpdate(Tokens(query)) == Some(UpdateStatement(table, AssignsOf(names, 1), conds))
    requires Bound(Params(Tokens(query)), |values + keys|)
    requires Enumerates(names, values, fields) && fields.Keys <= columns
    requires Picks(conds, values + keys, key, columns) && HaveColumns(rows, columns)
    ensures Update(table, query, values + keys, rows) == Some(Each(rows, PatchWhere(key, fields)))
  {
    var args, assigns := values + keys, AssignsOf(names, 1);
    var f := (row: Row) => if AllHold(conds, row, args) then Overwrite(row, assigns, args) else row;
    forall row | row in rows
      ensures f(row) == PatchWhere(key, fields)(row)
    {
      RowUpdate(row, names, values, fields, conds, keys, key, columns);
    }
    EachSame(rows, f, PatchWhere(key, fields));
    KnownAssigns(rows, names, values, fields, columns);
  }

  /** names and values are the present fields, conds with keys select the rows of key. */
  lemma {:induction false} KeyedBy(table: string, query: string, names: seq<string>, values: seq<Value>,
                                   fields: map<string, Value>,
                                     conds: seq<Cond>, keys: seq<Value>, key: map<string, Value>, columns: set<string>)
    requires ReadUpdate(Tokens(query)) == Some(UpdateStatement(table, AssignsOf(names, 1), conds))
    requires Params(Tokens(query)) == UpFrom(1, |values + keys|)
    requires Enumerates(names, values, fields) && fields.Keys <= columns
    requires Picks(conds, values + keys, key, columns)
    ensures Updates(table, query, values + keys, columns, PatchWhere(key, fields))
  {
    BoundUpFrom(|values + keys|);
    forall rows: seq<Row> | HaveColumns(rows, columns)
      ensures Update(table, query, values + keys, rows) == Some(Each(rows, PatchWhere(key, fields)))
    {
      UpdateIs(table, query, names, values, fields, conds, keys, key, columns, rows);
    }
  }

  lemma {:induction false} KnownAssigns(rows: seq<Row>, names: seq<string>, values: seq<Value>,
                                        fields: map<string, Value>, columns: set<string>)
    requires HaveColumns(rows, columns) && Enumerates(names, values, fields) && fields.Keys <= columns
    ensures forall row, a | row in rows && a in AssignsOf(names, 1) :: a.column in row
    ensures Distinct(AssignsOf(names, 1))
  {
    forall row, a | row in rows && a in AssignsOf(names, 1)
      ensures a.column in row
    {
      var i :| 0 <= i < |names| && AssignsOf(names, 1)[i] == a;
      assert names[i] in fields;
    }
  }

  lemma {:induction false} KeyHolds(column: string, k: nat, row: Row, args: seq<Value>, v: Value)
    requires column in row && v != Null && 1 <= k <= |args| && args[k - 1] == v
    ensures Holds(Equal(column, k), row, args) <==> row[column] == v
  {
  }

  lemma {:induction false} Counting(n: nat, m: nat, total: nat, ps: seq<nat>)
    requires ps == UpFrom(1, n) + UpFrom(n + 1, m) && total == n + m
    ensures ps == UpFrom(1, total)
  {
    UpFromGrows(n, m);
  }

  lemma {:induction false} UpdatesKeyed(table: string, gap: string, parts: seq<string>, names: seq<string>,
                                        values: seq<Value>, fields: map<string, Value>,
                                        where: string, conds: seq<Cond>, keys: seq<Value>, key: map<string, Value>,
                                        returning: string, columns: set<string>)
    requires IsWord(table) && Gap(gap) && Returned(returning) && parts != [] && SetParts(parts, names)
    requires Enumerates(names, values, fields) && fields.Keys <= columns
    requires WhereIs(where, conds, UpFrom(|names| + 1, |keys|)) && Picks(conds, values + keys, key, columns)
    ensures Updates(table, UpdateText(table, gap, Join(parts, ", "), where, returning), values + keys, columns,
                    PatchWhere(key, fields))
  {
    var query := UpdateText(table, gap, Join(parts, ", "), where, returning);
    ReadWholeUpdate(table, gap, parts, names, where, conds, UpFrom(|names| + 1, |keys|), returning);
    assert |values + keys| == |names| + |keys|;
    Counting(|names|, |keys|, |values + keys|, Params(Tokens(query)));
    KeyedBy(table, query, names, values, fields, conds, keys, key, columns);
  }

  lemma {:induction false} OneHolds(c: Cond, row: Row, args: seq<Value>)
    ensures AllHold([c], row, args) == Holds(c, row, args)
  {
    assert forall d :: d in [c] <==> d == c;
  }

  lemma {:induction false} TwoHold(c: Cond, d: Cond, row: Row, args: seq<Value>)
    ensures AllHold([c, d], row, args) == (Holds(c, row, args) && Holds(d, row, args))
  {
    assert forall e :: e in [c, d] <==> e == c || e == d;
  }

  lemma {:induction false} PicksOne(column: string, v: Value, values: seq<Value>, columns: set<string>)
    requires v != Null && column in columns
    ensures Picks([Equal(column, |values| + 1)], values + [v], map[column := v], columns)
  {
    var c, args, key := Equal(column, |values| + 1), values + [v], map[column := v];
    forall row: Row | columns <= row.Keys
      ensures AllHold([c], row, args) <==> (forall x | x in key :: x in row && row[x] == key[x])
    {
      KeyHolds(column, |values| + 1, row, args, v);
      OneHolds(c, row, args);
      assert column in key;
    }
  }

  lemma {:induction false} PicksTwo(column: string, v: Value, other: string, w: Value, values: seq<Value>,
                                    columns: set<string>)
    requires v != Null && w != Null && column in columns && other in columns && column != other
    ensures Picks([Equal(column, |values| + 1), Equal(other, |values| + 2)], values + [v, w],
                  map[column := v, other := w], columns)
  {
    var c, d := Equal(column, |values| + 1), Equal(other, |values| + 2);
    var args, key := values + [v, w], map[column := v, other := w];
    forall row: Row | columns <= row.Keys
      ensures AllHold([c, d], row, args) <==> (forall x | x in key :: x in row && row[x] == key[x])
    {
      KeyHolds(column, |values| + 1, row, args, v);
      KeyHolds(other, |values| + 2, row, args, w);
      TwoHold(c, d, row, args);
      assert column in key && other in key;
    }
  }

  lemma {:induction false} WhereOne(column: string, n: nat)
    requires IsWord(column)
    ensures WhereIs("WHERE " + Equals(column, n), [Equal(column, n)], UpFrom(n, 1))
  {
    EqualsIs(column, n);
    WhereStarts(Equals(column, n), Equal(column, n), [n]);
    assert UpFrom(n, 1) == [n];
  }

  lemma {:induction false} TwoKeys(a: string, c: Cond, n: nat, b: string, d: Cond, m: nat)
    requires CondIs(a, c, [n]) && CondIs(b, d, [m])
    ensures WhereIs("WHERE " + (a + " AND " + b), [c, d], [n, m])
  {
    WhereStarts(a, c, [n]);
    WhereGrows("WHERE " + a, [c], [n], b, d, [m]);
    assert [c] + [d] == [c, d] && [n] + [m] == [n, m];
    assert "WHERE " + a + " AND " + b == "WHERE " + (a + " AND " + b);
  }

  lemma {:induction false} WhereTwo(column: string, other: string, n: nat)
    requires IsWord(column) && IsWord(other)
    ensures WhereIs("WHERE " + (Equals(column, n) + " AND " + Equals(other, n + 1)),
                    [Equal(column, n), Equal(other, n + 1)], UpFrom(n, 2))
  {
    EqualsIs(column, n);
    EqualsIs(other, n + 1);
    TwoKeys(Equals(column, n), Equal(column, n), n, Equals(other, n + 1), Equal(other, n + 1), n + 1);
    assert UpFrom(n, 2) == [n, n + 1];
  }

  /** With the key's id appended to the arguments, the statement writes the fields of its row. */
  ghost predicate UpdatesById(table: string, query: string, args: seq<Value>, columns: set<string>, column: string,
                              fields: map<string, Value>) {
    forall id: Id :: Updates(table, query, args + [Uuid(id)], columns, PatchWhere(map[column := Uuid(id)], fields))
  }

  /** The same for a table keyed by two ids. */
  ghost predicate UpdatesByIds(table: string, query: string, args: seq<Value>, columns: set<string>, column: string,
                               other: string, fields: map<string, Value>) {
    forall id: Id, od: Id ::
      Updates(table, query, args + [Uuid(id), Uuid(od)], columns,
              PatchWhere(map[column := Uuid(id), other := Uuid(od)], fields))
  }

  /** parts assign the fields to $1, $2, ... in the order of values. */
  ghost predicate Assigning(parts: seq<string>, values: seq<Value>, fields: map<string, Value>, names: seq<string>) {
    SetParts(parts, names) && Enumerates(names, values, fields)
  }

  lemma {:induction false} UpdatesOne(table: string, gap: string, parts: seq<string>, names: seq<string>,
                                      values: seq<Value>, fields: map<string, Value>,
                                      column: string, returning: string, columns: set<string>)
    requires IsWord(table) && Gap(gap) && Returned(returning) && parts != [] && Assigning(parts, values, fields, names)
    requires fields.Keys <= columns && IsWord(column) && column in columns
    ensures UpdatesById(table,
                        UpdateText(table, gap, Join(parts, ", "), "WHERE " + Equals(column, |values| + 1), returning),
                        values, columns, column, fields)
  {
    var n := |values| + 1;
    var where := "WHERE " + Equals(column, n);
    WhereOne(column, n);
    forall id: Id
      ensures Updates(table, UpdateText(table, gap, Join(parts, ", "), where, returning), values + [Uuid(id)], columns,
                      PatchWhere(map[column := Uuid(id)], fields))
    {
      PicksOne(column, Uuid(id), values, columns);
      UpdatesKeyed(table, gap, parts, names, values, fields, where, [Equal(column, n)], [Uuid(id)],
                   map[column := Uuid(id)], returning, columns);
    }
  }

  lemma {:induction false} UpdatesTwo(table: string, gap: string, parts: seq<string>, names: seq<string>,
                                      values: seq<Value>, fields: map<string, Value>,
                                      column: string, other: string, returning: string, columns: set<string>)
    requires IsWord(table) && Gap(gap) && Returned(returning) && parts != [] && Assigning(parts, values, fields, names)
    requires fields.Keys <= columns && IsWord(column) && IsWord(other) && column != other && column in columns
             && other in columns
    ensures var where := "WHERE " + (Equals(column, |values| + 1) + " AND " + Equals(other, |values| + 2));
            UpdatesByIds(table, UpdateText(table, gap, Join(parts, ", "), where, returning),
                         values, columns, column, other, fields)
  {
    var n := |values| + 1;
    var where := "WHERE " + (Equals(column, n) + " AND " + Equals(other, n + 1));
    WhereTwo(column, other, n);
    forall id: Id, od: Id
      ensures Updates(table, UpdateText(table, gap, Join(parts, ", "), where, returning),
                      values + [Uuid(id), Uuid(od)], columns,
                      PatchWhere(map[column := Uuid(id), other := Uuid(od)], fields))
    {
      PicksTwo(column, Uuid(id), other, Uuid(od), values, columns);
      UpdatesKeyed(table, gap, parts, names, values, fields, where, [Equal(column, n), Equal(other, n + 1)],
                   [Uuid(id), Uuid(od)],
                   map[column := Uuid(id), other := Uuid(od)], returning, columns);
    }
  }
}

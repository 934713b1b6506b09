/** The pieces the builders paste together, and how each is read back. */
module SqlClauses {
  import opened Prelude
  import opened SqlText
  import opened SqlMeaning

  /** "column = $k", a condition or an assignment. */
  function Equals(column: string, k: nat): string { column + " = " + Placeholder(k) }

  /** strings.Join. */
  function Join(parts: seq<string>, sep: string): string {
    if parts == [] then "" else if |parts| == 1 then parts[0] else parts[0] + sep + Join(parts[1..], sep)
  }

  function UpFrom(first: nat, n: nat): seq<nat> { seq(n, i requires 0 <= i < n => first + i) }

  lemma {:induction false} Glued(body: string, sep: string, more: string)
    ensures body + sep + more == body + (sep + more)
  {
  }

  // ---------------------------------------------------------------- single pieces

  lemma {:induction false} ReadBlankWord(w: string)
    requires IsWord(w)
    ensures Tokens(" " + w + " ") == [Word(w)]
  {
    ReadWord(w);
    ReadInTurn(w, " ");
    ReadInTurn(" ", w + " ");
    assert " " + (w + " ") == " " + w + " ";
  }

  lemma {:induction false} ReadWordBefore(w: string, rest: string, text: string)
    requires IsWord(w) && text == " " + w + " " + rest
    ensures Tokens(text) == [Word(w)] + Tokens(rest)
  {
    ReadBlankWord(w);
    ReadInTurn(" " + w + " ", rest);
  }

  lemma {:induction false} ReadComma()
    ensures Tokens(", ") == [Sign(',')]
  {
    assert ", "[1..] == " ";
  }

  lemma {:induction false} ReadAnd()
    ensures Tokens(" AND ") == [AND]
  {
    assert " AND " == " " + "AND" + " ";
    ReadBlankWord("AND");
  }

  lemma {:induction false} ReadEqualsSign()
    ensures Tokens(" = ") == [Sign('=')]
  {
    assert " = "[1..] == "= " && "= "[1..] == " ";
  }

  lemma NoParams(ts: seq<Token>)
    requires |ts| <= 3 && forall t | t in ts :: !t.Param?
    ensures Params(ts) == []
  {
    forall n | 0 <= n < |ts|
      ensures Params(ts[..n + 1]) == Params(ts[..n])
    {
      assert ts[n] in ts;
      assert ts[..n + 1][..n] == ts[..n];
    }
    assert ts[..|ts|] == ts;
  }

  /** The placeholders of one element, a comma and the others. */
  lemma {:induction false} ParamsOfMore(one: seq<Token>, k: nat, more: seq<Token>, ks: seq<nat>)
    requires Params(one) == [k] && Params(more) == ks
    ensures Params(one + [Sign(',')] + more) == [k] + ks
  {
    NoParams([Sign(',')]);
    ParamsInTurn(one, [Sign(',')]);
    ParamsInTurn(one + [Sign(',')], more);
  }

  lemma {:induction false} ParamsOfBracketed(opening: seq<Token>, inner: seq<Token>, closing: seq<Token>)
    requires Params(opening) == [] && Params(closing) == []
    ensures Params(opening + inner + closing) == Params(inner)
  {
    ParamsInTurn(opening, inner);
    ParamsInTurn(opening + inner, closing);
  }

  lemma {:induction false} ReadEquals(column: string, k: nat)
    requires IsWord(column)
    ensures Tokens(Equals(column, k)) == [Word(column), Sign('='), Param(k)]
  {
    ReadEqualsOpening(column);
    ReadPlaceholder(k);
    ReadInTurn(column + " = ", Placeholder(k));
  }

  lemma {:induction false} ReadEqualsOpening(column: string)
    requires IsWord(column)
    ensures Tokens(column + " = ") == [Word(column), Sign('=')]
  {
    ReadEqualsSign();
    ReadWord(column);
    ReadInTurn(column, " = ");
  }

  lemma {:induction false} ParamsOfEquals(column: string, k: nat)
    ensures Params([Word(column), Sign('='), Param(k)]) == [k]
  {
    NoParams([Word(column), Sign('=')]);
    assert [Word(column), Sign('='), Param(k)][..2] == [Word(column), Sign('=')];
  }

  // ------------------------------------------------------------------------ lists

  predicate Separates(sep: string) { sep != "" && !Glue(sep[0]) && !Glue(sep[|sep| - 1]) }

  lemma {:induction false} ReadJoin(parts: seq<string>, sep: string)
    requires |parts| > 1 && Separates(sep)
    ensures Tokens(Join(parts, sep)) == Tokens(parts[0]) + Tokens(sep) + Tokens(Join(parts[1..], sep))
  {
    ReadInTurn(parts[0], sep);
    ReadInTurn(parts[0] + sep, Join(parts[1..], sep));
  }

  lemma {:induction false} ReadPlaceholders(parts: seq<string>, ks: seq<nat>)
    requires |parts| == |ks| > 0 && forall i :: 0 <= i < |ks| ==> parts[i] == Placeholder(ks[i])
    ensures Tokens(Join(parts, ", ")) == ListTokens(ks)
  {
    ReadPlaceholder(ks[0]);
    if |ks| > 1 {
      ReadComma();
      ReadJoin(parts, ", ");
      ReadPlaceholders(parts[1..], ks[1..]);
    }
  }

  lemma {:induction false} ParamsOfList(ks: seq<nat>)
    requires ks != []
    ensures Params(ListTokens(ks)) == ks
  {
    assert Params([Param(ks[0])]) == [ks[0]] by { assert [Param(ks[0])][..0] == []; }
    if |ks| > 1 {
      ParamsOfList(ks[1..]);
      ParamsOfMore([Param(ks[0])], ks[0], ListTokens(ks[1..]), ks[1..]);
      assert ListTokens(ks) == [Param(ks[0])] + [Sign(',')] + ListTokens(ks[1..]);
    }
    assert ks == [ks[0]] + ks[1..];
  }

  /** "column IN ($a, $b, ...)". */
  function In(column: string, parts: seq<string>): string { column + " IN (" + Join(parts, ", ") + ")" }

  lemma {:induction false} ReadIn(column: string, parts: seq<string>, ks: seq<nat>)
    requires IsWord(column) && |parts| == |ks| > 0 && forall i :: 0 <= i < |ks| ==> parts[i] == Placeholder(ks[i])
    ensures Tokens(In(column, parts)) == CondTokens(Among(column, ks))
  {
    ReadPlaceholders(parts, ks);
    ReadInOpening(column);
    var opening, list := column + " IN (", Join(parts, ", ");
    ReadInTurn(opening, list);
    ReadInTurn(opening + list, ")");
    assert Tokens(")") == [Sign(')')];
  }

  lemma {:induction false} ReadInOpening(column: string)
    requires IsWord(column)
    ensures Tokens(column + " IN (") == [Word(column), IN, Sign('(')]
  {
    ReadWord(column);
    ReadInBracket();
    ReadInTurn(column, " IN (");
  }

  lemma {:induction false} ReadInBracket()
    ensures Tokens(" IN (") == [IN, Sign('(')]
  {
    assert Tokens("(") == [Sign('(')];
    ReadWordBefore("IN", "(", " IN (");
  }

  lemma {:induction false} ParamsOfIn(column: string, ks: seq<nat>)
    requires ks != []
    ensures Params(CondTokens(Among(column, ks))) == ks
  {
    var opening: seq<Token> := [Word(column), IN, Sign('(')];
    NoParams(opening);
    NoParams([Sign(')')]);
    ParamsOfList(ks);
    ParamsOfBracketed(opening, ListTokens(ks), [Sign(')')]);
  }

  // ---------------------------------------------------------------- WHERE clauses

  ghost predicate CondIs(text: string, c: Cond, ps: seq<nat>) {
    Written(c) && Tokens(text) == CondTokens(c) && Params(Tokens(text)) == ps
  }

  /** body reads as WHERE and the conditions, with placeholders ps in this order. */
  ghost predicate WhereIs(body: string, conds: seq<Cond>, ps: seq<nat>) {
    AllWritten(conds) && Tokens(body) == [WHERE] + CondsTokens(conds) && Params(Tokens(body)) == ps
  }

  lemma {:induction false} EqualsIs(column: string, k: nat)
    requires IsWord(column)
    ensures CondIs(Equals(column, k), Equal(column, k), [k])
  {
    ReadEquals(column, k);
    ParamsOfEquals(column, k);
  }

  lemma {:induction false} InIs(column: string, parts: seq<string>, ks: seq<nat>)
    requires IsWord(column) && |parts| == |ks| > 0 && forall i :: 0 <= i < |ks| ==> parts[i] == Placeholder(ks[i])
    ensures CondIs(In(column, parts), Among(column, ks), ks)
  {
    ReadIn(column, parts, ks);
    ParamsOfIn(column, ks);
  }

  lemma {:induction false} Paste(a: string, sep: string, b: string)
    requires Separates(sep)
    ensures Tokens(a + sep + b) == Tokens(a) + Tokens(sep) + Tokens(b)
  {
    ReadInTurn(a, sep);
    ReadInTurn(a + sep, b);
  }

  lemma {:induction false} ParamsOfPaste(a: seq<Token>, sep: seq<Token>, b: seq<Token>)
    requires Params(sep) == []
    ensures Params(a + sep + b) == Params(a) + Params(b)
  {
    ParamsInTurn(a, sep);
    ParamsInTurn(a + sep, b);
  }

  lemma {:induction false} ReadWhere()
    ensures Tokens("WHERE ") == [WHERE] && Params([WHERE]) == []
  {
    ReadWord("WHERE");
    ReadInTurn("WHERE", " ");
    assert "WHERE" + " " == "WHERE ";
    NoParams([WHERE]);
  }

  lemma {:induction false} WhereStarts(text: string, c: Cond, ps: seq<nat>)
    requires CondIs(text, c, ps)
    ensures WhereIs("WHERE " + text, [c], ps)
  {
    ReadWhere();
    ReadInTurn("WHERE ", text);
    ParamsInTurn([WHERE], CondTokens(c));
    assert CondsTokens([c]) == CondTokens(c);
  }

  lemma {:induction false} OneMoreCond(conds: seq<Cond>, c: Cond)
    requires AllWritten(conds) && Written(c)
    ensures AllWritten(conds + [c]) && CondsTokens(conds + [c]) == CondsTokens(conds) + [AND] + CondTokens(c)
  {
    if |conds| > 1 {
      OneMoreCond(conds[1..], c);
      assert (conds + [c])[1..] == conds[1..] + [c];
      assert (conds + [c])[0] == conds[0];
    } else {
      assert conds == [conds[0]];
      assert (conds + [c])[1..] == [c];
    }
  }

  lemma {:induction false} WhereGrows(body: string, conds: seq<Cond>, ps: seq<nat>, text: string, c: Cond, qs: seq<nat>)
    requires WhereIs(body, conds, ps) && CondIs(text, c, qs)
    ensures WhereIs(body + " AND " + text, conds + [c], ps + qs)
  {
    ReadAnd();
    Paste(body, " AND ", text);
    OneMoreCond(conds, c);
    NoParams([AND]);
    ParamsOfPaste(Tokens(body), [AND], Tokens(text));
    AndInTurn(conds, c);
  }

  lemma {:induction false} AndInTurn(conds: seq<Cond>, c: Cond)
    requires AllWritten(conds) && Written(c) && AllWritten(conds + [c])
    ensures [WHERE] + CondsTokens(conds) + [AND] + CondTokens(c) == [WHERE] + CondsTokens(conds + [c])
  {
    OneMoreCond(conds, c);
  }

  lemma {:induction false} WhereBlank(body: string, conds: seq<Cond>, ps: seq<nat>, blank: string)
    requires WhereIs(body, conds, ps) && (blank == "\n" || blank == "\n\t")
    ensures WhereIs(body + blank, conds, ps)
  {
    assert Tokens(blank) == [] by { assert "\n\t"[1..] == "\t"; }
    ReadInTurn(body, blank);
  }

  lemma {:induction false} WhereLine(text: string, c: Cond, ps: seq<nat>, blank: string)
    requires CondIs(text, c, ps) && (blank == "\n" || blank == "\n\t")
    ensures WhereIs("WHERE " + text + blank, [c], ps)
  {
    WhereStarts(text, c, ps);
    WhereBlank("WHERE " + text, [c], ps, blank);
  }

  // ----------------------------------------------------------- SELECT, read and run

  /** The fixed text in front holds no placeholder and ends apart from what follows. */
  ghost predicate Fixed(from: string) {
    '$' !in from && (from == "" || !Glue(from[|from| - 1]))
  }

  /** The text's placeholders are $1, $2, ... up to the number of arguments, each once and in
      order, and on any rows the server answers with those direct holds of, in the order asked. */
  ghost predicate Selects<T(!new)>(from: string, query: string, args: seq<Value>, cells: T -> Row,
                                      direct: T -> bool, order: Option<string>) {
    && Params(Tokens(query)) == UpFrom(1, |args|)
    && forall rows: seq<T>, answer :: MayAnswer(from, query, args, rows, cells, answer)
         <==> answer.Some? && Delivered(Keep(rows, direct), order, cells, answer.value)
  }

  lemma {:induction false} KeepSame<T(!new)>(rows: seq<T>, p: T -> bool, q: T -> bool)
    requires forall t :: p(t) == q(t)
    ensures Keep(rows, p) == Keep(rows, q)
  {
    if rows != [] { KeepSame(rows[1..], p, q); }
  }

  lemma {:induction false} ReadsSelect(ts: seq<Token>, conds: seq<Cond>, tail: seq<Token>, order: Option<string>)
    requires AllWritten(conds) && ts == [WHERE] + (CondsTokens(conds) + tail)
    requires ReadOrder(tail) == Some(order)
    ensures ReadSelect(ts) == Some(SelectStatement(conds, order))
  {
    ReadsConds(conds, tail);
    assert ts[1..] == CondsTokens(conds) + tail;
  }

  lemma {:induction false} BoundUpFrom(n: nat)
    ensures Bound(UpFrom(1, n), n)
  {
    forall k | 1 <= k <= n
      ensures k in UpFrom(1, n)
    {
      assert UpFrom(1, n)[k - 1] == k;
    }
  }

  lemma {:induction false} SelectIs<T(!new)>(from: string, text: string, conds: seq<Cond>, args: seq<Value>,
                                             cells: T -> Row, direct: T -> bool, order: Option<string>,
                                             rows: seq<T>, answer: Option<seq<T>>)
    requires ReadSelect(Tokens(text)) == Some(SelectStatement(conds, order)) && Bound(Params(Tokens(text)), |args|)
    requires forall t, c | c in conds :: Known(c, cells(t))
    requires order.Some? ==> forall t :: order.value in cells(t)
    requires forall t :: AllHold(conds, cells(t), args) == direct(t)
    ensures MayAnswer(from, from + text, args, rows, cells, answer)
            <==> answer.Some? && Delivered(Keep(rows, direct), order, cells, answer.value)
  {
    assert (from + text)[|from|..] == text;
    KeepSame(rows, t => AllHold(conds, cells(t), args), direct);
  }

  lemma {:induction false} SelectsBy<T(!new)>(from: string, text: string, conds: seq<Cond>, args: seq<Value>,
                                              cells: T -> Row, direct: T -> bool, order: Option<string>)
    requires Fixed(from) && ReadSelect(Tokens(text)) == Some(SelectStatement(conds, order))
    requires Params(Tokens(text)) == UpFrom(1, |args|)
    requires forall t, c | c in conds :: Known(c, cells(t))
    requires order.Some? ==> forall t :: order.value in cells(t)
    requires forall t :: AllHold(conds, cells(t), args) == direct(t)
    ensures Selects(from, from + text, args, cells, direct, order)
  {
    ReadInTurn(from, text);
    NoDollarNoParams(from);
    ParamsInTurn(Tokens(from), Tokens(text));
    BoundUpFrom(|args|);
    forall rows: seq<T>, answer
      ensures MayAnswer(from, from + text, args, rows, cells, answer)
              <==> answer.Some? && Delivered(Keep(rows, direct), order, cells, answer.value)
    {
      SelectIs(from, text, conds, args, cells, direct, order, rows, answer);
    }
  }

  /** A kept row is kept as often as it is stored, any other never. */
  lemma {:induction false} KeepCounts<T(!new)>(rows: seq<T>, p: T -> bool, r: T)
    ensures multiset(Keep(rows, p))[r] == if p(r) then multiset(rows)[r] else 0
  {
    if rows != [] {
      KeepCounts(rows[1..], p, r);
      assert rows == [rows[0]] + rows[1..];
    }
  }

  /** What may come back for such a query: every row direct holds of as often as it is stored,
      and no other. */
  lemma {:induction false} AnswerCounts<T(!new)>(from: string, query: string, args: seq<Value>, cells: T -> Row,
                                                 direct: T -> bool, order: Option<string>, rows: seq<T>,
                                                 answer: seq<T>, r: T)
    requires Selects(from, query, args, cells, direct, order)
    requires MayAnswer(from, query, args, rows, cells, Some(answer))
    ensures multiset(answer)[r] == if direct(r) then multiset(rows)[r] else 0
    ensures order.Some? ==> InOrder(answer, order.value, cells)
  {
    KeepCounts(rows, direct, r);
  }

  // ------------------------------------------------------- some order always exists

  ghost predicate Orderable<T(!new)>(rows: seq<T>, column: string, cells: T -> Row) {
    forall t | t in rows :: column in cells(t) && cells(t)[column].Int?
  }

  function Insert<T>(t: T, sorted: seq<T>, key: T -> int): seq<T> {
    if sorted == [] || key(t) <= key(sorted[0]) then [t] + sorted else [sorted[0]] + Insert(t, sorted[1..], key)
  }

  ghost predicate Ascending<T(!new)>(answer: seq<T>, key: T -> int) {
    forall i, j :: 0 <= i < j < |answer| ==> key(answer[i]) <= key(answer[j])
  }

  lemma {:induction false} InsertAdds<T(!new)>(t: T, sorted: seq<T>, key: T -> int)
    ensures multiset(Insert(t, sorted, key)) == multiset(sorted) + multiset{t}
    ensures forall x :: x in Insert(t, sorted, key) ==> x == t || x in sorted
  {
    if sorted != [] && key(sorted[0]) < key(t) {
      InsertAdds(t, sorted[1..], key);
      assert sorted == [sorted[0]] + sorted[1..];
    }
  }

  lemma {:induction false} HeadFirst<T(!new)>(x: T, rest: seq<T>, key: T -> int)
    requires Ascending(rest, key) && forall y | y in rest :: key(x) <= key(y)
    ensures Ascending([x] + rest, key)
  {
  }

  lemma {:induction false} InsertSorts<T(!new)>(t: T, sorted: seq<T>, key: T -> int)
    requires Ascending(sorted, key)
    ensures Ascending(Insert(t, sorted, key), key)
  {
    if sorted == [] || key(t) <= key(sorted[0]) {
      HeadFirst(t, sorted, key);
    } else {
      InsertSorts(t, sorted[1..], key);
      InsertAdds(t, sorted[1..], key);
      HeadFirst(sorted[0], Insert(t, sorted[1..], key), key);
    }
  }

  lemma {:induction false} Sorting<T(!new)>(rows: seq<T>, key: T -> int) returns (answer: seq<T>)
    ensures multiset(answer) == multiset(rows) && Ascending(answer, key)
  {
    answer := [];
    if rows != [] {
      var rest := Sorting(rows[1..], key);
      answer := Insert(rows[0], rest, key);
      InsertAdds(rows[0], rest, key);
      InsertSorts(rows[0], rest, key);
      assert rows == [rows[0]] + rows[1..];
    }
  }

  /** Whatever rows are kept, they can be delivered, and in the order asked. */
  lemma {:induction false} SomeOrder<T(!new)>(kept: seq<T>, order: Option<string>, cells: T -> Row)
    requires order.Some? ==> Orderable(kept, order.value, cells)
    ensures exists answer :: Delivered(kept, order, cells, answer)
  {
    if order.None? {
      assert Delivered(kept, order, cells, kept);
    } else {
      var column := order.value;
      var key := t => if column in cells(t) && cells(t)[column].Int? then cells(t)[column].n else 0;
      var answer := Sorting(kept, key);
      forall i, j | 0 <= i < j < |answer|
        ensures NotAfter(cells(answer[i]), cells(answer[j]), column)
      {
        assert answer[i] in multiset(kept) && answer[j] in multiset(kept);
        assert key(answer[i]) <= key(answer[j]);
      }
      assert Delivered(kept, order, cells, answer);
    }
  }
}

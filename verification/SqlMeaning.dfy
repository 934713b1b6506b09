/** What the server makes of a query text and its arguments: the WHERE, ORDER BY and SET clauses read
    back from the text, the binding of `$k` to the k-th argument, and the rows that result. */
module SqlMeaning {
  import opened Prelude
  import opened SqlText

  type Id = nat

  datatype Value = Null | Text(text: string) | Int(n: int) | Uuid(id: Id)

  type Row = map<string, Value>

  /** Truth is the literal 1=1. */
  datatype Cond = Truth | Equal(column: string, k: nat) | Among(column: string, ks: seq<nat>)

  datatype Assign = Assign(column: string, k: nat)

  const AND := Word("AND")
  const IN := Word("IN")
  const WHERE := Word("WHERE")
  const ONE := Word("1")
  const ORDER := Word("ORDER")
  const BY := Word("BY")
  const ASC := Word("ASC")

  // --------------------------------------------------------------------- reading

  /** $a, $b, ... and what follows. */
  function ReadList(ts: seq<Token>): Option<(seq<nat>, seq<Token>)> {
    if ts == [] || !ts[0].Param? then None
    else if |ts| > 1 && ts[1] == Sign(',') then
      match ReadList(ts[2..])
      case None => None
      case Some((ks, rest)) => Some(([ts[0].k] + ks, rest))
    else Some(([ts[0].k], ts[1..]))
  }

  function ReadCond(ts: seq<Token>): Option<(Cond, seq<Token>)> {
    if |ts| < 3 || !ts[0].Word? then None
    else if ts[1] == Sign('=') && ts[2].Param? then Some((Equal(ts[0].word, ts[2].k), ts[3..]))
    else if ts[0] == ONE && ts[1] == Sign('=') && ts[2] == ONE then Some((Truth, ts[3..]))
    else if ts[1] == IN && ts[2] == Sign('(') then
      match ReadList(ts[3..])
      case None => None
      case Some((ks, rest)) =>
        if rest != [] && rest[0] == Sign(')') then Some((Among(ts[0].word, ks), rest[1..])) else None
    else None
  }

  /** cond AND cond ... and what follows. */
  function ReadConds(ts: seq<Token>): Option<(seq<Cond>, seq<Token>)>
    decreases |ts|
  {
    match ReadCond(ts)
    case None => None
    case Some((c, rest)) =>
      if |rest| < |ts| && rest != [] && rest[0] == AND then
        match ReadConds(rest[1..])
        case None => None
        case Some((cs, after)) => Some(([c] + cs, after))
      else Some(([c], rest))
  }

  /** column = $k, column = $k ... and what follows. */
  function ReadAssigns(ts: seq<Token>): Option<(seq<Assign>, seq<Token>)> {
    if |ts| < 3 || !ts[0].Word? || ts[1] != Sign('=') || !ts[2].Param? then None
    else
      var a := Assign(ts[0].word, ts[2].k);
      if |ts| > 3 && ts[3] == Sign(',') then
        match ReadAssigns(ts[4..])
        case None => None
        case Some((more, rest)) => Some(([a] + more, rest))
      else Some(([a], ts[3..]))
  }

  /** ORDER BY column ASC, or nothing. */
  function ReadOrder(ts: seq<Token>): Option<Option<string>> {
    if ts == [] then Some(None)
    else if |ts| == 4 && ts[0] == ORDER && ts[1] == BY && ts[2].Word? && ts[3] == ASC then Some(Some(ts[2].word))
    else None
  }

  datatype SelectStatement = SelectStatement(conds: seq<Cond>, order: Option<string>)

  /** What follows the FROM clause: nothing, or WHERE and conditions and then perhaps an order. */
  function ReadSelect(ts: seq<Token>): Option<SelectStatement> {
    if ts == [] then Some(SelectStatement([], None))
    else if ts[0] != WHERE then None
    else
      match ReadConds(ts[1..])
      case None => None
      case Some((conds, rest)) =>
        match ReadOrder(rest)
        case None => None
        case Some(order) => Some(SelectStatement(conds, order))
  }

  datatype UpdateStatement = UpdateStatement(table: string, assigns: seq<Assign>, conds: seq<Cond>)

  /** UPDATE table SET assignments WHERE conditions RETURNING ... */
  function ReadUpdate(ts: seq<Token>): Option<UpdateStatement> {
    if |ts| < 3 || ts[0] != Word("UPDATE") || !ts[1].Word? || ts[2] != Word("SET") then None
    else
      match ReadAssigns(ts[3..])
      case None => None
      case Some((assigns, rest)) =>
        if rest == [] || rest[0] != WHERE then None
        else
          match ReadConds(rest[1..])
          case None => None
          case Some((conds, after)) =>
            if after == [] || after[0] != Word("RETURNING") then None
            else Some(UpdateStatement(ts[1].word, assigns, conds))
  }

  // ------------------------------------------------------------------ evaluation

  /** A server wants every parameter up to the number of arguments, and none beyond. */
  predicate Bound(ps: seq<nat>, n: nat) {
    (forall p | p in ps :: 1 <= p <= n) && (forall k | 1 <= k <= n :: k in ps)
  }

  predicate Known(c: Cond, row: Row) {
    c.Truth? || c.column in row
  }

  /** NULL equals nothing. */
  predicate Holds(c: Cond, row: Row, args: seq<Value>) {
    match c
    case Truth => true
    case Equal(column, k) => column in row && row[column] != Null && 1 <= k <= |args| && row[column] == args[k - 1]
    case Among(column, ks) =>
      column in row && row[column] != Null
      && exists i :: 0 <= i < |ks| && 1 <= ks[i] <= |args| && row[column] == args[ks[i] - 1]
  }

  predicate AllHold(conds: seq<Cond>, row: Row, args: seq<Value>) {
    forall c | c in conds :: Holds(c, row, args)
  }

  function Keep<T>(rows: seq<T>, p: T -> bool): seq<T> {
    if rows == [] then [] else (if p(rows[0]) then [rows[0]] else []) + Keep(rows[1..], p)
  }

  /** Row r may come before row q when the rows are sorted by the column, an INT or a time. */
  predicate NotAfter(r: Row, q: Row, column: string) {
    && column in r && column in q && r[column].Int? && q[column].Int? && r[column].n <= q[column].n
  }

  predicate InOrder<T(!new)>(answer: seq<T>, column: string, cells: T -> Row) {
    forall i, j :: 0 <= i < j < |answer| ==> NotAfter(cells(answer[i]), cells(answer[j]), column)
  }

  /** The kept rows, each as often as it is stored, sorted if an order is given and otherwise in
      any order at all. */
  ghost predicate Delivered<T(!new)>(kept: seq<T>, order: Option<string>, cells: T -> Row, answer: seq<T>) {
    && multiset(answer) == multiset(kept)
    && (order.Some? ==> InOrder(answer, order.value, cells))
  }

  /** What may come back for a SELECT whose fixed text up to the FROM clause is from, over the
      rows of that clause; None is the server's error. */
  ghost predicate MayAnswer<T(!new)>(from: string, text: string, args: seq<Value>, rows: seq<T>, cells: T -> Row,
                                        answer: Option<seq<T>>) {
    if !(from <= text) then answer == None
    else
      var ts := Tokens(text[|from|..]);
      match ReadSelect(ts)
      case None => answer == None
      case Some(q) =>
        if || !Bound(Params(ts), |args|)
           || (exists t, c | t in rows && c in q.conds :: !Known(c, cells(t)))
           || (q.order.Some? && exists t | t in rows :: q.order.value !in cells(t))
        then answer == None
        else
          answer.Some? && Delivered(Keep(rows, t => AllHold(q.conds, cells(t), args)), q.order, cells, answer.value)
  }

  /** What a column holds after the assignments. */
  function NewValue(column: string, assigns: seq<Assign>, args: seq<Value>, was: Value): Value {
    if assigns == [] then was
    else if assigns[0].column == column && 1 <= assigns[0].k <= |args| then args[assigns[0].k - 1]
    else NewValue(column, assigns[1..], args, was)
  }

  function Overwrite(row: Row, assigns: seq<Assign>, args: seq<Value>): Row {
    map c | c in row :: NewValue(c, assigns, args, row[c])
  }

  predicate Distinct(assigns: seq<Assign>) {
    forall i, j :: 0 <= i < j < |assigns| ==> assigns[i].column != assigns[j].column
  }

  function Each(rows: seq<Row>, f: Row -> Row): seq<Row> {
    if rows == [] then [] else [f(rows[0])] + Each(rows[1..], f)
  }

  /** The table after an UPDATE, in the order of its rows; None is the server's error. */
  function Update(table: string, text: string, args: seq<Value>, rows: seq<Row>): Option<seq<Row>> {
    var ts := Tokens(text);
    match ReadUpdate(ts)
    case None => None
    case Some(u) =>
      if || u.table != table || !Distinct(u.assigns) || !Bound(Params(ts), |args|)
         || (exists row, a | row in rows && a in u.assigns :: a.column !in row)
         || (exists row, c | row in rows && c in u.conds :: !Known(c, row))
      then None
      else Some(Each(rows, row => if AllHold(u.conds, row, args) then Overwrite(row, u.assigns, args) else row))
  }

  // ----------------------------------------------------------- clauses as tokens

  function ListTokens(ks: seq<nat>): seq<Token>
    requires ks != []
  {
    [Param(ks[0])] + if |ks| == 1 then [] else [Sign(',')] + ListTokens(ks[1..])
  }

  predicate Written(c: Cond) { c.Among? ==> c.ks != [] }

  function CondTokens(c: Cond): seq<Token>
    requires Written(c)
  {
    match c
    case Truth => [ONE, Sign('='), ONE]
    case Equal(column, k) => [Word(column), Sign('='), Param(k)]
    case Among(column, ks) => [Word(column), IN, Sign('(')] + ListTokens(ks) + [Sign(')')]
  }

  predicate AllWritten(conds: seq<Cond>) {
    conds != [] && forall c | c in conds :: Written(c)
  }

  function CondsTokens(conds: seq<Cond>): seq<Token>
    requires AllWritten(conds)
  {
    CondTokens(conds[0]) + if |conds| == 1 then [] else [AND] + CondsTokens(conds[1..])
  }

  function AssignsTokens(assigns: seq<Assign>): seq<Token>
    requires assigns != []
  {
    [Word(assigns[0].column), Sign('='), Param(assigns[0].k)]
    + if |assigns| == 1 then [] else [Sign(',')] + AssignsTokens(assigns[1..])
  }

  lemma {:induction false} ReadsList(ks: seq<nat>, rest: seq<Token>)
    requires ks != [] && (rest != [] ==> rest[0] != Sign(','))
    ensures ReadList(ListTokens(ks) + rest) == Some((ks, rest))
  {
    var ts := ListTokens(ks) + rest;
    if |ks| > 1 {
      ReadsList(ks[1..], rest);
      assert ts[2..] == ListTokens(ks[1..]) + rest;
      assert [ks[0]] + ks[1..] == ks;
    } else {
      assert ts[1..] == rest;
      assert [ks[0]] == ks;
    }
  }

  lemma {:induction false} ReadsAmong(c: Cond, rest: seq<Token>)
    requires c.Among? && c.ks != []
    ensures ReadCond(CondTokens(c) + rest) == Some((c, rest))
  {
    var ts := CondTokens(c) + rest;
    var after := [Sign(')')] + rest;
    ReadsList(c.ks, after);
    assert ts[3..] == ListTokens(c.ks) + after;
    assert after[1..] == rest;
    assert ts[1] == IN && ts[2] == Sign('(');
  }

  lemma {:induction false} ReadsCond(c: Cond, rest: seq<Token>)
    requires Written(c)
    ensures ReadCond(CondTokens(c) + rest) == Some((c, rest))
  {
    if c.Among? {
      ReadsAmong(c, rest);
    } else {
      assert (CondTokens(c) + rest)[3..] == rest;
    }
  }

  /** The first of several conditions, and the text of the others. */
  lemma {:induction false} SplitConds(conds: seq<Cond>, rest: seq<Token>)
    requires AllWritten(conds) && |conds| > 1
    ensures CondsTokens(conds) + rest == CondTokens(conds[0]) + ([AND] + (CondsTokens(conds[1..]) + rest))
    ensures [conds[0]] + conds[1..] == conds
  {
  }

  lemma {:induction false} ReadsLast(c: Cond, rest: seq<Token>)
    requires Written(c) && (rest != [] ==> rest[0] != AND)
    ensures ReadConds(CondTokens(c) + rest) == Some(([c], rest))
  {
    ReadsCond(c, rest);
  }

  /** Reading one condition and then, after AND, the others. */
  lemma {:induction false} ReadsAnother(c: Cond, more: seq<Token>, cs: seq<Cond>, rest: seq<Token>)
    requires Written(c) && ReadConds(more) == Some((cs, rest))
    ensures ReadConds(CondTokens(c) + ([AND] + more)) == Some(([c] + cs, rest))
  {
    ReadsCond(c, [AND] + more);
    assert ([AND] + more)[1..] == more;
  }

  lemma {:induction false} ReadsConds(conds: seq<Cond>, rest: seq<Token>)
    requires AllWritten(conds) && (rest != [] ==> rest[0] != AND)
    ensures ReadConds(CondsTokens(conds) + rest) == Some((conds, rest))
  {
    if |conds| > 1 {
      ReadsConds(conds[1..], rest);
      SplitConds(conds, rest);
      ReadsAnother(conds[0], CondsTokens(conds[1..]) + rest, conds[1..], rest);
    } else {
      ReadsLast(conds[0], rest);
      assert conds == [conds[0]];
      assert CondsTokens(conds) == CondTokens(conds[0]);
    }
  }

  lemma {:induction false} ReadsAssigns(assigns: seq<Assign>, rest: seq<Token>)
    requires assigns != [] && (rest != [] ==> rest[0] != Sign(','))
    ensures ReadAssigns(AssignsTokens(assigns) + rest) == Some((assigns, rest))
  {
    var ts := AssignsTokens(assigns) + rest;
    if |assigns| > 1 {
      ReadsAssigns(assigns[1..], rest);
      assert ts[4..] == AssignsTokens(assigns[1..]) + rest;
      assert [assigns[0]] + assigns[1..] == assigns;
    } else {
      assert ts[3..] == rest;
      assert [assigns[0]] == assigns;
    }
  }
}

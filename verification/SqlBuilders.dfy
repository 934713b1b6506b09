/** SELECT texts under construction: conditions added one by one, each with its arguments. */
module SqlBuilders {
  import opened Prelude
  import opened SqlText
  import opened SqlMeaning
  import opened SqlClauses

  predicate InRange(c: Cond, n: nat) {
    match c
    case Truth => true
    case Equal(_, k) => 1 <= k <= n
    case Among(_, ks) => forall i :: 0 <= i < |ks| ==> 1 <= ks[i] <= n
  }

  /** With these arguments the conditions hold of exactly the rows direct holds of. */
  ghost predicate Filters<T(!new)>(conds: seq<Cond>, args: seq<Value>, cells: T -> Row, direct: T -> bool) {
    && (forall c | c in conds :: InRange(c, |args|))
    && (forall t, c | c in conds :: Known(c, cells(t)))
    && (forall t :: AllHold(conds, cells(t), args) == direct(t))
  }

  /** A query under construction: its text after from reads as such conditions, the
      placeholders so far being $1, $2, ... */
  ghost predicate Builds<T(!new)>(body: string, conds: seq<Cond>, args: seq<Value>, cells: T -> Row,
                                  direct: T -> bool) {
    WhereIs(body, conds, UpFrom(1, |args|)) && Filters(conds, args, cells, direct)
  }

  /** Arguments added behind change nothing for the conditions there are. */
  lemma {:induction false} HoldsLater(c: Cond, row: Row, args: seq<Value>, more: seq<Value>)
    requires InRange(c, |args|)
    ensures Holds(c, row, args + more) == Holds(c, row, args)
  {
  }

  lemma {:induction false} Narrow<T(!new)>(conds: seq<Cond>, args: seq<Value>, cells: T -> Row, direct: T -> bool,
                                           c: Cond, more: seq<Value>, narrowed: T -> bool)
    requires Filters(conds, args, cells, direct) && InRange(c, |args + more|)
    requires forall t :: Known(c, cells(t)) && narrowed(t) == (direct(t) && Holds(c, cells(t), args + more))
    ensures Filters(conds + [c], args + more, cells, narrowed)
  {
    forall t
      ensures AllHold(conds + [c], cells(t), args + more) == narrowed(t)
    {
      forall d | d in conds
        ensures Holds(d, cells(t), args + more) == Holds(d, cells(t), args)
      {
        HoldsLater(d, cells(t), args, more);
      }
      assert AllHold(conds + [c], cells(t), args + more)
             == (AllHold(conds, cells(t), args + more) && Holds(c, cells(t), args + more)) by {
        assert forall d :: d in conds + [c] <==> d in conds || d == c;
      }
      assert AllHold(conds, cells(t), args + more) == AllHold(conds, cells(t), args);
    }
  }

  lemma {:induction false} UpFromGrows(n: nat, m: nat)
    ensures UpFrom(1, n) + UpFrom(n + 1, m) == UpFrom(1, n + m)
  {
  }

  lemma {:induction false} EqualHolds(column: string, row: Row, args: seq<Value>, v: Value)
    requires column in row && v != Null
    ensures Holds(Equal(column, |args| + 1), row, args + [v]) == (row[column] == v)
  {
  }

  lemma {:induction false} NarrowEqual<T(!new)>(conds: seq<Cond>, args: seq<Value>, cells: T -> Row, direct: T -> bool,
                                                column: string, v: Value, narrowed: T -> bool)
    requires Filters(conds, args, cells, direct) && v != Null
    requires forall t :: column in cells(t) && narrowed(t) == (direct(t) && cells(t)[column] == v)
    ensures Filters(conds + [Equal(column, |args| + 1)], args + [v], cells, narrowed)
  {
    var n := |args| + 1;
    forall t
      ensures narrowed(t) == (direct(t) && Holds(Equal(column, n), cells(t), args + [v]))
    {
      EqualHolds(column, cells(t), args, v);
    }
    Narrow(conds, args, cells, direct, Equal(column, n), [v], narrowed);
  }

  lemma {:induction false} WhereNext(body: string, conds: seq<Cond>, n: nat, text: string, c: Cond, m: nat)
    requires WhereIs(body, conds, UpFrom(1, n)) && CondIs(text, c, UpFrom(n + 1, m))
    ensures WhereIs(body + " AND " + text, conds + [c], UpFrom(1, n + m))
  {
    WhereGrows(body, conds, UpFrom(1, n), text, c, UpFrom(n + 1, m));
    UpFromGrows(n, m);
  }

  /** Adding " AND column = $k" with its argument narrows the answer to that column value. */
  lemma {:induction false} AddEqual<T(!new)>(body: string, conds: seq<Cond>, args: seq<Value>, cells: T -> Row,
                                             direct: T -> bool,
                                             column: string, v: Value, narrowed: T -> bool)
    requires Builds(body, conds, args, cells, direct) && IsWord(column) && v != Null
    requires forall t :: column in cells(t) && narrowed(t) == (direct(t) && cells(t)[column] == v)
    ensures Builds(body + " AND " + Equals(column, |args| + 1), conds + [Equal(column, |args| + 1)],
                   args + [v], cells, narrowed)
  {
    var n := |args| + 1;
    EqualsIs(column, n);
    assert UpFrom(n, 1) == [n];
    WhereNext(body, conds, |args|, Equals(column, n), Equal(column, n), 1);
    NarrowEqual(conds, args, cells, direct, column, v, narrowed);
  }

  lemma {:induction false} BoundValue(args: seq<Value>, values: seq<Value>, i: nat)
    requires i < |values|
    ensures UpFrom(|args| + 1, |values|)[i] == |args| + 1 + i && (args + values)[|args| + i] == values[i]
  {
  }

  lemma {:induction false} AmongNeeds(column: string, row: Row, args: seq<Value>, values: seq<Value>)
    requires Holds(Among(column, UpFrom(|args| + 1, |values|)), row, args + values)
    ensures row[column] in values
  {
    var ks, all := UpFrom(|args| + 1, |values|), args + values;
    var i :| 0 <= i < |ks| && 1 <= ks[i] <= |all| && row[column] == all[ks[i] - 1];
    BoundValue(args, values, i);
  }

  lemma {:induction false} AmongGives(column: string, row: Row, args: seq<Value>, values: seq<Value>)
    requires column in row && Null !in values && row[column] in values
    ensures Holds(Among(column, UpFrom(|args| + 1, |values|)), row, args + values)
  {
    var ks, all := UpFrom(|args| + 1, |values|), args + values;
    var i :| 0 <= i < |values| && values[i] == row[column];
    BoundValue(args, values, i);
    assert 0 <= i < |ks| && 1 <= ks[i] <= |all| && row[column] == all[ks[i] - 1];
  }

  lemma {:induction false} AmongHolds(column: string, row: Row, args: seq<Value>, values: seq<Value>)
    requires column in row && Null !in values
    ensures Holds(Among(column, UpFrom(|args| + 1, |values|)), row, args + values) == (row[column] in values)
  {
    if row[column] in values {
      AmongGives(column, row, args, values);
    }
    if Holds(Among(column, UpFrom(|args| + 1, |values|)), row, args + values) {
      AmongNeeds(column, row, args, values);
    }
  }

  lemma {:induction false} NarrowAmong<T(!new)>(conds: seq<Cond>, args: seq<Value>, cells: T -> Row, direct: T -> bool,
                                                column: string, values: seq<Value>, narrowed: T -> bool)
    requires Filters(conds, args, cells, direct) && Null !in values
    requires forall t :: column in cells(t) && narrowed(t) == (direct(t) && cells(t)[column] in values)
    ensures Filters(conds + [Among(column, UpFrom(|args| + 1, |values|))], args + values, cells, narrowed)
  {
    var c := Among(column, UpFrom(|args| + 1, |values|));
    forall t
      ensures narrowed(t) == (direct(t) && Holds(c, cells(t), args + values))
    {
      AmongHolds(column, cells(t), args, values);
    }
    Narrow(conds, args, cells, direct, c, values, narrowed);
  }

  /** Adding " AND column IN ($k, $k+1, ...)" with its arguments narrows the answer to those
      column values. */
  lemma {:induction false} AddIn<T(!new)>(body: string, conds: seq<Cond>, args: seq<Value>, cells: T -> Row,
                                          direct: T -> bool,
                                          column: string, parts: seq<string>, values: seq<Value>, narrowed: T -> bool)
    requires Builds(body, conds, args, cells, direct) && IsWord(column) && Null !in values
    requires |parts| == |values| > 0 && forall i :: 0 <= i < |parts| ==> parts[i] == Placeholder(|args| + 1 + i)
    requires forall t :: column in cells(t) && narrowed(t) == (direct(t) && cells(t)[column] in values)
    ensures Builds(body + " AND " + In(column, parts), conds + [Among(column, UpFrom(|args| + 1, |values|))],
                   args + values, cells, narrowed)
  {
    var ks := UpFrom(|args| + 1, |values|);
    InIs(column, parts, ks);
    WhereNext(body, conds, |args|, In(column, parts), Among(column, ks), |values|);
    NarrowAmong(conds, args, cells, direct, column, values, narrowed);
  }

  lemma {:induction false} BuiltSelects<T(!new)>(from: string, body: string, conds: seq<Cond>, args: seq<Value>,
                                                 cells: T -> Row, direct: T -> bool)
    requires Fixed(from) && Builds(body, conds, args, cells, direct)
    ensures Selects(from, from + body, args, cells, direct, None)
  {
    assert Tokens(body) == [WHERE] + (CondsTokens(conds) + []);
    ReadsSelect(Tokens(body), conds, [], None);
    SelectsBy(from, body, conds, args, cells, direct, None);
  }

  function Placeholders(first: nat, n: nat): seq<string> { seq(n, i requires 0 <= i < n => Placeholder(first + i)) }

  lemma {:induction false} StartsBy<T(!new)>(column: string, id: Id, blank: string, cells: T -> Row, whose: T -> bool)
    requires IsWord(column) && (blank == "\n" || blank == "\n\t")
    requires forall r: T :: column in cells(r) && whose(r) == (cells(r)[column] == Uuid(id))
    ensures Builds("WHERE " + Equals(column, 1) + blank, [Equal(column, 1)], [Uuid(id)], cells, whose)
  {
    EqualsIs(column, 1);
    WhereLine(Equals(column, 1), Equal(column, 1), [1], blank);
    assert UpFrom(1, 1) == [1];
    forall r: T
      ensures AllHold([Equal(column, 1)], cells(r), [Uuid(id)]) == whose(r)
    {
      assert [] + [Uuid(id)] == [Uuid(id)];
      EqualHolds(column, cells(r), [], Uuid(id));
      assert forall c :: c in [Equal(column, 1)] <==> c == Equal(column, 1);
    }
  }

  lemma {:induction false} TwoConds(a: string, c: Cond, b: string, d: Cond, blank: string)
    requires CondIs(a, c, [1]) && CondIs(b, d, [2]) && (blank == "\n" || blank == "\n\t")
    ensures WhereIs("WHERE " + a + " AND " + b + blank, [c, d], [1, 2])
  {
    WhereStarts(a, c, [1]);
    WhereGrows("WHERE " + a, [c], [1], b, d, [2]);
    assert [c] + [d] == [c, d] && [1] + [2] == [1, 2];
    WhereBlank("WHERE " + a + " AND " + b, [c, d], [1, 2], blank);
  }

  lemma {:induction false} TwoFilter<T(!new)>(first: string, id: Id, second: string, od: Id, cells: T -> Row,
                                              whose: T -> bool)
    requires forall r: T :: first in cells(r) && second in cells(r)
    requires forall r: T :: whose(r) == (cells(r)[first] == Uuid(id) && cells(r)[second] == Uuid(od))
    ensures Filters([Equal(first, 1), Equal(second, 2)], [Uuid(id), Uuid(od)], cells, whose)
  {
    var c, d, args := Equal(first, 1), Equal(second, 2), [Uuid(id), Uuid(od)];
    forall r: T
      ensures AllHold([c, d], cells(r), args) == whose(r)
    {
      assert forall e :: e in [c, d] <==> e == c || e == d;
      assert Holds(c, cells(r), args) == (cells(r)[first] == Uuid(id));
      assert Holds(d, cells(r), args) == (cells(r)[second] == Uuid(od));
    }
  }

  lemma {:induction false} BuildsTwo<T(!new)>(body: string, conds: seq<Cond>, args: seq<Value>, cells: T -> Row,
                                              whose: T -> bool)
    requires WhereIs(body, conds, [1, 2]) && Filters(conds, args, cells, whose) && |args| == 2
    ensures Builds(body, conds, args, cells, whose)
  {
    assert UpFrom(1, 2) == [1, 2];
  }

  lemma {:induction false} StartsByTwo<T(!new)>(first: string, id: Id, second: string, od: Id, blank: string,
                                                cells: T -> Row, whose: T -> bool)
    requires IsWord(first) && IsWord(second) && (blank == "\n" || blank == "\n\t")
    requires forall r: T :: first in cells(r) && second in cells(r)
    requires forall r: T :: whose(r) == (cells(r)[first] == Uuid(id) && cells(r)[second] == Uuid(od))
    ensures Builds("WHERE " + Equals(first, 1) + " AND " + Equals(second, 2) + blank,
                   [Equal(first, 1), Equal(second, 2)],
                   [Uuid(id), Uuid(od)], cells, whose)
  {
    EqualsIs(first, 1);
    EqualsIs(second, 2);
    TwoConds(Equals(first, 1), Equal(first, 1), Equals(second, 2), Equal(second, 2), blank);
    TwoFilter(first, id, second, od, cells, whose);
    BuildsTwo("WHERE " + Equals(first, 1) + " AND " + Equals(second, 2) + blank, [Equal(first, 1), Equal(second, 2)],
              [Uuid(id), Uuid(od)], cells, whose);
  }
}

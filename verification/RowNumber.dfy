/** ROW_NUMBER() OVER (PARTITION BY group ORDER BY created_at DESC) as SQL leaves it: any
    numbering that respects the order, ties broken however the server likes. */
module RowNumber {

  type Id = nat

  /** What the window looks at in a row. */
  datatype Stamp = Stamp(group: Id, createdAt: int)

  function Partition(rows: map<Id, Stamp>, group: Id): set<Id> {
    set r | r in rows && rows[r].group == group
  }

  ghost predicate IsNumbering(rows: map<Id, Stamp>, rn: map<Id, nat>) {
    && rn.Keys == rows.Keys
    && (forall r :: r in rows ==> 1 <= rn[r] <= |Partition(rows, rows[r].group)|)
    && (forall r, q | r in rows && q in rows && r != q && rows[r].group == rows[q].group :: rn[r] != rn[q])
    && (forall r, q | r in rows && q in rows && rows[r].group == rows[q].group ::
          rows[r].createdAt > rows[q].createdAt ==> rn[r] < rn[q])
  }

  predicate IsLatest(rows: map<Id, Stamp>, group: Id, r: Id) {
    && r in rows && rows[r].group == group
    && forall q | q in Partition(rows, group) :: rows[q].createdAt <= rows[r].createdAt
  }

  /** The numbers from 2 to n. */
  function FromTwo(n: nat): (s: set<nat>)
    ensures forall k: nat :: k in s <==> 2 <= k <= n
    ensures |s| == if n < 2 then 0 else n - 1
  {
    if n < 2 then {} else FromTwo(n - 1) + {n}
  }

  /** n distinct numbers between 1 and n include 1. */
  lemma Pigeonhole(s: set<Id>, rn: map<Id, nat>)
    requires s != {} && s <= rn.Keys
    requires forall r :: r in s ==> 1 <= rn[r] <= |s|
    requires forall r, q | r in s && q in s && r != q :: rn[r] != rn[q]
    ensures exists r :: r in s && rn[r] == 1
  {
    var numbers := set r | r in s :: rn[r];
    ImageSize(s, rn, numbers);
    if numbers <= FromTwo(|s|) {
      SubsetSize(numbers, FromTwo(|s|));
      assert false;
    }
  }

  lemma {:induction false} ImageSize(s: set<Id>, rn: map<Id, nat>, image: set<nat>)
    requires s <= rn.Keys && image == set r | r in s :: rn[r]
    requires forall r, q | r in s && q in s && r != q :: rn[r] != rn[q]
    ensures |image| == |s|
    decreases s
  {
    if s == {} {
      assert image == {};
    } else {
      var r :| r in s;
      ImageSize(s - {r}, rn, image - {rn[r]});
    }
  }

  lemma {:induction false} SubsetSize<T>(a: set<T>, b: set<T>)
    requires a <= b
    ensures |a| <= |b|
    decreases a
  {
    if a != {} {
      var x :| x in a;
      SubsetSize(a - {x}, b - {x});
    }
  }

  /** However ties are broken, WHERE rn = 1 keeps exactly one row of every group that has rows,
      and it is a latest one. */
  lemma FirstRow(rows: map<Id, Stamp>, rn: map<Id, nat>, group: Id) returns (r: Id)
    requires IsNumbering(rows, rn) && Partition(rows, group) != {}
    ensures IsLatest(rows, group, r) && rn[r] == 1
    ensures forall q :: q in Partition(rows, group) && rn[q] == 1 ==> q == r
  {
    var s := Partition(rows, group);
    Pigeonhole(s, rn);
    r :| r in s && rn[r] == 1;
    forall q | q in s
      ensures rows[q].createdAt <= rows[r].createdAt
    {
      assert q in rows && rows[q].group == rows[r].group;
      assert rn[r] <= rn[q];
    }
  }

  // ------------------------------------------------------- numberings that exist

  /** A tie-break: newer first, then the favoured row, then smaller ids. */
  predicate Before(rows: map<Id, Stamp>, favoured: Id, q: Id, r: Id)
    requires q in rows && r in rows
  {
    || rows[q].createdAt > rows[r].createdAt
    || (rows[q].createdAt == rows[r].createdAt
        && if r == favoured then false else q == favoured || q < r)
  }

  function Ahead(rows: map<Id, Stamp>, favoured: Id, r: Id): set<Id>
    requires r in rows
  {
    set q | q in rows && rows[q].group == rows[r].group && Before(rows, favoured, q, r)
  }

  function Favouring(rows: map<Id, Stamp>, favoured: Id): map<Id, nat> {
    map r | r in rows :: 1 + |Ahead(rows, favoured, r)|
  }

  lemma AheadGrows(rows: map<Id, Stamp>, favoured: Id, q: Id, r: Id)
    requires q in rows && r in rows && rows[q].group == rows[r].group && Before(rows, favoured, q, r)
    ensures |Ahead(rows, favoured, q)| < |Ahead(rows, favoured, r)|
  {
    assert Ahead(rows, favoured, q) <= Ahead(rows, favoured, r) - {q};
    SubsetSize(Ahead(rows, favoured, q), Ahead(rows, favoured, r) - {q});
  }

  lemma FavouringIsDistinct(rows: map<Id, Stamp>, favoured: Id, r: Id, q: Id)
    requires r in rows && q in rows && r != q && rows[r].group == rows[q].group
    ensures Favouring(rows, favoured)[r] != Favouring(rows, favoured)[q]
    ensures rows[r].createdAt > rows[q].createdAt ==> Favouring(rows, favoured)[r] < Favouring(rows, favoured)[q]
  {
    if Before(rows, favoured, q, r) {
      AheadGrows(rows, favoured, q, r);
    } else {
      AheadGrows(rows, favoured, r, q);
    }
  }

  lemma FavouringIsBounded(rows: map<Id, Stamp>, favoured: Id, r: Id)
    requires r in rows
    ensures 1 <= Favouring(rows, favoured)[r] <= |Partition(rows, rows[r].group)|
  {
    var s := Partition(rows, rows[r].group);
    assert Ahead(rows, favoured, r) <= s - {r};
    SubsetSize(Ahead(rows, favoured, r), s - {r});
  }

  /** For every latest row of a group there is a numbering that puts it first, so every way of
      breaking a tie really can happen. */
  lemma FavouringNumbers(rows: map<Id, Stamp>, favoured: Id)
    ensures IsNumbering(rows, Favouring(rows, favoured))
    ensures favoured in rows && IsLatest(rows, rows[favoured].group, favoured) ==>
            Favouring(rows, favoured)[favoured] == 1
  {
    var rn := Favouring(rows, favoured);
    assert rn.Keys == rows.Keys;
    forall r | r in rows
      ensures 1 <= rn[r] <= |Partition(rows, rows[r].group)|
    {
      FavouringIsBounded(rows, favoured, r);
    }
    forall r, q | r in rows && q in rows && r != q && rows[r].group == rows[q].group
      ensures rn[r] != rn[q] && (rows[r].createdAt > rows[q].createdAt ==> rn[r] < rn[q])
    {
      FavouringIsDistinct(rows, favoured, r, q);
    }
    if favoured in rows && IsLatest(rows, rows[favoured].group, favoured) {
      forall q | q in Partition(rows, rows[favoured].group)
        ensures !Before(rows, favoured, q, favoured)
      {
      }
      assert Ahead(rows, favoured, favoured) == {};
    }
  }
}

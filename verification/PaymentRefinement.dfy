/** The retried calls of one submit after another are runs of the message protocol, so what holds
    in every interleaving of the protocol holds of them. */
module PaymentRefinement {
  import opened Prelude
  import opened ScheduleModel
  import opened PaymentSaga
  import Code = PaymentService
  import Accounts = PaymentAccounts

  /** The protocol shows the tables b after these actions. */
  predicate Shows(actions: seq<Action>, b: Code.Books) {
    Run(actions).receipts == b.receipts && Run(actions).paid == b.paid
  }

  /** The names drawn so far: of submits and of receipts. */
  ghost predicate Named(actions: seq<Action>, submits: set<Id>, drawn: set<Id>) {
    Run(actions).submits.Keys == submits && Run(actions).drawn == drawn
  }

  lemma {:induction false} GivingUp(actions: seq<Action>, s: Id) returns (longer: seq<Action>)
    requires var w := Run(actions); s in w.submits && !Is(w, s, Succeeded)
    ensures var w, w' := Run(actions), Run(longer);
            && Is(w', s, Failed) && w'.submits.Keys == w.submits.Keys && w'.drawn == w.drawn
            && w'.receipts == w.receipts && w'.paid == w.paid
  {
    longer := actions + [GiveUp(s)];
    Next(actions, GiveUp(s));
  }

  lemma {:induction false} Learning(actions: seq<Action>, s: Id, lesson: Id, id: Id) returns (longer: seq<Action>)
    requires var w := Run(actions);
             s !in w.submits && id !in w.drawn && lesson in w.paid && !w.paid[lesson]
    ensures var w, w' := Run(actions), Run(longer);
            && s in w'.submits && w'.submits[s] == Submit(lesson, id, Inserting)
            && w'.submits.Keys == w.submits.Keys + {s} && w'.drawn == w.drawn + {id}
            && w'.receipts == w.receipts && w'.paid == w.paid
  {
    var begun := actions + [Begin(s, lesson, id)];
    Next(actions, Begin(s, lesson, id));
    Next(begun, ServeRead(s));
    longer := begun + [ServeRead(s)] + [Learn(s)];
    Next(begun + [ServeRead(s)], Learn(s));
  }

  lemma {:induction false} Storing(actions: seq<Action>, s: Id, lesson: Id, id: Id) returns (longer: seq<Action>)
    requires var w := Run(actions);
             && s !in w.submits && id !in w.drawn && id !in w.receipts
             && lesson in w.paid && !w.paid[lesson]
    ensures var w, w' := Run(actions), Run(longer);
            && s in w'.submits && w'.submits[s] == Submit(lesson, id, Marking)
            && w'.submits.Keys == w.submits.Keys + {s} && w'.drawn == w.drawn + {id}
            && w'.receipts == w.receipts[id := Receipt(lesson, false)] && w'.paid == w.paid
  {
    var learnt := Learning(actions, s, lesson, id);
    var sent, served := learnt + [SendInsert(s)], learnt + [SendInsert(s)] + [ServeInsert(s)];
    Next(learnt, SendInsert(s));
    Next(sent, ServeInsert(s));
    longer := served + [LearnInserted(s)];
    Next(served, LearnInserted(s));
  }

  lemma {:induction false} PaidBehind(actions: seq<Action>, s: Id) returns (longer: seq<Action>)
    requires var w := Run(actions); Is(w, s, Marking) && w.submits[s].lesson in w.paid
    ensures var w, w' := Run(actions), Run(longer);
            && Is(w', s, Marking) && Marked(s) in w'.net && w'.submits == w.submits && w'.drawn == w.drawn
            && w'.receipts == w.receipts && w'.paid == w.paid[w.submits[s].lesson := true]
  {
    Next(actions, SendMark(s));
    longer := actions + [SendMark(s)] + [ServeMark(s)];
    Next(actions + [SendMark(s)], ServeMark(s));
  }

  lemma {:induction false} Succeeding(actions: seq<Action>, s: Id) returns (longer: seq<Action>)
    requires var w := Run(actions); Is(w, s, Marking) && Marked(s) in w.net
    ensures var w, w' := Run(actions), Run(longer);
            && Is(w', s, Succeeded) && w'.submits.Keys == w.submits.Keys && w'.drawn == w.drawn
            && w'.receipts == w.receipts && w'.paid == w.paid
  {
    longer := actions + [LearnMarked(s)];
    Next(actions, LearnMarked(s));
  }

  lemma {:induction false} Beginning(actions: seq<Action>, s: Id, lesson: Id, id: Id) returns (longer: seq<Action>)
    requires s !in Run(actions).submits && id !in Run(actions).drawn
    ensures var w, w' := Run(actions), Run(longer);
            && Is(w', s, Reading) && w'.submits.Keys == w.submits.Keys + {s} && w'.drawn == w.drawn + {id}
            && w'.receipts == w.receipts && w'.paid == w.paid
  {
    longer := actions + [Begin(s, lesson, id)];
    Next(actions, Begin(s, lesson, id));
  }

  /** Whatever its calls meet, a submit of the code does to the tables what some protocol run does
      with a submit of its own, which succeeds there exactly if the code's does. */
  lemma {:induction false} SubmitIsRun(actions: seq<Action>, b: Code.Books, s: Id, lesson: Id, id: Id,
                                       lines: Code.Lines)
    returns (longer: seq<Action>)
    requires Shows(actions, b) && s !in Run(actions).submits && id !in Run(actions).drawn
    ensures Shows(longer, Code.Submitted(b, lesson, id, lines).0)
    ensures Named(longer, Run(actions).submits.Keys + {s}, Run(actions).drawn + {id})
    ensures Is(Run(longer), s, if Code.Submitted(b, lesson, id, lines).1.Ok? then Succeeded else Failed)
  {
    var (b', r) := Code.Submitted(b, lesson, id, lines);
    Accounts.SubmitEffect(b, lesson, id, lines);
    if b'.receipts == b.receipts {
      longer := Beginning(actions, s, lesson, id);
      longer := GivingUp(longer, s);
    } else {
      longer := Storing(actions, s, lesson, id);
      if r.Ok? {
        longer := PaidBehind(longer, s);
        longer := Succeeding(longer, s);
      } else {
        if b'.paid != b.paid { longer := PaidBehind(longer, s); }
        longer := GivingUp(longer, s);
      }
    }
  }

  // -------------------------------------------------------------------------- runs

  /** The receipt ids a sequential run draws. */
  function Ids(run: seq<Accounts.Step>): set<Id> {
    set i | 0 <= i < |run| && run[i].Submit? :: run[i].id
  }

  ghost predicate FreshIds(run: seq<Accounts.Step>) {
    forall i, j :: 0 <= i < j < |run| && run[i].Submit? && run[j].Submit? ==> run[i].id != run[j].id
  }

  lemma {:induction false} LastIds(run: seq<Accounts.Step>)
    requires run != [] && FreshIds(run)
    ensures var n := |run| - 1; var last := run[n];
            && FreshIds(run[..n]) && (last.Submit? ==> last.id !in Ids(run[..n]))
            && Ids(run) == Ids(run[..n]) + if last.Submit? then {last.id} else {}
  {
    var n := |run| - 1;
    var before := run[..n];
    assert run == before + [run[n]];
    forall x | x in Ids(run)
      ensures x in Ids(before) || (run[n].Submit? && x == run[n].id)
    {
      var i :| 0 <= i < |run| && run[i].Submit? && run[i].id == x;
      if i < n { assert before[i].Submit? && before[i].id == x; }
    }
    forall x | x in Ids(before)
      ensures x in Ids(run)
    {
      var i :| 0 <= i < |before| && before[i].Submit? && before[i].id == x;
      assert run[i].Submit? && run[i].id == x;
    }
  }

  /** Every sequential run of submits, verifications and new lessons, with any losses, leaves the
      tables as some run of the protocol does. */
  lemma {:induction false} CodeIsProtocol(run: seq<Accounts.Step>) returns (actions: seq<Action>)
    requires FreshIds(run)
    ensures Shows(actions, Accounts.After(run))
    ensures (forall s :: s in Run(actions).submits ==> s < |run|) && Run(actions).drawn == Ids(run)
  {
    actions := [];
    if run != [] {
      var n := |run| - 1;
      LastIds(run);
      actions := CodeIsProtocol(run[..n]);
      var b := Accounts.After(run[..n]);
      match run[n]
      case AddLesson(l) =>
        Next(actions, NewLesson(l));
        actions := actions + [NewLesson(l)];
      case Submit(l, id, lines) =>
        actions := SubmitIsRun(actions, b, n, l, id, lines);
      case Verify(id, line) =>
        if Code.AfterVerify(b.receipts, line, id) != b.receipts {
          Next(actions, PaymentSaga.Verify(id));
          actions := actions + [PaymentSaga.Verify(id)];
        }
    }
  }

  /** So in the code too a lesson that is marked paid has a stored receipt. */
  lemma {:induction false} PaidInCodeMeansReceipt(run: seq<Accounts.Step>, lesson: Id)
    requires FreshIds(run)
    requires lesson in Accounts.After(run).paid && Accounts.After(run).paid[lesson]
    ensures exists r :: r in Accounts.After(run).receipts && Accounts.After(run).receipts[r].lesson == lesson
  {
    var actions := CodeIsProtocol(run);
    PaidMeansReceipt(actions, lesson);
  }
}

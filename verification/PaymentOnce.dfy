/** Which submits can still succeed once a lesson is paid: under every interleaving exactly
    those that were answered before. */
module PaymentOnce {
  import opened Prelude
  import opened ScheduleModel
  import opened PaymentSaga

  /** An UpdateLesson in flight is about to write is_paid of lesson l back to false. */
  predicate TakesBack(w: World, a: Action, l: Id) {
    a.EditWrite? && a.edit in w.edits && w.edits[a.edit] == (l, false)
  }

  predicate PaidNow(w: World, l: Id) { l in w.paid && w.paid[l] }

  /** The submit has been answered that its lesson l is unpaid, and has not failed. */
  predicate Answered(w: World, s: Id, l: Id) {
    && s in w.submits && w.submits[s].lesson == l
    && match w.submits[s].stage {
         case Reading => LessonIs(s, false) in w.net
         case Failed => false
         case _ => true
       }
  }

  // ------------------------------------------------------------------- bookkeeping

  ghost predicate AnswersKnown(w: World) {
    forall s, b :: LessonIs(s, b) in w.net ==> s in w.submits
  }

  ghost predicate InsertsKnown(w: World) {
    forall s :: InsertReceipt(s) in w.net ==> s in w.submits && !w.submits[s].stage.Reading?
  }

  ghost predicate StoredConfirmed(w: World) {
    forall s :: s in w.submits && w.submits[s].receipt in w.receipts ==>
      Inserted(s) in w.net && InsertReceipt(s) in w.net
  }

  /** Answers and inserts belong to submits that are under way, and a stored receipt has been
      asked for and confirmed. */
  ghost predicate Known(w: World) { AnswersKnown(w) && InsertsKnown(w) && StoredConfirmed(w) }

  lemma {:induction false} StepKeepsAnswers(w: World, a: Action)
    requires AnswersKnown(w)
    ensures AnswersKnown(Step(w, a))
  {
  }

  lemma {:induction false} StepKeepsInserts(w: World, a: Action)
    requires InsertsKnown(w)
    ensures InsertsKnown(Step(w, a))
  {
  }

  lemma {:induction false} StepKeepsConfirmed(w: World, a: Action)
    requires IdsDrawn(w) && StoredConfirmed(w)
    ensures StoredConfirmed(Step(w, a))
  {
    var w' := Step(w, a);
    assert w.net <= w'.net;
    if a.ServeInsert? && w' != w {
      assert w'.submits == w.submits;
    }
  }

  lemma {:induction false} StepKeepsKnown(w: World, a: Action)
    requires Inv(w) && Known(w)
    ensures Known(Step(w, a))
  {
    StepKeepsAnswers(w, a);
    StepKeepsInserts(w, a);
    StepKeepsConfirmed(w, a);
  }

  lemma {:induction false} RunKeepsKnown(actions: seq<Action>)
    ensures Known(Run(actions))
  {
    if actions != [] {
      var n := |actions| - 1;
      RunKeepsKnown(actions[..n]);
      RunKeepsInv(actions[..n]);
      StepKeepsKnown(Run(actions[..n]), actions[n]);
    }
  }

  // ------------------------------------------------------------ nobody else succeeds

  /** While the lesson stays paid no submit gets answered that it is unpaid. */
  lemma {:induction false} StepAnswersNobody(w: World, a: Action, s: Id, l: Id)
    requires Known(w) && PaidNow(w, l) && !TakesBack(w, a, l) && !Answered(w, s, l)
    ensures PaidNow(Step(w, a), l) && !Answered(Step(w, a), s, l)
  {
  }

  /** Nothing in more, done after actions, writes lesson l back to unpaid. */
  ghost predicate NeverTakesBack(actions: seq<Action>, more: seq<Action>, l: Id) {
    forall k | 0 <= k < |more| :: !TakesBack(Run(actions + more[..k]), more[k], l)
  }

  lemma {:induction false} LastTakesBackNothing(actions: seq<Action>, more: seq<Action>, l: Id)
    requires more != [] && NeverTakesBack(actions, more, l)
    ensures var n := |more| - 1;
            && NeverTakesBack(actions, more[..n], l)
            && !TakesBack(Run(actions + more[..n]), more[n], l)
  {
    var n := |more| - 1;
    forall k | 0 <= k < n
      ensures !TakesBack(Run(actions + more[..n][..k]), more[..n][k], l)
    {
      assert more[..n][..k] == more[..k];
    }
  }

  lemma {:induction false} RunOneMore(actions: seq<Action>, more: seq<Action>)
    requires more != []
    ensures Run(actions + more) == Step(Run(actions + more[..|more| - 1]), more[|more| - 1])
  {
    var n := |more| - 1;
    Next(actions + more[..n], more[n]);
    assert actions + more[..n] + [more[n]] == actions + more;
  }

  lemma {:induction false} RunAnswersNobody(actions: seq<Action>, more: seq<Action>, s: Id, l: Id)
    requires PaidNow(Run(actions), l) && NeverTakesBack(actions, more, l) && !Answered(Run(actions), s, l)
    ensures PaidNow(Run(actions + more), l) && !Answered(Run(actions + more), s, l)
    decreases |more|
  {
    if more == [] {
      assert actions + more == actions;
    } else {
      var n := |more| - 1;
      LastTakesBackNothing(actions, more, l);
      RunAnswersNobody(actions, more[..n], s, l);
      RunKeepsKnown(actions + more[..n]);
      StepAnswersNobody(Run(actions + more[..n]), more[n], s, l);
      RunOneMore(actions, more);
    }
  }

  // ------------------------------------------------------------ everybody else can

  ghost predicate Succeeds(w: World, s: Id, l: Id) { Is(w, s, Succeeded) && w.submits[s].lesson == l }

  /** The steps left to a submit, by its stage. */
  function Remaining(w: World, s: Id): seq<Action>
    requires s in w.submits
  {
    var mark := [SendMark(s)] + [ServeMark(s)] + [LearnMarked(s)];
    match w.submits[s].stage
    case Reading => [Learn(s)] + Rest(s)
    case Inserting => if w.submits[s].receipt in w.receipts then [LearnInserted(s)] + mark else Rest(s)
    case Marking => mark
    case _ => []
  }

  lemma {:induction false} MarkFinishes(actions: seq<Action>, s: Id)
    requires Is(Run(actions), s, Marking) && Run(actions).submits[s].lesson in Run(actions).paid
    ensures var mark := [SendMark(s)] + [ServeMark(s)] + [LearnMarked(s)];
            Succeeds(Run(actions + mark), s, Run(actions).submits[s].lesson)
  {
    MarkSucceeds(actions, s);
    assert actions + ([SendMark(s)] + [ServeMark(s)] + [LearnMarked(s)])
           == actions + [SendMark(s)] + [ServeMark(s)] + [LearnMarked(s)];
  }

  /** An answered submit succeeds if nothing more goes wrong, paid as the lesson is. */
  lemma {:induction false} AnsweredCanSucceed(actions: seq<Action>, s: Id, l: Id)
    requires Answered(Run(actions), s, l) && l in Run(actions).paid
    ensures Succeeds(Run(actions + Remaining(Run(actions), s)), s, l)
  {
    var w := Run(actions);
    RunKeepsKnown(actions);
    match w.submits[s].stage
    case Reading =>
      Next(actions, Learn(s));
      RestSucceeds(actions + [Learn(s)], s);
      assert actions + [Learn(s)] + Rest(s) == actions + ([Learn(s)] + Rest(s));
    case Inserting =>
      if w.submits[s].receipt in w.receipts {
        Next(actions, LearnInserted(s));
        MarkFinishes(actions + [LearnInserted(s)], s);
        var mark := [SendMark(s)] + [ServeMark(s)] + [LearnMarked(s)];
        assert actions + [LearnInserted(s)] + mark == actions + ([LearnInserted(s)] + mark);
      } else {
        RestSucceeds(actions, s);
      }
    case Marking =>
      MarkFinishes(actions, s);
    case Succeeded =>
      assert actions + [] == actions;
  }

  lemma {:induction false} RemainingWritesNothing(w: World, s: Id, actions: seq<Action>, l: Id)
    requires s in w.submits
    ensures NeverTakesBack(actions, Remaining(w, s), l)
  {
    assert forall a | a in Remaining(w, s) :: !a.EditWrite?;
  }

  /** Once a lesson is paid, and as long as no UpdateLesson writes it back to unpaid, a submit
      for it can still succeed if and only if it had been answered that the lesson is unpaid. */
  lemma {:induction false} CanStillSucceedIff(actions: seq<Action>, s: Id, l: Id)
    requires PaidNow(Run(actions), l)
    ensures (exists more :: NeverTakesBack(actions, more, l) && Succeeds(Run(actions + more), s, l))
            <==> Answered(Run(actions), s, l)
  {
    if Answered(Run(actions), s, l) {
      AnsweredCanSucceed(actions, s, l);
      RemainingWritesNothing(Run(actions), s, actions, l);
      assert NeverTakesBack(actions, Remaining(Run(actions), s), l);
    } else {
      forall more | NeverTakesBack(actions, more, l)
        ensures !Succeeds(Run(actions + more), s, l)
      {
        RunAnswersNobody(actions, more, s, l);
      }
    }
  }
}

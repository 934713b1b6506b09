/** The payment saga between payment_service and schedule_service as a message protocol: read
    the lesson, insert a receipt, mark the lesson paid. Requests and replies may be lost,
    delayed, repeated or overtaken, senders may crash at any point, and UpdateLesson may write
    back an is_paid it read long ago. */
module PaymentSaga {
  import opened Prelude
  import opened ScheduleModel

  datatype Receipt = Receipt(lesson: Id, isVerified: bool)

  /** A submit: waiting for the lesson, for the insert, for the marking, or over. */
  datatype Stage = Reading | Inserting | Marking | Succeeded | Failed

  /** The receipt id is drawn once, before the first insert attempt, and reused by retries. */
  datatype Submit = Submit(lesson: Id, receipt: Id, stage: Stage)

  datatype Message =
    | LessonIs(submit: Id, isPaid: bool)   // GetLesson's reply
    | InsertReceipt(submit: Id)            // request of CreateReceipt
    | Inserted(submit: Id)                 // its replies
    | Duplicate(submit: Id)
    | MarkPaid(submit: Id)                 // request of MarkAsPaid
    | Marked(submit: Id)                   // its reply

  /** paid holds the is_paid column of every lesson; edits the is_paid that an UpdateLesson in
      flight has read and will write back; net every message ever sent. */
  datatype World = World(paid: map<Id, bool>, receipts: map<Id, Receipt>, submits: map<Id, Submit>,
                         edits: map<Id, (Id, bool)>, net: set<Message>, drawn: set<Id>)

  const START := World(map[], map[], map[], map[], {}, {})

  datatype Action =
    | NewLesson(lesson: Id)
    | Begin(submit: Id, lesson: Id, receipt: Id)
    | ServeRead(submit: Id)        // schedule_service answers GetLesson
    | Learn(submit: Id)            // the submit receives that it is unpaid
    | SendInsert(submit: Id)       // first try or retry
    | ServeInsert(submit: Id)      // the database executes the INSERT
    | LearnInserted(submit: Id)
    | SendMark(submit: Id)
    | ServeMark(submit: Id)
    | LearnMarked(submit: Id)
    | GiveUp(submit: Id)           // an error, an exhausted retry, a crash
    | EditRead(edit: Id, lesson: Id)
    | EditWrite(edit: Id)
    | Verify(receipt: Id)

  function At(w: World, s: Id, stage: Stage): World
    requires s in w.submits
  {
    w.(submits := w.submits[s := w.submits[s].(stage := stage)])
  }

  function Send(w: World, m: Message): World { w.(net := w.net + {m}) }

  predicate Is(w: World, s: Id, stage: Stage) { s in w.submits && w.submits[s].stage == stage }

  function ServeInsertStep(w: World, s: Id): World {
    if s !in w.submits || InsertReceipt(s) !in w.net then w
    else if w.submits[s].receipt in w.receipts then Send(w, Duplicate(s))
    else Send(w.(receipts := w.receipts[w.submits[s].receipt := Receipt(w.submits[s].lesson, false)]), Inserted(s))
  }

  function ServeMarkStep(w: World, s: Id): World {
    if s !in w.submits || MarkPaid(s) !in w.net || w.submits[s].lesson !in w.paid then w
    else Send(w.(paid := w.paid[w.submits[s].lesson := true]), Marked(s))
  }

  function Step(w: World, a: Action): World {
    match a
    case NewLesson(l) => if l in w.paid then w else w.(paid := w.paid[l := false])
    case Begin(s, l, r) =>
      if s in w.submits || r in w.drawn then w
      else w.(submits := w.submits[s := Submit(l, r, Reading)], drawn := w.drawn + {r})
    case ServeRead(s) =>
      if s !in w.submits || w.submits[s].lesson !in w.paid then w
      else Send(w, LessonIs(s, w.paid[w.submits[s].lesson]))
    case Learn(s) => if Is(w, s, Reading) && LessonIs(s, false) in w.net then At(w, s, Inserting) else w
    case SendInsert(s) => if Is(w, s, Inserting) then Send(w, InsertReceipt(s)) else w
    case ServeInsert(s) => ServeInsertStep(w, s)
    case LearnInserted(s) => if Is(w, s, Inserting) && Inserted(s) in w.net then At(w, s, Marking) else w
    case SendMark(s) => if Is(w, s, Marking) then Send(w, MarkPaid(s)) else w
    case ServeMark(s) => ServeMarkStep(w, s)
    case LearnMarked(s) => if Is(w, s, Marking) && Marked(s) in w.net then At(w, s, Succeeded) else w
    case GiveUp(s) => if s in w.submits && !Is(w, s, Succeeded) then At(w, s, Failed) else w
    case EditRead(e, l) =>
      if e in w.edits || l !in w.paid then w else w.(edits := w.edits[e := (l, w.paid[l])])
    case EditWrite(e) =>
      if e !in w.edits || w.edits[e].0 !in w.paid then w else w.(paid := w.paid[w.edits[e].0 := w.edits[e].1])
    case Verify(r) =>
      if r !in w.receipts then w else w.(receipts := w.receipts[r := w.receipts[r].(isVerified := true)])
  }

  function Run(actions: seq<Action>): World {
    if actions == [] then START else Step(Run(actions[..|actions| - 1]), actions[|actions| - 1])
  }

  // ----------------------------------------------------------------- invariant

  ghost predicate HasReceipt(w: World, lesson: Id) {
    exists r :: r in w.receipts && w.receipts[r].lesson == lesson
  }

  /** The submit's own receipt is stored. */
  predicate Stored(w: World, s: Id) {
    s in w.submits && w.submits[s].receipt in w.receipts
      && w.receipts[w.submits[s].receipt].lesson == w.submits[s].lesson
  }

  /** The promise, and what in-flight messages and snapshots must already guarantee. */
  ghost predicate PaidHasReceipt(w: World) {
    forall l :: l in w.paid && w.paid[l] ==> HasReceipt(w, l)
  }

  ghost predicate SnapshotsHaveReceipts(w: World) {
    forall e :: e in w.edits && w.edits[e].1 ==> HasReceipt(w, w.edits[e].0)
  }

  ghost predicate MessagesOk(w: World) {
    && (forall s :: Inserted(s) in w.net ==> Stored(w, s))
    && (forall s :: MarkPaid(s) in w.net ==> Stored(w, s))
    && (forall s :: Marked(s) in w.net ==> Stored(w, s))
    && (forall s :: s in w.submits && (w.submits[s].stage.Marking? || w.submits[s].stage.Succeeded?) ==> Stored(w, s))
  }

  /** Receipt ids are drawn once each. */
  ghost predicate IdsDrawn(w: World) {
    && w.receipts.Keys <= w.drawn
    && (forall s :: s in w.submits ==> w.submits[s].receipt in w.drawn)
    && (forall s, u | s in w.submits && u in w.submits && s != u :: w.submits[s].receipt != w.submits[u].receipt)
  }

  ghost predicate BelongsToSubmit(w: World, r: Id)
    requires r in w.receipts
  {
    exists s :: s in w.submits && w.submits[s].receipt == r && w.submits[s].lesson == w.receipts[r].lesson
  }

  ghost predicate ReceiptsBelong(w: World) {
    forall r :: r in w.receipts ==> BelongsToSubmit(w, r)
  }

  ghost predicate Inv(w: World) {
    PaidHasReceipt(w) && SnapshotsHaveReceipts(w) && MessagesOk(w) && IdsDrawn(w) && ReceiptsBelong(w)
  }

  /** Receipts are never removed or moved, submits keep their lesson and receipt id. */
  ghost predicate Grows(w: World, w': World) {
    && (forall r | r in w.receipts ::
          && r in w'.receipts && w'.receipts[r].lesson == w.receipts[r].lesson
          && (w.receipts[r].isVerified ==> w'.receipts[r].isVerified))
    && (forall s | s in w.submits ::
          && s in w'.submits && w'.submits[s].lesson == w.submits[s].lesson
          && w'.submits[s].receipt == w.submits[s].receipt)
  }

  lemma StepGrows(w: World, a: Action)
    ensures Grows(w, Step(w, a))
  {
  }

  lemma GrowsKeeps(w: World, w': World)
    requires Grows(w, w')
    ensures forall l :: HasReceipt(w, l) ==> HasReceipt(w', l)
    ensures forall s :: Stored(w, s) ==> Stored(w', s)
  {
    forall l | HasReceipt(w, l)
      ensures HasReceipt(w', l)
    {
      var r :| r in w.receipts && w.receipts[r].lesson == l;
      assert r in w'.receipts;
    }
  }

  lemma StepKeepsPaid(w: World, a: Action)
    requires Inv(w)
    ensures PaidHasReceipt(Step(w, a)) && SnapshotsHaveReceipts(Step(w, a))
  {
    var w' := Step(w, a);
    StepGrows(w, a);
    GrowsKeeps(w, w');
    if a.ServeMark? && w' != w {
      assert Stored(w, a.submit);
      assert HasReceipt(w, w.submits[a.submit].lesson);
    }
  }

  lemma StepKeepsMessages(w: World, a: Action)
    requires Inv(w)
    ensures MessagesOk(Step(w, a))
  {
    StepGrows(w, a);
    GrowsKeeps(w, Step(w, a));
  }

  lemma StepKeepsIds(w: World, a: Action)
    requires Inv(w)
    ensures IdsDrawn(Step(w, a))
  {
    StepGrows(w, a);
  }

  lemma StepKeepsBelonging(w: World, a: Action)
    requires Inv(w)
    ensures ReceiptsBelong(Step(w, a))
  {
    var w' := Step(w, a);
    StepGrows(w, a);
    forall r | r in w'.receipts
      ensures BelongsToSubmit(w', r)
    {
      if r in w.receipts {
        assert BelongsToSubmit(w, r);
        var s :| s in w.submits && w.submits[s].receipt == r && w.submits[s].lesson == w.receipts[r].lesson;
        assert s in w'.submits;
      } else {
        assert a.ServeInsert? && w'.submits[a.submit].receipt == r;
      }
    }
  }

  lemma {:induction false} RunKeepsInv(actions: seq<Action>)
    ensures Inv(Run(actions))
  {
    if actions != [] {
      var w := Run(actions[..|actions| - 1]);
      RunKeepsInv(actions[..|actions| - 1]);
      StepKeepsPaid(w, actions[|actions| - 1]);
      StepKeepsMessages(w, actions[|actions| - 1]);
      StepKeepsIds(w, actions[|actions| - 1]);
      StepKeepsBelonging(w, actions[|actions| - 1]);
    }
  }

  /** However submits, edits and markings interleave and whatever is lost, late or repeated, a
      lesson marked paid has a stored receipt, and a submit that reported success has its own. */
  lemma PaidMeansReceipt(actions: seq<Action>, lesson: Id)
    requires var w := Run(actions); lesson in w.paid && w.paid[lesson]
    ensures exists r :: r in Run(actions).receipts && Run(actions).receipts[r].lesson == lesson
  {
    RunKeepsInv(actions);
    assert HasReceipt(Run(actions), lesson);
  }

  ghost function ReceiptsBy(w: World, s: Id): set<Id> {
    set r | r in w.receipts && s in w.submits && w.submits[s].receipt == r
  }

  /** A submit stores at most one receipt, however many times its insert is sent and served; a
      successful one exactly one; and every receipt is some submit's. */
  lemma OneReceiptPerSubmit(actions: seq<Action>, s: Id)
    ensures var w := Run(actions);
            && |ReceiptsBy(w, s)| <= 1
            && (Is(w, s, Succeeded) ==> |ReceiptsBy(w, s)| == 1)
            && (forall r :: r in w.receipts ==> exists u :: u in w.submits && r in ReceiptsBy(w, u))
  {
    var w := Run(actions);
    RunKeepsInv(actions);
    if s in w.submits {
      assert ReceiptsBy(w, s) <= {w.submits[s].receipt};
      if w.submits[s].receipt in w.receipts {
        assert ReceiptsBy(w, s) == {w.submits[s].receipt};
      } else {
        assert ReceiptsBy(w, s) == {};
      }
    } else {
      assert ReceiptsBy(w, s) == {};
    }
    forall r | r in w.receipts
      ensures exists u :: u in w.submits && r in ReceiptsBy(w, u)
    {
      assert BelongsToSubmit(w, r);
      var u :| u in w.submits && w.submits[u].receipt == r;
      assert r in ReceiptsBy(w, u);
    }
  }

  /** Verification is never taken back and no receipt disappears. */
  lemma {:induction false} ReceiptsOnlyGrow(actions: seq<Action>, i: nat)
    requires i <= |actions|
    ensures Grows(Run(actions[..i]), Run(actions))
    decreases |actions|
  {
    if i == |actions| {
      assert actions[..i] == actions;
    } else {
      var n := |actions| - 1;
      ReceiptsOnlyGrow(actions[..n], i);
      assert actions[..n][..i] == actions[..i];
      StepGrows(Run(actions[..n]), actions[n]);
    }
  }

  // --------------------------------------------- what interleaving does not keep

  lemma Next(actions: seq<Action>, a: Action)
    ensures Run(actions + [a]) == Step(Run(actions), a)
  {
    assert (actions + [a])[..|actions|] == actions;
  }

  /** The rest of a submit that nothing goes wrong with, once it has learnt the lesson is unpaid. */
  function Rest(s: Id): seq<Action> {
    [SendInsert(s), ServeInsert(s), LearnInserted(s), SendMark(s), ServeMark(s), LearnMarked(s)]
  }

  lemma InsertSucceeds(actions: seq<Action>, s: Id)
    requires var w := Run(actions);
             Is(w, s, Inserting) && w.submits[s].receipt !in w.receipts
    ensures var w := Run(actions); var sub := w.submits[s];
            var w' := Run(actions + [SendInsert(s)] + [ServeInsert(s)] + [LearnInserted(s)]);
            && w'.submits == w.submits[s := sub.(stage := Marking)]
            && w'.receipts == w.receipts[sub.receipt := Receipt(sub.lesson, false)]
            && w'.paid == w.paid && w'.edits == w.edits
  {
    Next(actions, SendInsert(s));
    Next(actions + [SendInsert(s)], ServeInsert(s));
    Next(actions + [SendInsert(s)] + [ServeInsert(s)], LearnInserted(s));
  }

  lemma MarkSucceeds(actions: seq<Action>, s: Id)
    requires var w := Run(actions);
             Is(w, s, Marking) && w.submits[s].lesson in w.paid
    ensures var w := Run(actions); var sub := w.submits[s];
            var w' := Run(actions + [SendMark(s)] + [ServeMark(s)] + [LearnMarked(s)]);
            && w'.submits == w.submits[s := sub.(stage := Succeeded)]
            && w'.receipts == w.receipts && w'.paid == w.paid[sub.lesson := true] && w'.edits == w.edits
  {
    Next(actions, SendMark(s));
    Next(actions + [SendMark(s)], ServeMark(s));
    Next(actions + [SendMark(s)] + [ServeMark(s)], LearnMarked(s));
  }

  lemma RestSucceeds(actions: seq<Action>, s: Id)
    requires var w := Run(actions);
             Is(w, s, Inserting) && w.submits[s].receipt !in w.receipts && w.submits[s].lesson in w.paid
    ensures var w := Run(actions); var w' := Run(actions + Rest(s)); var sub := w.submits[s];
            && w'.submits == w.submits[s := sub.(stage := Succeeded)]
            && w'.receipts == w.receipts[sub.receipt := Receipt(sub.lesson, false)]
            && w'.paid == w.paid[sub.lesson := true] && w'.edits == w.edits
  {
    InsertSucceeds(actions, s);
    var inserted := actions + [SendInsert(s)] + [ServeInsert(s)] + [LearnInserted(s)];
    MarkSucceeds(inserted, s);
    assert inserted + [SendMark(s)] + [ServeMark(s)] + [LearnMarked(s)] == actions + Rest(s);
  }

  /** An edit holds the unpaid lesson 7; submits 1 and 2 have both learnt that it is unpaid. */
  const BOTH_LEARN: seq<Action> :=
    [NewLesson(7), EditRead(9, 7), Begin(1, 7, 11), Begin(2, 7, 12), ServeRead(1), ServeRead(2), Learn(1), Learn(2)]

  lemma Takes(run: seq<Action>, i: nat)
    requires i < |run|
    ensures Run(run[..i + 1]) == Step(Run(run[..i]), run[i])
  {
    assert run[..i + 1][..i] == run[..i];
  }

  /** The world while the two submits are at the given stages. */
  function Pair(first: Stage, second: Stage, net: set<Message>): World {
    World(map[7 := false], map[], map[1 := Submit(7, 11, first), 2 := Submit(7, 12, second)], map[9 := (7, false)],
          net, {11, 12})
  }

  lemma BothBegin()
    ensures Run(BOTH_LEARN[..4]) == Pair(Reading, Reading, {})
  {
    Takes(BOTH_LEARN, 0);
    Takes(BOTH_LEARN, 1);
    assert Run(BOTH_LEARN[..2]) == World(map[7 := false], map[], map[], map[9 := (7, false)], {}, {});
    Takes(BOTH_LEARN, 2);
    Takes(BOTH_LEARN, 3);
    assert Run(BOTH_LEARN[..4]).submits == Pair(Reading, Reading, {}).submits;
  }

  const ANSWERS := {LessonIs(1, false), LessonIs(2, false)}

  lemma BothServed()
    ensures Run(BOTH_LEARN[..6]) == Pair(Reading, Reading, ANSWERS)
  {
    BothBegin();
    Takes(BOTH_LEARN, 4);
    assert Run(BOTH_LEARN[..5]) == Pair(Reading, Reading, {LessonIs(1, false)});
    Takes(BOTH_LEARN, 5);
  }

  lemma EachLearns()
    ensures Step(Pair(Reading, Reading, ANSWERS), Learn(1)) == Pair(Inserting, Reading, ANSWERS)
    ensures Step(Pair(Inserting, Reading, ANSWERS), Learn(2)) == Pair(Inserting, Inserting, ANSWERS)
  {
    assert Step(Pair(Reading, Reading, ANSWERS), Learn(1)).submits == Pair(Inserting, Reading, ANSWERS).submits;
    assert Step(Pair(Inserting, Reading, ANSWERS), Learn(2)).submits == Pair(Inserting, Inserting, ANSWERS).submits;
  }

  lemma BothLearn()
    ensures Run(BOTH_LEARN) == Pair(Inserting, Inserting, ANSWERS)
  {
    BothServed();
    EachLearns();
    assert BOTH_LEARN[..6] + [Learn(1)] == BOTH_LEARN[..7] && BOTH_LEARN[..7] + [Learn(2)] == BOTH_LEARN;
    Next(BOTH_LEARN[..6], Learn(1));
    Next(BOTH_LEARN[..7], Learn(2));
  }

  /** Overlapping submits may both succeed, each with its receipt, and a stale edit then leaves
      the lesson unpaid: one success per lesson is a promise of sequential runs only. */
  lemma OverlappingSubmitsBothSucceed()
    ensures var w := Run(BOTH_LEARN + Rest(1) + Rest(2) + [EditWrite(9)]);
            && Is(w, 1, Succeeded) && Is(w, 2, Succeeded)
            && w.receipts == map[11 := Receipt(7, false), 12 := Receipt(7, false)]
            && w.paid == map[7 := false]
  {
    BothLearn();
    RestSucceeds(BOTH_LEARN, 1);
    RestSucceeds(BOTH_LEARN + Rest(1), 2);
    Next(BOTH_LEARN + Rest(1) + Rest(2), EditWrite(9));
  }
}

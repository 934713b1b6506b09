/** Bookkeeping of sequential submits: what each stores, and what all of them add up to. */
module PaymentAccounts {
  import opened Prelude
  import opened Retry
  import opened PaymentService
  import PaymentSaga

  /** A retried call that succeeds was answered by a served attempt, and the attempts before it
      were lost. */
  lemma SuccessWasDelivered<T>(line: Line, answer: nat -> Result<T, Failure>) returns (k: nat)
    requires Answer(OverLine(line, answer), MAX_RETRIES, RETRY_DELAY).Ok?
    ensures k < Calls(OverLine(line, answer), MAX_RETRIES, RETRY_DELAY)
    ensures line.delivery(k).Delivered? && answer(k).Ok?
    ensures Answer(OverLine(line, answer), MAX_RETRIES, RETRY_DELAY) == answer(k)
    ensures ServedWithin(line, Calls(OverLine(line, answer), MAX_RETRIES, RETRY_DELAY))
  {
    var w := OverLine(line, answer);
    k := FirstStop(w, MAX_RETRIES, RETRY_DELAY, 0);
    assert w.call(k).Ok?;
    assert Served(line, k);
  }

  /** An insert that reports success has stored the receipt under an id that was free. */
  lemma InsertSuccessStores(receipts: map<Id, Receipt>, line: Line, id: Id, lesson: Id)
    requires Reply(InsertWorld(line, id in receipts, lesson)).Ok?
    ensures id !in receipts
    ensures AfterInsert(receipts, line, id, lesson) == receipts[id := PaymentSaga.Receipt(lesson, false)]
  {
    var k := SuccessWasDelivered(line, InsertAnswers(line, id in receipts, lesson));
  }

  lemma MarkSuccessPays(paid: map<Id, bool>, line: Line, lesson: Id)
    requires Reply(MarkWorld(line, lesson in paid)).Ok?
    ensures lesson in paid && AfterMark(paid, line, lesson) == paid[lesson := true]
  {
    var k := SuccessWasDelivered(line, MarkAnswers(lesson in paid));
  }

  /** A verification touches no receipt but its own, and of that only the flag, which it never
      clears. An answered one has set the flag and returns the stored row; an unanswered one has
      set it exactly when some attempt reached the UPDATE. A missing receipt is never answered. */
  lemma {:induction false} VerifyEffect(receipts: map<Id, Receipt>, line: Line, id: Id)
    ensures var after := AfterVerify(receipts, line, id);
            var w := VerifyWorld(line, receipts, id);
            && after.Keys == receipts.Keys
            && (forall x | x in receipts :: after[x].lesson == receipts[x].lesson
                  && (after[x].isVerified <==> receipts[x].isVerified || (x == id && ServedWithin(line, Attempts(w)))))
            && (Reply(w).Ok? ==> id in after && after[id].isVerified && Reply(w) == Ok(after[id]))
            && (id !in receipts ==> Reply(w).Err? && after == receipts)
  {
    if Reply(VerifyWorld(line, receipts, id)).Ok? {
      var k := SuccessWasDelivered(line, VerifyAnswers(receipts, id));
    }
  }

  /** One submit stores at most its own receipt, marks at most its own lesson and only after
      storing; it succeeds only on an unpaid lesson, leaving a receipt and a paid lesson. */
  lemma SubmitEffect(b: Books, lesson: Id, id: Id, lines: Lines)
    ensures var (b', r) := Submitted(b, lesson, id, lines);
            && (b'.receipts == b.receipts
                || (id !in b.receipts && b'.receipts == b.receipts[id := PaymentSaga.Receipt(lesson, false)]))
            && (b'.paid == b.paid
                || (lesson in b.paid && b'.paid == b.paid[lesson := true] && b'.receipts != b.receipts))
            && (r.Ok? ==>
                  lesson in b.paid && !b.paid[lesson] && b'.receipts != b.receipts && b'.paid == b.paid[lesson := true])
            && (lesson in b.paid && b.paid[lesson] ==> b' == b && r.Err?)
            && (b'.receipts != b.receipts ==> lesson in b.paid && !b.paid[lesson])
  {
    var read := Reply(ReadWorld(lines.read, b.paid, lesson));
    if read.Ok? {
      ReadAnswer(lines.read, b.paid, lesson);
      var insert := Reply(InsertWorld(lines.insert, id in b.receipts, lesson));
      if !read.value && insert.Ok? {
        InsertSuccessStores(b.receipts, lines.insert, id, lesson);
        assert id in AfterInsert(b.receipts, lines.insert, id, lesson);
        if Reply(MarkWorld(lines.mark, lesson in b.paid)).Ok? {
          MarkSuccessPays(b.paid, lines.mark, lesson);
        }
      }
    }
  }

  lemma ReadAnswer(line: Line, paid: map<Id, bool>, lesson: Id)
    requires Reply(ReadWorld(line, paid, lesson)).Ok?
    ensures lesson in paid && Reply(ReadWorld(line, paid, lesson)).value == paid[lesson]
  {
    var w := ReadWorld(line, paid, lesson);
    var k := FirstStop(w, MAX_RETRIES, RETRY_DELAY, 0);
    assert w.call(k).Ok?;
  }

  // ---------------------------------------------------------------------- runs

  /** Sequential life of the two services. Editing a lesson writes back the is_paid it has just
      read, so it is no step of its own here. */
  datatype Step = AddLesson(lesson: Id) | Submit(lesson: Id, id: Id, lines: Lines) | Verify(id: Id, line: Line)

  const OPENING := Books(map[], map[])

  function Do(b: Books, s: Step): Books {
    match s
    case AddLesson(l) => if l in b.paid then b else b.(paid := b.paid[l := false])
    case Submit(l, id, lines) => Submitted(b, l, id, lines).0
    case Verify(id, line) => b.(receipts := AfterVerify(b.receipts, line, id))
  }

  function After(run: seq<Step>): Books {
    if run == [] then OPENING else Do(After(run[..|run| - 1]), run[|run| - 1])
  }

  predicate Wins(b: Books, s: Step, lesson: Id) {
    s.Submit? && s.lesson == lesson && Submitted(b, lesson, s.id, s.lines).1.Ok?
  }

  /** A submit that fails although its insert has taken effect. */
  predicate StoresYetFails(b: Books, s: Step, lesson: Id) {
    s.Submit? && s.lesson == lesson && Submitted(b, lesson, s.id, s.lines).1.Err?
    && Submitted(b, lesson, s.id, s.lines).0.receipts != b.receipts
  }

  function WinCount(run: seq<Step>, lesson: Id): nat {
    if run == [] then 0
    else WinCount(run[..|run| - 1], lesson) + if Wins(After(run[..|run| - 1]), run[|run| - 1], lesson) then 1 else 0
  }

  function StrayCount(run: seq<Step>, lesson: Id): nat {
    if run == [] then 0
    else
      StrayCount(run[..|run| - 1], lesson)
      + if StoresYetFails(After(run[..|run| - 1]), run[|run| - 1], lesson) then 1 else 0
  }

  ghost function ReceiptsOf(receipts: map<Id, Receipt>, lesson: Id): set<Id> {
    set r | r in receipts && receipts[r].lesson == lesson
  }

  lemma ReceiptAdded(receipts: map<Id, Receipt>, id: Id, row: Receipt, lesson: Id)
    requires id !in receipts
    ensures |ReceiptsOf(receipts[id := row], lesson)|
            == |ReceiptsOf(receipts, lesson)| + if row.lesson == lesson then 1 else 0
  {
    assert ReceiptsOf(receipts[id := row], lesson)
           == ReceiptsOf(receipts, lesson) + if row.lesson == lesson then {id} else {};
  }

  lemma SubmitCounts(b: Books, l: Id, id: Id, lines: Lines, lesson: Id)
    ensures var b' := Submitted(b, l, id, lines).0;
            |ReceiptsOf(b'.receipts, lesson)| == |ReceiptsOf(b.receipts, lesson)|
              + if l == lesson && b'.receipts != b.receipts then 1 else 0
  {
    SubmitEffect(b, l, id, lines);
    if id !in b.receipts { ReceiptAdded(b.receipts, id, PaymentSaga.Receipt(l, false), lesson); }
  }

  lemma StepCounts(b: Books, s: Step, lesson: Id)
    ensures |ReceiptsOf(Do(b, s).receipts, lesson)| == |ReceiptsOf(b.receipts, lesson)|
              + (if Wins(b, s, lesson) then 1 else 0) + (if StoresYetFails(b, s, lesson) then 1 else 0)
  {
    if s.Submit? {
      SubmitCounts(b, s.lesson, s.id, s.lines, lesson);
      SubmitEffect(b, s.lesson, s.id, s.lines);
    } else {
      assert ReceiptsOf(Do(b, s).receipts, lesson) == ReceiptsOf(b.receipts, lesson);
    }
  }

  ghost predicate StaysPaid(b: Books, b': Books) {
    forall l :: l in b.paid && b.paid[l] ==> l in b'.paid && b'.paid[l]
  }

  lemma StepStaysPaid(b: Books, s: Step)
    ensures StaysPaid(b, Do(b, s))
  {
    if s.Submit? { SubmitEffect(b, s.lesson, s.id, s.lines); }
  }

  /** Whatever is lost, a lesson's receipts are exactly its successful submits, of which there
      is at most one, plus the submits that failed after their insert took effect; and a lesson
      with a successful submit is paid for good. */
  lemma {:induction false} ReceiptsBalance(run: seq<Step>, lesson: Id)
    ensures |ReceiptsOf(After(run).receipts, lesson)| == WinCount(run, lesson) + StrayCount(run, lesson)
    ensures WinCount(run, lesson) <= 1
    ensures WinCount(run, lesson) == 1 ==> lesson in After(run).paid && After(run).paid[lesson]
  {
    if run == [] {
      assert ReceiptsOf(OPENING.receipts, lesson) == {};
    } else {
      var before, s := run[..|run| - 1], run[|run| - 1];
      ReceiptsBalance(before, lesson);
      StepCounts(After(before), s, lesson);
      StepStaysPaid(After(before), s);
      if s.Submit? { SubmitEffect(After(before), s.lesson, s.id, s.lines); }
    }
  }
}

/** What a submit and a verification come to, for every pattern of lost requests and replies, in
    terms of the deliveries alone. */
module PaymentOutcome {
  import opened Prelude
  import opened Retry
  import opened PaymentService
  import opened PaymentAccounts
  import PaymentSaga

  // --------------------------------------------------------------------- one line

  /** Attempt j is made, its answer is lost as Unavailable, and the wait after it is sat out. */
  ghost predicate TriedAgain(line: Line, j: nat) {
    && !line.doneBefore(j) && line.delivery(j).Lost? && Root(line.delivery(j).error).Unavailable?
    && !line.doneDuring(j)
  }

  /** Attempt k is the first whose answer arrives. */
  ghost predicate AnsweredAt(line: Line, k: nat) {
    && k < MAX_RETRIES && (forall j: nat :: j < k ==> TriedAgain(line, j))
    && !line.doneBefore(k) && line.delivery(k).Delivered?
  }

  ghost predicate GetsAnswer(line: Line) { exists k: nat :: AnsweredAt(line, k) }

  /** Attempt k ends the call with error e and no answer: cancelled, a lost reply that is not
      retried, or the last Unavailable. */
  ghost predicate BreaksAt(line: Line, k: nat, e: Failure) {
    && k < MAX_RETRIES && (forall j: nat :: j < k ==> TriedAgain(line, j))
    && (line.doneBefore(k) ==> e == ContextDone)
    && (!line.doneBefore(k) ==>
          && line.delivery(k).Lost?
          && var lost := line.delivery(k).error;
             if !Root(lost).Unavailable? then e == lost
             else if k + 1 == MAX_RETRIES then e == Exhausted(MAX_RETRIES, lost)
             else line.doneDuring(k) && e == ContextDone)
  }

  /** Attempts made when attempt k ends the call. */
  function Made(line: Line, k: nat): nat { if line.doneBefore(k) then k else k + 1 }

  /** Every line either gets an answer or breaks. */
  lemma {:induction false} AnswersOrBreaks(line: Line) returns (k: nat, e: Failure)
    ensures AnsweredAt(line, k) || BreaksAt(line, k, e)
  {
    k, e := 0, ContextDone;
    while k + 1 < MAX_RETRIES && !line.doneBefore(k) && line.delivery(k).Lost?
          && Root(line.delivery(k).error).Unavailable? && !line.doneDuring(k)
      invariant k < MAX_RETRIES
      invariant forall j: nat :: j < k ==> TriedAgain(line, j)
    {
      assert TriedAgain(line, k);
      k := k + 1;
    }
    if !line.doneBefore(k) && line.delivery(k).Lost? {
      if !Root(line.delivery(k).error).Unavailable? {
        e := line.delivery(k).error;
      } else if k + 1 == MAX_RETRIES {
        e := Exhausted(MAX_RETRIES, line.delivery(k).error);
      }
    }
  }

  lemma {:induction false} WentOnAsTried<T>(line: Line, answer: nat -> Result<T, Failure>, j: nat)
    requires TriedAgain(line, j)
    ensures WentOn(OverLine(line, answer), RETRY_DELAY, j)
  {
  }

  /** The first answer that arrives, unless it is Unavailable itself, is the call's. */
  lemma {:induction false} AnswerIsReply<T>(line: Line, answer: nat -> Result<T, Failure>, k: nat)
    requires AnsweredAt(line, k) && (answer(k).Ok? || !Root(answer(k).error).Unavailable?)
    ensures Reply(OverLine(line, answer)) == answer(k) && Attempts(OverLine(line, answer)) == k + 1
  {
    forall j: nat | j < k
      ensures WentOn(OverLine(line, answer), RETRY_DELAY, j)
    {
      WentOnAsTried(line, answer, j);
    }
    OutcomeEndsLoop(OverLine(line, answer), MAX_RETRIES, RETRY_DELAY, k);
  }

  lemma {:induction false} BreakIsReply<T>(line: Line, answer: nat -> Result<T, Failure>, k: nat, e: Failure)
    requires BreaksAt(line, k, e)
    ensures Reply(OverLine(line, answer)) == Err(e) && Attempts(OverLine(line, answer)) == Made(line, k)
  {
    var w := OverLine(line, answer);
    forall j: nat | j < k
      ensures WentOn(w, RETRY_DELAY, j)
    {
      WentOnAsTried(line, answer, j);
    }
    if line.doneBefore(k) {
      CancellationEndsLoop(w, MAX_RETRIES, RETRY_DELAY, k);
    } else if !Root(line.delivery(k).error).Unavailable? {
      OutcomeEndsLoop(w, MAX_RETRIES, RETRY_DELAY, k);
    } else if k + 1 == MAX_RETRIES {
      AttemptsRunOut(w, MAX_RETRIES, RETRY_DELAY);
    } else {
      CancellationEndsLoop(w, MAX_RETRIES, RETRY_DELAY, k);
    }
  }

  // -------------------------------------------------------------- the calls, one by one

  lemma {:induction false} ReadReply(line: Line, paid: map<Id, bool>, lesson: Id)
    ensures GetsAnswer(line) ==>
              Reply(ReadWorld(line, paid, lesson)) == if lesson in paid then Ok(paid[lesson]) else Err(NOT_FOUND)
  {
    if k: nat :| AnsweredAt(line, k) { AnswerIsReply(line, ReadAnswers(paid, lesson), k); }
  }

  /** Some attempt before the n-th reached the server. */
  ghost predicate ReachedBefore(line: Line, n: nat) {
    exists j: nat :: j < n && (line.delivery(j).Delivered? || line.delivery(j).served)
  }

  lemma {:induction false} ReachedIsServed(line: Line, n: nat)
    ensures ServedWithin(line, n) <==> ReachedBefore(line, n)
  {
    if ServedWithin(line, n) {
      var j: nat :| j < n && Served(line, j);
      assert ReachedBefore(line, n);
    }
    if ReachedBefore(line, n) {
      var j: nat :| j < n && (line.delivery(j).Delivered? || line.delivery(j).served);
      assert Served(line, j);
    }
  }

  /** An insert that gets an answer has stored the receipt under its id, unless the id was taken;
      but it reports success only if no earlier attempt had done so behind a lost reply. */
  lemma {:induction false} InsertReply(line: Line, receipts: map<Id, Receipt>, id: Id, lesson: Id, k: nat)
    requires AnsweredAt(line, k)
    ensures Reply(InsertWorld(line, id in receipts, lesson))
            == if id in receipts || ReachedBefore(line, k) then Err(ALREADY_EXISTS)
               else Ok(PaymentSaga.Receipt(lesson, false))
    ensures AfterInsert(receipts, line, id, lesson)
            == if id in receipts then receipts else receipts[id := PaymentSaga.Receipt(lesson, false)]
  {
    ReachedIsServed(line, k);
    AnswerIsReply(line, InsertAnswers(line, id in receipts, lesson), k);
    AnswerIsReply(line, InsertAnswers(line, false, lesson), k);
    assert Served(line, k);
    assert ServedWithin(line, k + 1);
  }

  lemma {:induction false} InsertBreaks(line: Line, receipts: map<Id, Receipt>, id: Id, lesson: Id, k: nat, e: Failure)
    requires BreaksAt(line, k, e)
    ensures Reply(InsertWorld(line, id in receipts, lesson)) == Err(e)
    ensures AfterInsert(receipts, line, id, lesson)
            == if id in receipts || !ReachedBefore(line, Made(line, k)) then receipts
               else receipts[id := PaymentSaga.Receipt(lesson, false)]
  {
    ReachedIsServed(line, Made(line, k));
    BreakIsReply(line, InsertAnswers(line, id in receipts, lesson), k, e);
    BreakIsReply(line, InsertAnswers(line, false, lesson), k, e);
  }

  lemma {:induction false} MarkReply(line: Line, paid: map<Id, bool>, lesson: Id, k: nat)
    requires AnsweredAt(line, k)
    ensures Reply(MarkWorld(line, lesson in paid)) == if lesson in paid then Ok(()) else Err(NOT_FOUND)
    ensures AfterMark(paid, line, lesson) == if lesson in paid then paid[lesson := true] else paid
  {
    AnswerIsReply(line, MarkAnswers(lesson in paid), k);
    AnswerIsReply(line, MarkAnswers(true), k);
    assert Served(line, k);
    assert ServedWithin(line, k + 1);
  }

  lemma {:induction false} MarkBreaks(line: Line, paid: map<Id, bool>, lesson: Id, k: nat, e: Failure)
    requires BreaksAt(line, k, e)
    ensures Reply(MarkWorld(line, lesson in paid)) == Err(e)
    ensures AfterMark(paid, line, lesson)
            == if lesson in paid && ReachedBefore(line, Made(line, k)) then paid[lesson := true] else paid
  {
    ReachedIsServed(line, Made(line, k));
    BreakIsReply(line, MarkAnswers(lesson in paid), k, e);
    BreakIsReply(line, MarkAnswers(true), k, e);
  }

  // ------------------------------------------------------------------------ submits

  /** The insert's first answer arrives and no attempt before it reached the server. */
  ghost predicate InsertsUnseen(line: Line) {
    exists k: nat :: AnsweredAt(line, k) && !ReachedBefore(line, k)
  }

  /** What stops a submit before anything is stored: the lesson is missing or paid, or its read
      breaks. */
  lemma {:induction false} RefusedSubmit(b: Books, lesson: Id, id: Id, lines: Lines)
    ensures GetsAnswer(lines.read) && lesson !in b.paid ==> Submitted(b, lesson, id, lines) == (b, Err(NOT_FOUND))
    ensures GetsAnswer(lines.read) && lesson in b.paid && b.paid[lesson] ==>
              Submitted(b, lesson, id, lines) == (b, Err(ALREADY_EXISTS))
    ensures forall k: nat, e :: BreaksAt(lines.read, k, e) ==> Submitted(b, lesson, id, lines) == (b, Err(e))
  {
    ReadReply(lines.read, b.paid, lesson);
    forall k: nat, e | BreaksAt(lines.read, k, e)
      ensures Submitted(b, lesson, id, lines) == (b, Err(e))
    {
      BreakIsReply(lines.read, ReadAnswers(b.paid, lesson), k, e);
    }
  }

  ghost predicate LetThrough(b: Books, lesson: Id, lines: Lines) {
    GetsAnswer(lines.read) && lesson in b.paid && !b.paid[lesson]
  }

  /** A submit that was let through and whose insert fails: the receipt is stored all the same
      if an attempt reached the server, the lesson stays unpaid. */
  lemma {:induction false} FailedInsert(b: Books, lesson: Id, id: Id, lines: Lines, k: nat)
    requires LetThrough(b, lesson, lines)
    ensures AnsweredAt(lines.insert, k) && (id in b.receipts || ReachedBefore(lines.insert, k)) ==>
              Submitted(b, lesson, id, lines)
              == (if id in b.receipts then b else b.(receipts := b.receipts[id := PaymentSaga.Receipt(lesson, false)]),
                  Err(ALREADY_EXISTS))
    ensures forall e :: BreaksAt(lines.insert, k, e) ==>
              Submitted(b, lesson, id, lines)
              == (if id in b.receipts || !ReachedBefore(lines.insert, Made(lines.insert, k)) then b
                  else b.(receipts := b.receipts[id := PaymentSaga.Receipt(lesson, false)]),
                  Err(e))
  {
    ReadReply(lines.read, b.paid, lesson);
    if AnsweredAt(lines.insert, k) { InsertReply(lines.insert, b.receipts, id, lesson, k); }
    forall e | BreaksAt(lines.insert, k, e)
      ensures Submitted(b, lesson, id, lines)
              == (if id in b.receipts || !ReachedBefore(lines.insert, Made(lines.insert, k)) then b
                  else b.(receipts := b.receipts[id := PaymentSaga.Receipt(lesson, false)]),
                  Err(e))
    {
      InsertBreaks(lines.insert, b.receipts, id, lesson, k, e);
    }
  }

  /** Past its insert a submit has stored its receipt, whatever becomes of the marking. */
  lemma {:induction false} PastInsert(b: Books, lesson: Id, id: Id, lines: Lines)
    requires LetThrough(b, lesson, lines) && id !in b.receipts && InsertsUnseen(lines.insert)
    ensures var stored := b.receipts[id := PaymentSaga.Receipt(lesson, false)];
            && (GetsAnswer(lines.mark) ==>
                  Submitted(b, lesson, id, lines)
                  == (Books(stored, b.paid[lesson := true]), Ok(PaymentSaga.Receipt(lesson, false))))
            && (forall k: nat, e :: BreaksAt(lines.mark, k, e) ==>
                  Submitted(b, lesson, id, lines)
                  == (Books(stored, if ReachedBefore(lines.mark, Made(lines.mark, k)) then b.paid[lesson := true]
                                    else b.paid), Err(e)))
  {
    ReadReply(lines.read, b.paid, lesson);
    var i: nat :| AnsweredAt(lines.insert, i) && !ReachedBefore(lines.insert, i);
    InsertReply(lines.insert, b.receipts, id, lesson, i);
    if k: nat :| AnsweredAt(lines.mark, k) { MarkReply(lines.mark, b.paid, lesson, k); }
    var stored := b.receipts[id := PaymentSaga.Receipt(lesson, false)];
    forall k: nat, e | BreaksAt(lines.mark, k, e)
      ensures Submitted(b, lesson, id, lines)
              == (Books(stored, if ReachedBefore(lines.mark, Made(lines.mark, k)) then b.paid[lesson := true]
                                else b.paid), Err(e))
    {
      MarkBreaks(lines.mark, b.paid, lesson, k, e);
    }
  }

  /** A submit succeeds if and only if its lesson is known and unpaid, its id is free, all three
      calls get an answer, and no attempt of the insert was served before the one answered. It
      then has stored its receipt, unverified, marked its lesson, changed nothing else, and
      returns the receipt. */
  lemma {:induction false} SubmitSucceedsIff(b: Books, lesson: Id, id: Id, lines: Lines)
    ensures var (b', r) := Submitted(b, lesson, id, lines);
            && (r.Ok? <==>
                  && lesson in b.paid && !b.paid[lesson] && id !in b.receipts
                  && GetsAnswer(lines.read) && InsertsUnseen(lines.insert) && GetsAnswer(lines.mark))
            && (r.Ok? ==>
                  && r.value == PaymentSaga.Receipt(lesson, false)
                  && b'.receipts == b.receipts[id := PaymentSaga.Receipt(lesson, false)]
                  && b'.paid == b.paid[lesson := true])
  {
    var k, e := AnswersOrBreaks(lines.read);
    RefusedSubmit(b, lesson, id, lines);
    if AnsweredAt(lines.read, k) && lesson in b.paid && !b.paid[lesson] {
      InsertDecides(b, lesson, id, lines);
    } else if BreaksAt(lines.read, k, e) {
      OneEnd(lines.read, k, e);
    }
  }

  lemma {:induction false} Passed(line: Line, i: nat, k: nat)
    requires i < k && forall j: nat :: j < k ==> TriedAgain(line, j)
    ensures TriedAgain(line, i)
  {
  }

  /** A line does not both get an answer and break. */
  lemma {:induction false} OneEnd(line: Line, k: nat, e: Failure)
    requires BreaksAt(line, k, e)
    ensures !GetsAnswer(line)
  {
    if i: nat :| AnsweredAt(line, i) {
      if i < k { Passed(line, i, k); }
      if k < i { Passed(line, k, i); }
    }
  }

  lemma {:induction false} OneAnswer(line: Line, i: nat, k: nat)
    requires AnsweredAt(line, i) && AnsweredAt(line, k)
    ensures i == k
  {
    if i < k { Passed(line, i, k); }
    if k < i { Passed(line, k, i); }
  }

  lemma {:induction false} InsertDecides(b: Books, lesson: Id, id: Id, lines: Lines)
    requires LetThrough(b, lesson, lines)
    ensures var (b', r) := Submitted(b, lesson, id, lines);
            && (r.Ok? <==> id !in b.receipts && InsertsUnseen(lines.insert) && GetsAnswer(lines.mark))
            && (r.Ok? ==>
                  && r.value == PaymentSaga.Receipt(lesson, false)
                  && b'.receipts == b.receipts[id := PaymentSaga.Receipt(lesson, false)]
                  && b'.paid == b.paid[lesson := true])
  {
    var k, e := AnswersOrBreaks(lines.insert);
    FailedInsert(b, lesson, id, lines, k);
    if BreaksAt(lines.insert, k, e) {
      OneEnd(lines.insert, k, e);
    } else if id in b.receipts || ReachedBefore(lines.insert, k) {
      if i: nat :| AnsweredAt(lines.insert, i) && !ReachedBefore(lines.insert, i) {
        OneAnswer(lines.insert, i, k);
      }
    } else {
      PastInsert(b, lesson, id, lines);
      var m, f := AnswersOrBreaks(lines.mark);
      if BreaksAt(lines.mark, m, f) { OneEnd(lines.mark, m, f); }
    }
  }

  // ------------------------------------------------------------------ verifications

  /** A verification succeeds if and only if the receipt exists and an answer arrives; the
      answer for a missing one is NOT_FOUND, and a line that breaks gives its own error. */
  lemma {:induction false} VerifySucceedsIff(receipts: map<Id, Receipt>, line: Line, id: Id)
    ensures Reply(VerifyWorld(line, receipts, id)).Ok? <==> id in receipts && GetsAnswer(line)
    ensures GetsAnswer(line) && id in receipts ==>
              var row := PaymentSaga.Receipt(receipts[id].lesson, true);
              && Reply(VerifyWorld(line, receipts, id)) == Ok(row)
              && AfterVerify(receipts, line, id) == receipts[id := row]
    ensures GetsAnswer(line) && id !in receipts ==>
              Reply(VerifyWorld(line, receipts, id)) == Err(NOT_FOUND) && AfterVerify(receipts, line, id) == receipts
    ensures forall k: nat, e :: BreaksAt(line, k, e) ==>
              && Reply(VerifyWorld(line, receipts, id)) == Err(e)
              && AfterVerify(receipts, line, id)
                 == if id in receipts && ReachedBefore(line, Made(line, k)) then
                      receipts[id := PaymentSaga.Receipt(receipts[id].lesson, true)]
                    else receipts
  {
    var k, e := AnswersOrBreaks(line);
    if AnsweredAt(line, k) {
      AnswerIsReply(line, VerifyAnswers(receipts, id), k);
      assert Served(line, k);
      assert ServedWithin(line, k + 1);
    } else {
      OneEnd(line, k, e);
    }
    forall i: nat, f | BreaksAt(line, i, f)
      ensures Reply(VerifyWorld(line, receipts, id)) == Err(f)
      ensures AfterVerify(receipts, line, id)
              == if id in receipts && ReachedBefore(line, Made(line, i)) then
                   receipts[id := PaymentSaga.Receipt(receipts[id].lesson, true)]
                 else receipts
    {
      BreakIsReply(line, VerifyAnswers(receipts, id), i, f);
      ReachedIsServed(line, Made(line, i));
    }
  }
}

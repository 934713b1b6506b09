/** SubmitPaymentReceipt and VerifyReceipt run one at a time, over calls that may each take
    effect or not and whose replies may be lost. */
module PaymentService {
  import opened Prelude
  import ScheduleModel
  import opened Retry
  import PaymentSaga

  type Id = ScheduleModel.Id
  type Receipt = PaymentSaga.Receipt

  const MAX_RETRIES := 6
  const RETRY_DELAY := 100_000_000
  const ALREADY_EXISTS := OtherError(1)
  const NOT_FOUND := OtherError(2)

  /** What happens to one attempt: the server's answer arrives, or an error arrives instead and
      the server may have executed the request all the same. */
  datatype Delivery = Delivered | Lost(served: bool, error: Failure)

  /** Everything one retried call meets. */
  datatype Line = Line(delivery: nat -> Delivery, doneBefore: nat -> bool, doneDuring: nat -> bool,
                       jitter: nat -> int, overflowWord: int)

  predicate Served(line: Line, i: nat) { line.delivery(i).Delivered? || line.delivery(i).served }

  predicate ServedWithin(line: Line, n: nat) {
    exists j: nat :: j < n && Served(line, j)
  }

  function OverLine<T>(line: Line, answer: nat -> Result<T, Failure>): World<T> {
    World((i: nat) => if line.delivery(i).Delivered? then answer(i) else Err(line.delivery(i).error),
          line.doneBefore, line.doneDuring, line.jitter, line.overflowWord)
  }

  // What each server answers to the i-th attempt.

  /** GetLesson: the is_paid of the lesson. */
  function ReadAnswers(paid: map<Id, bool>, lesson: Id): nat -> Result<bool, Failure> {
    (i: nat) => if lesson in paid then Ok(paid[lesson]) else Err(NOT_FOUND)
  }

  /** CreateReceipt: the INSERT hits the primary key if an earlier attempt went through, and
      returns the stored row otherwise. */
  function InsertAnswers(line: Line, exists0: bool, lesson: Id): nat -> Result<Receipt, Failure> {
    (i: nat) => if exists0 || ServedWithin(line, i) then Err(ALREADY_EXISTS) else Ok(PaymentSaga.Receipt(lesson, false))
  }

  function MarkAnswers(lessonExists: bool): nat -> Result<(), Failure> {
    (i: nat) => if lessonExists then Ok(()) else Err(NOT_FOUND)
  }

  /** UpdateReceipt: an UPDATE, then the row read back. */
  function VerifyAnswers(receipts: map<Id, Receipt>, id: Id): nat -> Result<Receipt, Failure> {
    (i: nat) => if id in receipts then Ok(receipts[id].(isVerified := true)) else Err(NOT_FOUND)
  }

  function ReadWorld(line: Line, paid: map<Id, bool>, lesson: Id): World<bool> {
    OverLine(line, ReadAnswers(paid, lesson))
  }

  function InsertWorld(line: Line, exists0: bool, lesson: Id): World<Receipt> {
    OverLine(line, InsertAnswers(line, exists0, lesson))
  }

  function MarkWorld(line: Line, lessonExists: bool): World<()> { OverLine(line, MarkAnswers(lessonExists)) }

  function VerifyWorld(line: Line, receipts: map<Id, Receipt>, id: Id): World<Receipt> {
    OverLine(line, VerifyAnswers(receipts, id))
  }

  function Attempts<T>(w: World<T>): nat { Calls(w, MAX_RETRIES, RETRY_DELAY) }

  function Reply<T>(w: World<T>): Result<T, Failure> { Answer(w, MAX_RETRIES, RETRY_DELAY) }

  function AfterInsert(receipts: map<Id, Receipt>, line: Line, id: Id, lesson: Id): map<Id, Receipt> {
    if id !in receipts && ServedWithin(line, Attempts(InsertWorld(line, false, lesson))) then
      receipts[id := PaymentSaga.Receipt(lesson, false)]
    else receipts
  }

  function AfterMark(paid: map<Id, bool>, line: Line, lesson: Id): map<Id, bool> {
    if lesson in paid && ServedWithin(line, Attempts(MarkWorld(line, true))) then paid[lesson := true] else paid
  }

  function AfterVerify(receipts: map<Id, Receipt>, line: Line, id: Id): map<Id, Receipt> {
    if id in receipts && ServedWithin(line, Attempts(VerifyWorld(line, receipts, id))) then
      receipts[id := receipts[id].(isVerified := true)]
    else receipts
  }

  datatype Books = Books(receipts: map<Id, Receipt>, paid: map<Id, bool>)

  /** The three lines of one submit. */
  datatype Lines = Lines(read: Line, insert: Line, mark: Line)

  /** The state after a submit, and its answer. */
  function Submitted(b: Books, lesson: Id, id: Id, lines: Lines): (Books, Result<Receipt, Failure>) {
    var read := Reply(ReadWorld(lines.read, b.paid, lesson));
    if read.Err? then (b, Err(read.error))
    else if read.value then (b, Err(ALREADY_EXISTS))
    else
      var inserted := b.(receipts := AfterInsert(b.receipts, lines.insert, id, lesson));
      var insert := Reply(InsertWorld(lines.insert, id in b.receipts, lesson));
      if insert.Err? then (inserted, Err(insert.error))
      else
        var marked := inserted.(paid := AfterMark(b.paid, lines.mark, lesson));
        var mark := Reply(MarkWorld(lines.mark, lesson in b.paid));
        (marked, if mark.Err? then Err(mark.error) else insert)
  }

  class Service {
    var receipts: map<Id, Receipt>
    var paid: map<Id, bool>   // is_paid of the lessons kept by schedule_service

    constructor ()
      ensures State() == Books(map[], map[])
    {
      receipts, paid := map[], map[];
    }

    function State(): Books
      reads this
    {
      Books(receipts, paid)
    }

    /** CreateReceipt inside its retry loop, the row inserted by whichever attempt is served. */
    method CreateReceipt(line: Line, id: Id, lesson: Id) returns (r: Result<Receipt, Failure>)
      modifies this`receipts
      ensures r == Reply(InsertWorld(line, id in old(receipts), lesson))
      ensures receipts == AfterInsert(old(receipts), line, id, lesson)
    {
      ghost var before := receipts;
      ghost var w := InsertWorld(line, id in before, lesson);
      ghost var stop := FirstStop(w, MAX_RETRIES, RETRY_DELAY, 0);
      var lastErr := ContextDone;
      var i := 0;
      while i < MAX_RETRIES
        invariant 0 <= i <= MAX_RETRIES
        invariant i <= stop || (i == stop + 1 == MAX_RETRIES)
        invariant i == stop + 1 ==> Retries(w, stop) && !w.doneBefore(stop) && lastErr == w.call(stop).error
        invariant receipts == if id !in before && ServedWithin(line, i)
                              then before[id := PaymentSaga.Receipt(lesson, false)] else before
      {
        assert Stops(w, MAX_RETRIES, RETRY_DELAY, i) ==> i == stop;
        if line.doneBefore(i) { return Err(ContextDone); }
        var taken := id in receipts;
        assert taken == (id in before || ServedWithin(line, i));
        if Served(line, i) && !taken {
          receipts := receipts[id := PaymentSaga.Receipt(lesson, false)];
        }
        ServedStep(line, i);
        var outcome := if line.delivery(i).Lost? then Err(line.delivery(i).error)
                       else if taken then Err(ALREADY_EXISTS) else Ok(PaymentSaga.Receipt(lesson, false));
        assert outcome == w.call(i);
        if outcome.Ok? { return outcome; }
        lastErr := outcome.error;
        if !IsRetriable(lastErr) { return outcome; }
        if i < MAX_RETRIES - 1 {
          if line.doneDuring(i) { return Err(ContextDone); }
        }
        i := i + 1;
      }
      return Err(Exhausted(MAX_RETRIES, lastErr));
    }

    /** MarkAsPaid inside its retry loop. */
    method MarkAsPaid(line: Line, lesson: Id) returns (r: Result<(), Failure>)
      modifies this`paid
      ensures r == Reply(MarkWorld(line, lesson in old(paid)))
      ensures paid == AfterMark(old(paid), line, lesson)
    {
      ghost var before := paid;
      ghost var w := MarkWorld(line, lesson in before);
      ghost var stop := FirstStop(w, MAX_RETRIES, RETRY_DELAY, 0);
      var lastErr := ContextDone;
      var i := 0;
      while i < MAX_RETRIES
        invariant 0 <= i <= MAX_RETRIES
        invariant i <= stop || (i == stop + 1 == MAX_RETRIES)
        invariant i == stop + 1 ==> Retries(w, stop) && !w.doneBefore(stop) && lastErr == w.call(stop).error
        invariant paid == if lesson in before && ServedWithin(line, i) then before[lesson := true] else before
      {
        assert Stops(w, MAX_RETRIES, RETRY_DELAY, i) ==> i == stop;
        if line.doneBefore(i) { return Err(ContextDone); }
        var known := lesson in paid;
        if Served(line, i) && known {
          paid := paid[lesson := true];
        }
        ServedStep(line, i);
        var outcome := if line.delivery(i).Lost? then Err(line.delivery(i).error)
                       else if known then Ok(()) else Err(NOT_FOUND);
        assert outcome == w.call(i);
        if outcome.Ok? { return outcome; }
        lastErr := outcome.error;
        if !IsRetriable(lastErr) { return outcome; }
        if i < MAX_RETRIES - 1 {
          if line.doneDuring(i) { return Err(ContextDone); }
        }
        i := i + 1;
      }
      return Err(Exhausted(MAX_RETRIES, lastErr));
    }

    /** Read the lesson, refuse a paid one, insert the receipt, mark the lesson, return the receipt. */
    method SubmitPaymentReceipt(lesson: Id, id: Id, lines: Lines) returns (r: Result<Receipt, Failure>)
      modifies this
      ensures (State(), r) == Submitted(old(State()), lesson, id, lines)
    {
      var read, _, _ := RetryWithBackoff(ReadWorld(lines.read, paid, lesson), MAX_RETRIES, RETRY_DELAY);
      if read.Err? { return Err(read.error); }
      if read.value { return Err(ALREADY_EXISTS); }
      var insert := CreateReceipt(lines.insert, id, lesson);
      if insert.Err? { return Err(insert.error); }
      var mark := MarkAsPaid(lines.mark, lesson);
      if mark.Err? { return Err(mark.error); }
      return insert;
    }

    /** UpdateReceipt inside its retry loop. An attempt may lose its answer before the UPDATE,
        or after it, in the SELECT that follows or on the way back. */
    method VerifyReceipt(line: Line, id: Id) returns (r: Result<Receipt, Failure>)
      modifies this`receipts
      ensures r == Reply(VerifyWorld(line, old(receipts), id))
      ensures receipts == AfterVerify(old(receipts), line, id)
    {
      ghost var before := receipts;
      ghost var w := VerifyWorld(line, before, id);
      ghost var stop := FirstStop(w, MAX_RETRIES, RETRY_DELAY, 0);
      var lastErr := ContextDone;
      var i := 0;
      while i < MAX_RETRIES
        invariant 0 <= i <= MAX_RETRIES
        invariant i <= stop || (i == stop + 1 == MAX_RETRIES)
        invariant i == stop + 1 ==> Retries(w, stop) && !w.doneBefore(stop) && lastErr == w.call(stop).error
        invariant receipts == if id in before && ServedWithin(line, i)
                              then before[id := before[id].(isVerified := true)] else before
      {
        assert Stops(w, MAX_RETRIES, RETRY_DELAY, i) ==> i == stop;
        if line.doneBefore(i) { return Err(ContextDone); }
        if Served(line, i) && id in receipts {
          receipts := receipts[id := receipts[id].(isVerified := true)];
        }
        ServedStep(line, i);
        var outcome := if line.delivery(i).Lost? then Err(line.delivery(i).error)
                       else if id in receipts then Ok(receipts[id]) else Err(NOT_FOUND);
        assert outcome == w.call(i);
        if outcome.Ok? { return outcome; }
        lastErr := outcome.error;
        if !IsRetriable(lastErr) { return outcome; }
        if i < MAX_RETRIES - 1 {
          if line.doneDuring(i) { return Err(ContextDone); }
        }
        i := i + 1;
      }
      return Err(Exhausted(MAX_RETRIES, lastErr));
    }
  }

  lemma ServedStep(line: Line, i: nat)
    ensures ServedWithin(line, i + 1) == (ServedWithin(line, i) || Served(line, i))
  {
    if ServedWithin(line, i + 1) {
      var j: nat :| j < i + 1 && Served(line, j);
      if j < i { assert ServedWithin(line, i); }
    }
    if Served(line, i) { assert ServedWithin(line, i + 1); }
    if ServedWithin(line, i) {
      var j: nat :| j < i && Served(line, j);
      assert ServedWithin(line, i + 1);
    }
  }
}

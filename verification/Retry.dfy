/** RetryWithBackoff against a scripted world, and what the loop promises. */
module Retry {
  import opened Prelude
  import opened Backoff

  datatype Failure =
    | Unavailable(detail: nat)                       // a gRPC status with that code
    | OtherError(detail: nat)                        // any other error
    | CircuitOpen                                    // ErrCircuitOpen
    | ContextDone                                    // ctx.Err()
    | BadMaxRetries(maxRetries: int)
    | Exhausted(attempts: int, last: Failure)        // "after %d attempts: %w"
    | JitterPanic                                    // rand.Int63n of a non-positive base delay

  /** status.FromError looks through wrapped errors, so a wrapped Unavailable stays retriable. */
  predicate IsRetriable(e: Failure) {
    match e
    case Unavailable(_) => true
    case Exhausted(_, last) => IsRetriable(last)
    case _ => false
  }

  /** What an error is once the "after %d attempts" wrappings are taken off. */
  function Root(e: Failure): (r: Failure)
    ensures !r.Exhausted?
    ensures if e.Exhausted? then r == Root(e.last) else r == e
  {
    if e.Exhausted? then Root(e.last) else e
  }

  /** Only Unavailable, however often wrapped, is worth another attempt. */
  lemma {:induction false} RetriableIff(e: Failure)
    ensures IsRetriable(e) <==> Root(e).Unavailable?
  {
    if e.Exhausted? { RetriableIff(e.last); }
  }

  /** The world as one run of the loop meets it: the answer of the i-th call, whether the
      context is seen done before it or during the wait after it, and the jitter drawn. */
  datatype World<!T> = World(call: nat -> Result<T, Failure>, doneBefore: nat -> bool, doneDuring: nat -> bool,
                             jitter: nat -> int, overflowWord: int)

  predicate Retries<T>(w: World<T>, i: nat) {
    w.call(i).Err? && IsRetriable(w.call(i).error)
  }

  /** Attempt i is the last one the loop starts. */
  predicate Stops<T>(w: World<T>, maxRetries: int, base: int, i: nat) {
    || w.doneBefore(i) || !Retries(w, i)
    || i + 1 >= maxRetries
    || base <= 0 || w.doneDuring(i)
  }

  function FirstStop<T>(w: World<T>, maxRetries: int, base: int, i: nat): (k: nat)
    requires i < maxRetries
    ensures i <= k < maxRetries && Stops(w, maxRetries, base, k)
    ensures forall j :: i <= j < k ==> !Stops(w, maxRetries, base, j)
    decreases maxRetries - i
  {
    if Stops(w, maxRetries, base, i) then i else FirstStop(w, maxRetries, base, i + 1)
  }

  /** The answer when attempt k is the last. */
  function AnswerAt<T>(w: World<T>, maxRetries: int, base: int, k: nat): Result<T, Failure> {
    if w.doneBefore(k) then Err(ContextDone)
    else if !Retries(w, k) then w.call(k)
    else if k + 1 >= maxRetries then Err(Exhausted(maxRetries, w.call(k).error))
    else if base <= 0 then Err(JitterPanic)
    else Err(ContextDone)
  }

  function Answer<T>(w: World<T>, maxRetries: int, base: int): Result<T, Failure> {
    if maxRetries <= 0 then Err(BadMaxRetries(maxRetries))
    else AnswerAt(w, maxRetries, base, FirstStop(w, maxRetries, base, 0))
  }

  /** How many calls are made: none after a cancellation has been observed. */
  function Calls<T>(w: World<T>, maxRetries: int, base: int): nat {
    if maxRetries <= 0 then 0
    else
      var k := FirstStop(w, maxRetries, base, 0);
      if w.doneBefore(k) then k else k + 1
  }

  /** The waits that were completed. */
  function Waits<T>(w: World<T>, maxRetries: int, base: int): seq<int> {
    if maxRetries <= 0 then []
    else seq(FirstStop(w, maxRetries, base, 0), (i: nat) => Delay(i, base, w.jitter(i), w.overflowWord))
  }

  method RetryWithBackoff<T>(w: World<T>, maxRetries: int, base: int)
    returns (r: Result<T, Failure>, calls: nat, waits: seq<int>)
    ensures r == Answer(w, maxRetries, base)
    ensures calls == Calls(w, maxRetries, base)
    ensures waits == Waits(w, maxRetries, base)
  {
    calls, waits := 0, [];
    if maxRetries <= 0 { return Err(BadMaxRetries(maxRetries)), calls, waits; }
    ghost var stop := FirstStop(w, maxRetries, base, 0);
    var lastErr := ContextDone;
    var i := 0;
    while i < maxRetries
      invariant 0 <= i <= maxRetries && calls == i
      invariant i <= stop || (i == stop + 1 == maxRetries)
      invariant i == stop + 1 ==> Retries(w, stop) && !w.doneBefore(stop) && lastErr == w.call(stop).error
      invariant |waits| == if i <= stop then i else stop
      invariant forall j :: 0 <= j < |waits| ==> waits[j] == Delay(j, base, w.jitter(j), w.overflowWord)
    {
      assert Stops(w, maxRetries, base, i) ==> i == stop;
      if w.doneBefore(i) { return Err(ContextDone), calls, waits; }
      var outcome := w.call(i);
      calls := calls + 1;
      if outcome.Ok? { return outcome, calls, waits; }
      lastErr := outcome.error;
      if !IsRetriable(lastErr) { return outcome, calls, waits; }
      if i < maxRetries - 1 {
        if base <= 0 { return Err(JitterPanic), calls, waits; }
        if w.doneDuring(i) { return Err(ContextDone), calls, waits; }
        waits := waits + [Delay(i, base, w.jitter(i), w.overflowWord)];
      }
      i := i + 1;
    }
    return Err(Exhausted(maxRetries, lastErr)), calls, waits;
  }

  ghost predicate NeverDone<T>(w: World<T>) {
    forall i: nat :: !w.doneBefore(i) && !w.doneDuring(i)
  }

  /** Attempt i fails with Unavailable, wrapped or not. */
  ghost predicate Unreached<T>(w: World<T>, i: nat) {
    w.call(i).Err? && Root(w.call(i).error).Unavailable?
  }

  lemma {:induction false} RetriesIff<T>(w: World<T>, i: nat)
    ensures Retries(w, i) <==> Unreached(w, i)
  {
    if w.call(i).Err? { RetriableIff(w.call(i).error); }
  }

  /** Left alone, the loop returns the first answer that is not Unavailable if one comes within
      maxRetries calls, and otherwise the last error, wrapped, after exactly maxRetries calls. */
  lemma {:induction false} UncancelledAnswer<T>(w: World<T>, maxRetries: int, base: int)
    requires maxRetries > 0 && base > 0 && NeverDone(w)
    ensures forall k: nat :: k < maxRetries && !Unreached(w, k) && (forall j: nat :: j < k ==> Unreached(w, j)) ==>
              Answer(w, maxRetries, base) == w.call(k) && Calls(w, maxRetries, base) == k + 1
    ensures Unreached(w, maxRetries - 1) && (forall k: nat :: k < maxRetries - 1 ==> Unreached(w, k)) ==>
              Answer(w, maxRetries, base) == Err(Exhausted(maxRetries, w.call(maxRetries - 1).error))
              && Calls(w, maxRetries, base) == maxRetries
  {
    forall k: nat | k < maxRetries && !Unreached(w, k) && (forall j: nat :: j < k ==> Unreached(w, j))
      ensures Answer(w, maxRetries, base) == w.call(k) && Calls(w, maxRetries, base) == k + 1
    {
      OutcomeEndsLoop(w, maxRetries, base, k);
    }
    if Unreached(w, maxRetries - 1) && forall k: nat :: k < maxRetries - 1 ==> Unreached(w, k) {
      AttemptsRunOut(w, maxRetries, base);
    }
  }

  /** Once the context is seen done, before attempt k or in the wait before it, attempt k and
      all later ones are never made. */
  lemma NoCallAfterDone<T>(w: World<T>, maxRetries: int, base: int, k: nat)
    requires w.doneBefore(k) || (k > 0 && w.doneDuring(k - 1))
    ensures Calls(w, maxRetries, base) <= k
  {
    if maxRetries > 0 && k < maxRetries {
      var stop := FirstStop(w, maxRetries, base, 0);
      if w.doneBefore(k) { assert Stops(w, maxRetries, base, k); }
      if k > 0 && w.doneDuring(k - 1) { assert Stops(w, maxRetries, base, k - 1); }
    }
  }

  /** An Unavailable answer means every one of the maxRetries calls failed so. */
  lemma {:induction false} GivesUpOnlyAtTheEnd<T>(w: World<T>, maxRetries: int, base: int)
    requires Answer(w, maxRetries, base).Err? && Root(Answer(w, maxRetries, base).error).Unavailable?
    ensures Calls(w, maxRetries, base) == maxRetries
    ensures maxRetries > 0 && Unreached(w, maxRetries - 1) && forall k: nat :: k < maxRetries ==> Unreached(w, k)
    ensures Answer(w, maxRetries, base) == Err(Exhausted(maxRetries, w.call(maxRetries - 1).error))
  {
    RetriableIff(Answer(w, maxRetries, base).error);
    var stop := FirstStop(w, maxRetries, base, 0);
    forall k: nat | k < maxRetries
      ensures Unreached(w, k)
    {
      RetriesIff(w, k);
      if k < stop { assert !Stops(w, maxRetries, base, k); }
    }
  }

  // ---------------------------------------------------------------- what ends the loop

  /** Attempt j was made, ended in Unavailable and was waited out. */
  ghost predicate WentOn<T>(w: World<T>, base: int, j: nat) {
    !w.doneBefore(j) && Unreached(w, j) && base > 0 && !w.doneDuring(j)
  }

  lemma {:induction false} StopsIff<T>(w: World<T>, maxRetries: int, base: int, j: nat)
    ensures Stops(w, maxRetries, base, j) <==> !WentOn(w, base, j) || j + 1 >= maxRetries
  {
    RetriesIff(w, j);
  }

  lemma {:induction false} StopsAt<T>(w: World<T>, maxRetries: int, base: int, k: nat)
    requires k < maxRetries && (forall j: nat :: j < k ==> WentOn(w, base, j))
    requires !WentOn(w, base, k) || k + 1 == maxRetries
    ensures FirstStop(w, maxRetries, base, 0) == k
  {
    StopsIff(w, maxRetries, base, k);
    forall j: nat | j < k
      ensures !Stops(w, maxRetries, base, j)
    {
      StopsIff(w, maxRetries, base, j);
    }
  }

  /** A call that succeeds, or fails with anything but Unavailable, ends the loop with its own
      outcome. */
  lemma {:induction false} OutcomeEndsLoop<T>(w: World<T>, maxRetries: int, base: int, k: nat)
    requires k < maxRetries && (forall j: nat :: j < k ==> WentOn(w, base, j)) && !w.doneBefore(k)
    requires !Unreached(w, k)
    ensures Answer(w, maxRetries, base) == w.call(k) && Calls(w, maxRetries, base) == k + 1
    ensures |Waits(w, maxRetries, base)| == k
  {
    StopsAt(w, maxRetries, base, k);
    RetriesIff(w, k);
  }

  /** If every call fails with Unavailable the last error comes back, wrapped, after maxRetries
      calls with a wait between any two. */
  lemma {:induction false} AttemptsRunOut<T>(w: World<T>, maxRetries: int, base: int)
    requires maxRetries > 0 && (forall j: nat :: j < maxRetries - 1 ==> WentOn(w, base, j))
    requires !w.doneBefore(maxRetries - 1) && Unreached(w, maxRetries - 1)
    ensures Answer(w, maxRetries, base) == Err(Exhausted(maxRetries, w.call(maxRetries - 1).error))
    ensures Calls(w, maxRetries, base) == maxRetries && |Waits(w, maxRetries, base)| == maxRetries - 1
  {
    StopsAt(w, maxRetries, base, maxRetries - 1);
    RetriesIff(w, maxRetries - 1);
  }

  /** A context seen done before attempt k, or in the wait after it, ends the loop with the
      context's error; in the second case attempt k has been made. */
  lemma {:induction false} CancellationEndsLoop<T>(w: World<T>, maxRetries: int, base: int, k: nat)
    requires k < maxRetries && (forall j: nat :: j < k ==> WentOn(w, base, j))
    ensures w.doneBefore(k) ==>
              Answer(w, maxRetries, base) == Err(ContextDone) && Calls(w, maxRetries, base) == k
    ensures !w.doneBefore(k) && Unreached(w, k) && base > 0 && k + 1 < maxRetries && w.doneDuring(k) ==>
              Answer(w, maxRetries, base) == Err(ContextDone) && Calls(w, maxRetries, base) == k + 1
    ensures w.doneBefore(k) || w.doneDuring(k) ==> |Waits(w, maxRetries, base)| == k
  {
    if w.doneBefore(k) || w.doneDuring(k) { StopsAt(w, maxRetries, base, k); }
    RetriesIff(w, k);
  }

  /** A bad number of attempts is refused before the first call; a base delay that is not
      positive breaks the first wait. */
  lemma {:induction false} BadParameters<T>(w: World<T>, maxRetries: int, base: int)
    ensures maxRetries <= 0 ==>
              && Answer(w, maxRetries, base) == Err(BadMaxRetries(maxRetries))
              && Calls(w, maxRetries, base) == 0 && Waits(w, maxRetries, base) == []
    ensures maxRetries > 1 && base <= 0 && !w.doneBefore(0) && Unreached(w, 0) ==>
              && Answer(w, maxRetries, base) == Err(JitterPanic)
              && Calls(w, maxRetries, base) == 1 && Waits(w, maxRetries, base) == []
  {
    if maxRetries > 1 && base <= 0 { StopsAt(w, maxRetries, base, 0); }
    RetriesIff(w, 0);
  }

  // ------------------------------------------------------------- the waits returned

  ghost predicate JitterDrawn<T>(w: World<T>, base: int) {
    forall i: nat :: 0 <= w.jitter(i) < base
  }

  lemma {:induction false} MeantIncreases(base: int, jitter: nat -> int, i: nat, j: nat)
    requires forall k: nat :: 0 <= jitter(k) < base
    requires i < j
    ensures Meant(i, base, jitter(i)) < Meant(j, base, jitter(j))
    decreases j
  {
    DelaysIncrease(j - 1, base, jitter(j - 1), jitter(j));
    if i < j - 1 { MeantIncreases(base, jitter, i, j - 1); }
  }

  lemma {:induction false} WaitsAreMeant<T>(w: World<T>, maxRetries: int, base: int)
    requires maxRetries >= 2 && base > 0 && (Pow2(maxRetries - 2) + 1) * base <= INT64_LIMIT && JitterDrawn(w, base)
    ensures var waits := Waits(w, maxRetries, base);
            |waits| < maxRetries && forall i :: 0 <= i < |waits| ==> waits[i] == Meant(i, base, w.jitter(i))
  {
    forall i: nat | i < |Waits(w, maxRetries, base)|
      ensures Waits(w, maxRetries, base)[i] == Meant(i, base, w.jitter(i))
    {
      DelayIsMeant(maxRetries, base, i, w.jitter(i), w.overflowWord);
    }
  }

  /** The i-th wait, computed in int64, is 2^i * base plus the jitter drawn for it. */
  lemma {:induction false} WaitIs<T>(w: World<T>, maxRetries: int, base: int, i: nat)
    requires maxRetries >= 2 && base > 0 && (Pow2(maxRetries - 2) + 1) * base <= INT64_LIMIT && JitterDrawn(w, base)
    requires i < |Waits(w, maxRetries, base)|
    ensures Waits(w, maxRetries, base)[i] == Pow2(i) * base + w.jitter(i)
  {
    WaitsAreMeant(w, maxRetries, base);
  }

  function Sum(waits: seq<int>): int {
    if waits == [] then 0 else Sum(waits[..|waits| - 1]) + waits[|waits| - 1]
  }

  lemma {:induction false} SumIsTotal(waits: seq<int>, base: int, jitters: seq<int>)
    requires |waits| == |jitters| && forall i :: 0 <= i < |waits| ==> waits[i] == Meant(i, base, jitters[i])
    ensures Sum(waits) == Total(base, jitters)
  {
    if waits != [] {
      var n := |waits| - 1;
      SumIsTotal(waits[..n], base, jitters[..n]);
    }
  }

  /** The waits the loop makes, computed in int64, strictly increase, and n of them add up to
      between (2^n - 1) * base and n * (base - 1) more, as long as
      (2^(maxRetries-2) + 1) * base <= 2^63. */
  lemma {:induction false} WaitsIncreaseWithinBounds<T>(w: World<T>, maxRetries: int, base: int)
    requires maxRetries >= 2 && base > 0 && (Pow2(maxRetries - 2) + 1) * base <= INT64_LIMIT && JitterDrawn(w, base)
    ensures var waits := Waits(w, maxRetries, base);
            && (forall i, j :: 0 <= i < j < |waits| ==> waits[i] < waits[j])
            && (Pow2(|waits|) - 1) * base <= Sum(waits) <= (Pow2(|waits|) - 1) * base + |waits| * (base - 1)
  {
    var waits := Waits(w, maxRetries, base);
    var jitters := seq(|waits|, (i: nat) => w.jitter(i));
    WaitsAreMeant(w, maxRetries, base);
    forall i, j | 0 <= i < j < |waits|
      ensures waits[i] < waits[j]
    {
      MeantIncreases(base, w.jitter, i, j);
    }
    SumIsTotal(waits, base, jitters);
    TotalBounds(base, jitters);
  }
}

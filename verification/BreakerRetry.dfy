/** RetryWithCircuitBreaker: the retry loop with every call passed through a breaker. */
module BreakerRetry {
  import opened Prelude
  import opened Backoff
  import opened Retry
  import opened CircuitBreaker

  /** When attempt i asks the breaker, and when its call returns. */
  datatype Clock = Clock(start: nat -> int, end: nat -> int)

  function ErrorOf<T>(r: Result<T, Failure>): Option<Failure> {
    if r.Ok? then None else Some(r.error)
  }

  /** Execute as attempt i sees it. */
  function Executed<T>(b: Breaker, w: World<T>, c: Clock, i: nat): Breaker {
    if Admits(b, c.start(i)) then Settle(Admit(b, c.start(i)), c.end(i), ErrorOf(w.call(i))) else b
  }

  /** The breaker before attempt i when nobody else uses it. */
  function BreakerAt<T>(b: Breaker, w: World<T>, c: Clock, i: nat): Breaker {
    if i == 0 then b else Executed(BreakerAt(b, w, c, i - 1), w, c, i - 1)
  }

  predicate Admitted<T>(b: Breaker, w: World<T>, c: Clock, i: nat) {
    Admits(BreakerAt(b, w, c, i), c.start(i))
  }

  /** wrappedFn: the call's own answer, or ErrCircuitOpen without a call. */
  function Guarded<T>(b: Breaker, w: World<T>, c: Clock): World<T> {
    w.(call := (i: nat) => if Admitted(b, w, c, i) then w.call(i) else Err(CircuitOpen))
  }

  lemma {:induction false} RefusalIsTheAnswer<T>(b: Breaker, w: World<T>, c: Clock, i: nat)
    requires !Admitted(b, w, c, i)
    ensures Guarded(b, w, c).call(i) == Err(CircuitOpen)
  {
  }

  function PassedCalls<T>(b: Breaker, w: World<T>, c: Clock, maxRetries: int, base: int): nat {
    if maxRetries <= 0 then 0
    else
      var k := FirstStop(Guarded(b, w, c), maxRetries, base, 0);
      if w.doneBefore(k) || !Admitted(b, w, c, k) then k else k + 1
  }

  /** RetryWithBackoff's loop with the wrapped call written out. */
  method RetryWithCircuitBreaker<T>(cb: Circuit, w: World<T>, c: Clock, maxRetries: int, base: int)
    returns (r: Result<T, Failure>, passed: nat)
    modifies cb
    ensures r == Answer(Guarded(old(cb.Value()), w, c), maxRetries, base)
    ensures passed == PassedCalls(old(cb.Value()), w, c, maxRetries, base)
    ensures cb.Value() == BreakerAt(old(cb.Value()), w, c, passed)
  {
    passed := 0;
    if maxRetries <= 0 { return Err(BadMaxRetries(maxRetries)), passed; }
    ghost var b := cb.Value();
    ghost var g := Guarded(b, w, c);
    ghost var stop := FirstStop(g, maxRetries, base, 0);
    var lastErr := ContextDone;
    var i := 0;
    while i < maxRetries
      invariant 0 <= i <= maxRetries && passed == i
      invariant i <= stop || (i == stop + 1 == maxRetries)
      invariant i == stop + 1 ==>
        Retries(g, stop) && !w.doneBefore(stop) && lastErr == g.call(stop).error && Admitted(b, w, c, stop)
      invariant cb.Value() == BreakerAt(b, w, c, i)
    {
      assert Stops(g, maxRetries, base, i) ==> i == stop;
      if w.doneBefore(i) { return Err(ContextDone), passed; }
      var ok := cb.Enter(c.start(i));
      if !ok {
        RefusalIsTheAnswer(b, w, c, i);
        assert Stops(g, maxRetries, base, i);
        return Err(CircuitOpen), passed;
      }
      var outcome := w.call(i);
      assert g.call(i) == outcome;
      cb.Leave(c.end(i), ErrorOf(outcome));
      passed := passed + 1;
      if outcome.Ok? { return outcome, passed; }
      lastErr := outcome.error;
      if !IsRetriable(lastErr) { return outcome, passed; }
      if i < maxRetries - 1 {
        if base <= 0 { return Err(JitterPanic), passed; }
        if w.doneDuring(i) { return Err(ContextDone), passed; }
      }
      i := i + 1;
    }
    return Err(Exhausted(maxRetries, lastErr)), passed;
  }

  /** The breaker adds one answer and changes no other: unless it refuses, the caller gets what
      plain RetryWithBackoff gives, after as many calls. */
  lemma {:induction false} RefusedOrSame<T>(b: Breaker, w: World<T>, c: Clock, maxRetries: int, base: int)
    ensures || Answer(Guarded(b, w, c), maxRetries, base) == Err(CircuitOpen)
            || (Answer(Guarded(b, w, c), maxRetries, base) == Answer(w, maxRetries, base)
                && PassedCalls(b, w, c, maxRetries, base) == Calls(w, maxRetries, base))
  {
    if maxRetries > 0 {
      var g := Guarded(b, w, c);
      var k := FirstStop(g, maxRetries, base, 0);
      if w.doneBefore(k) || Admitted(b, w, c, k) {
        forall j: nat | j < k
          ensures !Stops(w, maxRetries, base, j)
        {
          assert !Stops(g, maxRetries, base, j);
          assert Admitted(b, w, c, j);
        }
        assert Stops(w, maxRetries, base, k);
        assert FirstStop(w, maxRetries, base, 0) == k;
      }
    }
  }

  /** One attempt through the breaker, told by the fields: refused while it is open and not more
      than the reset timeout has passed, and then nothing changes; otherwise the call is made and
      success closes, Unavailable counts, and another error only keeps the half-open state. */
  lemma {:induction false} AttemptMeans<T>(b: Breaker, w: World<T>, c: Clock, i: nat)
    ensures var a, a' := BreakerAt(b, w, c, i), BreakerAt(b, w, c, i + 1);
            var refused := a.state == Open && c.start(i) <= a.lastFailureTime + a.resetTimeout;
            var count := a.failureCount + 1;
            && Guarded(b, w, c).call(i) == (if refused then Err(CircuitOpen) else w.call(i))
            && (refused ==> a' == a)
            && (!refused && w.call(i).Ok? ==> a' == a.(state := Closed, failureCount := 0))
            && (!refused && Unreached(w, i) ==>
                  && a'.failureCount == count && a'.lastFailureTime == c.end(i)
                  && (a'.state == if count >= a.failureThreshold then Open
                                  else if a.state == Open then HalfOpen else a.state))
            && (!refused && w.call(i).Err? && !Unreached(w, i) ==>
                  a' == a.(state := if a.state == Open then HalfOpen else a.state))
  {
    var a := BreakerAt(b, w, c, i);
    AdmitMeans(a, c.start(i));
    SettleMeans(Admit(a, c.start(i)), c.end(i), ErrorOf(w.call(i)));
  }

  ghost predicate AlwaysDown<T>(w: World<T>) {
    forall i: nat :: w.call(i).Err? && w.call(i).error.Unavailable?
  }

  ghost predicate GapsWithin(c: Clock, reset: int) {
    forall i: nat :: c.start(i + 1) - c.end(i) <= reset
  }

  /** Alone against a dead backend the breaker counts up and opens. */
  lemma {:induction false} CountsUp<T>(b: Breaker, w: World<T>, c: Clock, i: nat)
    requires AlwaysDown(w) && b.state == Closed && b.failureCount + i <= b.failureThreshold
    requires b.failureCount < b.failureThreshold
    ensures var a := BreakerAt(b, w, c, i);
            && a.failureCount == b.failureCount + i
            && (a.state == if a.failureCount < b.failureThreshold then Closed else Open)
            && a.failureThreshold == b.failureThreshold && a.resetTimeout == b.resetTimeout
            && (i > 0 ==> a.lastFailureTime == c.end(i - 1))
    ensures b.failureCount + i < b.failureThreshold ==> Admitted(b, w, c, i)
  {
    if i > 0 { CountsUp(b, w, c, i - 1); }
  }

  function Min(a: int, b: int): int { if a < b then a else b }

  /** Alone from Closed with count n against a backend that is always Unavailable, with no pause
      longer than resetTimeout, exactly min(maxRetries, failureThreshold - n) calls get through,
      and the open error ends the loop exactly when attempts remain. */
  lemma {:induction false} DeadBackend<T>(b: Breaker, w: World<T>, c: Clock, maxRetries: int, base: int)
    requires AlwaysDown(w) && NeverDone(w) && GapsWithin(c, b.resetTimeout)
    requires b.state == Closed && b.failureCount < b.failureThreshold && maxRetries > 0 && base > 0
    ensures PassedCalls(b, w, c, maxRetries, base) == Min(maxRetries, b.failureThreshold - b.failureCount)
    ensures Answer(Guarded(b, w, c), maxRetries, base) ==
            if maxRetries > b.failureThreshold - b.failureCount then Err(CircuitOpen)
            else Err(Exhausted(maxRetries, w.call(maxRetries - 1).error))
  {
    var g := Guarded(b, w, c);
    var left := b.failureThreshold - b.failureCount;
    var k := if maxRetries > left then left else maxRetries - 1;
    forall j: nat | j < left
      ensures Admitted(b, w, c, j) && Retries(g, j)
    {
      CountsUp(b, w, c, j);
    }
    if maxRetries > left {
      CountsUp(b, w, c, left);
      assert c.start((left - 1) + 1) - c.end(left - 1) <= b.resetTimeout;
      assert !Admitted(b, w, c, left);
    }
    assert forall j: nat :: j < k ==> !Stops(g, maxRetries, base, j);
    assert Stops(g, maxRetries, base, k);
    assert FirstStop(g, maxRetries, base, 0) == k;
  }
}

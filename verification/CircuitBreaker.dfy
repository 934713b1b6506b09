/** CircuitBreaker: a three-state machine whose mutex is released around the call, so that
    any number of calls may be between its two critical sections. */
module CircuitBreaker {
  import opened Prelude
  import opened Retry

  datatype State = Closed | Open | HalfOpen

  datatype Breaker = Breaker(state: State, failureCount: nat, failureThreshold: int, resetTimeout: int,
                             lastFailureTime: int)

  function NewBreaker(failureThreshold: int, resetTimeout: int): Breaker {
    Breaker(Closed, 0, failureThreshold, resetTimeout, 0)
  }

  /** The first critical section: may this call go ahead? */
  predicate Admits(b: Breaker, now: int) {
    b.state == Open ==> now - b.lastFailureTime > b.resetTimeout
  }

  function Admit(b: Breaker, now: int): Breaker {
    if b.state == Open && Admits(b, now) then b.(state := HalfOpen) else b
  }

  /** The second critical section, with the error of the call, None for success. */
  function Settle(b: Breaker, now: int, err: Option<Failure>): Breaker {
    if err.None? then b.(failureCount := 0, state := Closed)
    else if IsRetriable(err.value) then
      var counted := b.(failureCount := b.failureCount + 1, lastFailureTime := now);
      if counted.failureCount >= b.failureThreshold then counted.(state := Open) else counted
    else b
  }

  class Circuit {
    var state: State
    var failureCount: nat
    const failureThreshold: int
    const resetTimeout: int
    var lastFailureTime: int

    function Value(): Breaker
      reads this
    {
      Breaker(state, failureCount, failureThreshold, resetTimeout, lastFailureTime)
    }

    constructor (failureThreshold: int, resetTimeout: int)
      ensures Value() == NewBreaker(failureThreshold, resetTimeout)
    {
      state, failureCount, lastFailureTime := Closed, 0, 0;
      this.failureThreshold, this.resetTimeout := failureThreshold, resetTimeout;
    }

    /** An open breaker turns into a half-open one and lets the call in once more than the reset
        timeout has passed since the last failure, and refuses until then; otherwise every call
        is let in and nothing changes. */
    method Enter(now: int) returns (ok: bool)
      modifies this`state
      ensures ok <==> !(old(state) == Open && now - lastFailureTime <= resetTimeout)
      ensures state == if old(state) == Open && ok then HalfOpen else old(state)
      ensures ok == Admits(old(Value()), now)
      ensures Value() == Admit(old(Value()), now)
    {
      if state == Open {
        if now - lastFailureTime > resetTimeout {
          state := HalfOpen;
        } else {
          return false;
        }
      }
      return true;
    }

    /** Success closes and forgets; Unavailable counts, is timed and opens at the threshold; any
        other error leaves everything as it is. */
    method Leave(now: int, err: Option<Failure>)
      modifies this
      ensures err.None? ==> state == Closed && failureCount == 0 && lastFailureTime == old(lastFailureTime)
      ensures err.Some? && Root(err.value).Unavailable? ==>
                && failureCount == old(failureCount) + 1 && lastFailureTime == now
                && state == if failureCount >= failureThreshold then Open else old(state)
      ensures err.Some? && !Root(err.value).Unavailable? ==> Value() == old(Value())
      ensures Value() == Settle(old(Value()), now, err)
    {
      if err.Some? { RetriableIff(err.value); }
      if err.Some? && IsRetriable(err.value) {
        failureCount := failureCount + 1;
        lastFailureTime := now;
        if failureCount >= failureThreshold {
          state := Open;
        }
        return;
      }
      if err.None? {
        failureCount := 0;
        state := Closed;
      }
    }
  }

  /** The two sections as functions, told by their fields. */
  lemma {:induction false} AdmitMeans(b: Breaker, now: int)
    ensures Admits(b, now) <==> b.state != Open || now > b.lastFailureTime + b.resetTimeout
    ensures Admit(b, now)
            == if b.state == Open && now > b.lastFailureTime + b.resetTimeout then
                 Breaker(HalfOpen, b.failureCount, b.failureThreshold, b.resetTimeout, b.lastFailureTime)
               else b
  {
  }

  lemma {:induction false} SettleMeans(b: Breaker, now: int, err: Option<Failure>)
    ensures err.None? ==>
              Settle(b, now, err) == Breaker(Closed, 0, b.failureThreshold, b.resetTimeout, b.lastFailureTime)
    ensures err.Some? && Root(err.value).Unavailable? ==>
              var count := b.failureCount + 1;
              Settle(b, now, err) == Breaker(if count >= b.failureThreshold then Open else b.state, count,
                                             b.failureThreshold, b.resetTimeout, now)
    ensures err.Some? && !Root(err.value).Unavailable? ==> Settle(b, now, err) == b
  {
    if err.Some? { RetriableIff(err.value); }
  }

  // ------------------------------------------------------------- interleavings

  /** Callers pass the two sections in any order; a caller settles once for every admission. */
  datatype Event = Arrive(caller: nat, now: int) | Return(caller: nat, now: int, err: Option<Failure>)

  datatype Scene = Scene(breaker: Breaker, inside: set<nat>, settled: seq<Option<Failure>>)

  function Happen(s: Scene, e: Event): Scene {
    match e
    case Arrive(caller, now) =>
      if caller in s.inside then s
      else s.(breaker := Admit(s.breaker, now),
              inside := if Admits(s.breaker, now) then s.inside + {caller} else s.inside)
    case Return(caller, now, err) =>
      if caller !in s.inside then s
      else Scene(Settle(s.breaker, now, err), s.inside - {caller}, s.settled + [err])
  }

  function Play(threshold: int, reset: int, events: seq<Event>): Scene {
    if events == [] then Scene(NewBreaker(threshold, reset), {}, [])
    else Happen(Play(threshold, reset, events[..|events| - 1]), events[|events| - 1])
  }

  /** Unavailable failures settled since the last settled success. */
  function FailuresSince(settled: seq<Option<Failure>>): nat {
    if settled == [] then 0
    else
      var err := settled[|settled| - 1];
      var before := FailuresSince(settled[..|settled| - 1]);
      if err.None? then 0 else if Root(err.value).Unavailable? then before + 1 else before
  }

  ghost predicate Counts(s: Scene) {
    && s.breaker.failureCount == FailuresSince(s.settled)
    && (s.breaker.state == Closed <==> s.breaker.failureCount < s.breaker.failureThreshold)
  }

  lemma {:induction false} OneMoreSettled(settled: seq<Option<Failure>>, err: Option<Failure>)
    ensures FailuresSince(settled + [err])
            == if err.None? then 0
               else if Root(err.value).Unavailable? then FailuresSince(settled) + 1
               else FailuresSince(settled)
  {
    assert (settled + [err])[..|settled|] == settled;
  }

  lemma {:induction false} HappenCounts(s: Scene, e: Event)
    requires Counts(s) && s.breaker.failureThreshold >= 1
    ensures Counts(Happen(s, e))
    ensures Happen(s, e).breaker.failureThreshold == s.breaker.failureThreshold
  {
    var s' := Happen(s, e);
    if e.Return? && e.caller in s.inside {
      OneMoreSettled(s.settled, e.err);
      SettleMeans(s.breaker, e.now, e.err);
      assert s'.settled == s.settled + [e.err] && s'.breaker == Settle(s.breaker, e.now, e.err);
    } else {
      assert s'.settled == s.settled;
    }
  }

  lemma {:induction false} PlayCounts(threshold: int, reset: int, events: seq<Event>)
    requires threshold >= 1
    ensures Counts(Play(threshold, reset, events))
    ensures Play(threshold, reset, events).breaker.failureThreshold == threshold
  {
    if events != [] {
      PlayCounts(threshold, reset, events[..|events| - 1]);
      HappenCounts(Play(threshold, reset, events[..|events| - 1]), events[|events| - 1]);
    }
  }

  /** The count always means what it says, and the breaker is closed exactly below its
      threshold, in every interleaving, exactly when the threshold is at least 1. */
  lemma {:induction false} CountsAlwaysIff(threshold: int, reset: int)
    ensures threshold >= 1 <==> forall events :: Counts(Play(threshold, reset, events))
  {
    if threshold >= 1 {
      forall events
        ensures Counts(Play(threshold, reset, events))
      {
        PlayCounts(threshold, reset, events);
      }
    } else {
      assert !Counts(Play(threshold, reset, []));
    }
  }

  /** A single Unavailable reopens a half-open breaker, however many calls are inside. */
  lemma {:induction false} HalfOpenReopens(threshold: int, reset: int, events: seq<Event>, e: Event)
    requires threshold >= 1 && e.Return? && e.err.Some? && Root(e.err.value).Unavailable?
    requires e.caller in Play(threshold, reset, events).inside
    requires Play(threshold, reset, events).breaker.state == HalfOpen
    ensures Happen(Play(threshold, reset, events), e).breaker.state == Open
  {
    PlayCounts(threshold, reset, events);
    RetriableIff(e.err.value);
  }

  /** Whatever happened before, an open breaker lets the next caller in as soon as more than the
      reset timeout has passed since the last failure, everybody after him too, and the first
      success closes it. */
  lemma {:induction false} OpenBreakerRecovers(threshold: int, reset: int, events: seq<Event>, caller: nat, other: nat,
                                               now: int, later: int, end: int)
    requires var s := Play(threshold, reset, events);
             && s.breaker.state == Open && caller !in s.inside && other !in s.inside && caller != other
             && now > s.breaker.lastFailureTime + reset
    ensures var s := Play(threshold, reset, events);
            var probing := Happen(s, Arrive(caller, now));
            var shared := Happen(probing, Arrive(other, later));
            var closed := Happen(shared, Return(caller, end, None));
            && probing.inside == s.inside + {caller} && probing.breaker.state == HalfOpen
            && shared.inside == s.inside + {caller, other}
            && closed.breaker.state == Closed && closed.breaker.failureCount == 0
  {
    PlayKeepsReset(threshold, reset, events);
  }

  lemma {:induction false} PlayKeepsReset(threshold: int, reset: int, events: seq<Event>)
    ensures Play(threshold, reset, events).breaker.resetTimeout == reset
  {
    if events != [] { PlayKeepsReset(threshold, reset, events[..|events| - 1]); }
  }

  // ---------------------------------------------- a backend that is always down

  /** One sequential call of Execute: when it starts and, if it is let through, when it ends. */
  datatype Call = Call(start: int, end: int)

  const DOWN := Some(Unavailable(0))

  function AfterCall(b: Breaker, c: Call): Breaker {
    if Admits(b, c.start) then Settle(Admit(b, c.start), c.end, DOWN) else b
  }

  function AfterCalls(b: Breaker, calls: seq<Call>): Breaker {
    if calls == [] then b else AfterCall(AfterCalls(b, calls[..|calls| - 1]), calls[|calls| - 1])
  }

  /** How many of the calls reach the backend. */
  function RealCalls(b: Breaker, calls: seq<Call>): nat {
    if calls == [] then 0
    else
      var before := calls[..|calls| - 1];
      RealCalls(b, before) + if Admits(AfterCalls(b, before), calls[|calls| - 1].start) then 1 else 0
  }

  ghost predicate Sequential(calls: seq<Call>) {
    && (forall i :: 0 <= i < |calls| ==> calls[i].start <= calls[i].end)
    && (forall i, j :: 0 <= i < j < |calls| ==> calls[i].end <= calls[j].start)
  }

  /** Until the threshold every call goes through and is counted. */
  lemma {:induction false} BelowThreshold(threshold: int, reset: int, calls: seq<Call>)
    requires 1 <= threshold && |calls| <= threshold
    ensures RealCalls(NewBreaker(threshold, reset), calls) == |calls|
    ensures var b := AfterCalls(NewBreaker(threshold, reset), calls);
            && b.failureCount == |calls| && b.failureThreshold == threshold && b.resetTimeout == reset
            && (b.state == if |calls| < threshold then Closed else Open)
            && (calls != [] ==> b.lastFailureTime == calls[|calls| - 1].end)
  {
    if calls != [] { BelowThreshold(threshold, reset, calls[..|calls| - 1]); }
  }

  /** extra resets one after the other. */
  function Resets(extra: int, reset: int): int {
    if extra <= 0 then 0 else Resets(extra - 1, reset) + reset
  }

  lemma {:induction false} ResetsAre(extra: int, reset: int)
    requires extra >= 0
    ensures Resets(extra, reset) == extra * reset
  {
    if extra > 0 { ResetsAre(extra - 1, reset); }
  }

  /** The breaker after its opening: extra calls have passed since, the last call started at
      start, and every extra call pushed the last failure more than one reset away. */
  ghost predicate Spread(b: Breaker, threshold: int, reset: int, opening: int, extra: int, start: int, end: int) {
    && b.state == Open && b.failureCount >= threshold
    && b.failureThreshold == threshold && b.resetTimeout == reset
    && extra >= 0 && b.lastFailureTime <= end
    && opening + Resets(extra, reset + 1) <= b.lastFailureTime
    && (extra > 0 ==> opening + Resets(extra, reset + 1) <= start)
  }

  lemma {:induction false} SpreadStep(b: Breaker, threshold: int, reset: int, opening: int, extra: int, last: Call,
                                      c: Call)
    requires reset >= 0 && Spread(b, threshold, reset, opening, extra, last.start, last.end)
    requires last.start <= last.end <= c.start <= c.end
    ensures Spread(AfterCall(b, c), threshold, reset, opening,
                   extra + if Admits(b, c.start) then 1 else 0, c.start, c.end)
  {
  }

  lemma {:induction false} SpreadStart(threshold: int, reset: int, calls: seq<Call>)
    requires 1 <= threshold == |calls| && Sequential(calls)
    ensures var b := NewBreaker(threshold, reset); var last := calls[threshold - 1];
            && RealCalls(b, calls) == threshold
            && Spread(AfterCalls(b, calls), threshold, reset, last.end, 0, last.start, last.end)
  {
    BelowThreshold(threshold, reset, calls);
  }

  lemma {:induction false} OneMoreCall(b: Breaker, before: seq<Call>, c: Call)
    ensures AfterCalls(b, before + [c]) == AfterCall(AfterCalls(b, before), c)
    ensures RealCalls(b, before + [c]) == RealCalls(b, before) + if Admits(AfterCalls(b, before), c.start) then 1 else 0
  {
    assert (before + [c])[..|before|] == before;
  }

  /** The breaker is Spread after these calls, counted from the one that opened it. */
  ghost predicate SpreadAfter(threshold: int, reset: int, calls: seq<Call>, opening: int)
    requires calls != []
  {
    var b := NewBreaker(threshold, reset);
    Spread(AfterCalls(b, calls), threshold, reset, opening, RealCalls(b, calls) - threshold, calls[|calls| - 1].start,
           calls[|calls| - 1].end)
  }

  lemma {:induction false} SpreadMore(threshold: int, reset: int, before: seq<Call>, c: Call, opening: int)
    requires reset >= 0 && before != [] && SpreadAfter(threshold, reset, before, opening)
    requires before[|before| - 1].start <= before[|before| - 1].end <= c.start <= c.end
    ensures SpreadAfter(threshold, reset, before + [c], opening)
  {
    var b := NewBreaker(threshold, reset);
    OneMoreCall(b, before, c);
    SpreadStep(AfterCalls(b, before), threshold, reset, opening, RealCalls(b, before) - threshold,
               before[|before| - 1], c);
  }

  lemma {:induction false} ProbesSpread(threshold: int, reset: int, calls: seq<Call>)
    requires 1 <= threshold <= |calls| && reset >= 0 && Sequential(calls)
    ensures SpreadAfter(threshold, reset, calls, calls[threshold - 1].end)
    decreases |calls|
  {
    if |calls| == threshold {
      SpreadStart(threshold, reset, calls);
    } else {
      var n := |calls| - 1;
      ProbesSpread(threshold, reset, calls[..n]);
      SpreadMore(threshold, reset, calls[..n], calls[n], calls[threshold - 1].end);
      assert calls == calls[..n] + [calls[n]];
    }
  }

  /** Against a backend that is always down, of all calls started by the time T after the
      failure that opened the breaker at most failureThreshold + T / (resetTimeout + 1) reach it,
      time being counted in whole ticks. */
  lemma {:induction false} DownBackendIsSpared(threshold: int, reset: int, calls: seq<Call>, T: int)
    requires 1 <= threshold <= |calls| && reset >= 0 && Sequential(calls) && T >= 0
    requires calls[|calls| - 1].start <= calls[threshold - 1].end + T
    ensures RealCalls(NewBreaker(threshold, reset), calls) <= threshold + T / (reset + 1)
  {
    ProbesSpread(threshold, reset, calls);
    var extra := RealCalls(NewBreaker(threshold, reset), calls) - threshold;
    ResetsAre(extra, reset + 1);
    Quotient(extra, reset + 1, T);
  }

  /** Each call after the threshold starts more than one reset after the one before has ended. */
  ghost predicate Patient(threshold: int, reset: int, calls: seq<Call>) {
    forall i :: threshold <= i < |calls| && i > 0 ==> calls[i].start > calls[i - 1].end + reset
  }

  /** Patient calls all get through, however long the backend stays down. */
  lemma {:induction false} PatientCallsPass(threshold: int, reset: int, calls: seq<Call>)
    requires 1 <= threshold && Patient(threshold, reset, calls)
    ensures RealCalls(NewBreaker(threshold, reset), calls) == |calls|
    ensures var b := AfterCalls(NewBreaker(threshold, reset), calls);
            && b.failureCount == |calls| && b.failureThreshold == threshold && b.resetTimeout == reset
            && (b.state == if |calls| < threshold then Closed else Open)
            && (calls != [] ==> b.lastFailureTime == calls[|calls| - 1].end)
  {
    if |calls| <= threshold {
      BelowThreshold(threshold, reset, calls);
    } else {
      PatientCallsPass(threshold, reset, calls[..|calls| - 1]);
    }
  }

  /** Instant calls: the first threshold ones at once, then one as soon as the timeout allows. */
  function TightTime(threshold: nat, reset: nat, i: nat): int {
    if i < threshold then 0 else Resets(i - threshold + 1, reset + 1)
  }

  function Tight(threshold: nat, reset: nat, extra: nat): (calls: seq<Call>) {
    seq(threshold + extra, (i: nat) => Call(TightTime(threshold, reset, i), TightTime(threshold, reset, i)))
  }

  lemma {:induction false} NextTightTime(threshold: nat, reset: nat, i: nat)
    ensures TightTime(threshold, reset, i + 1)
            == TightTime(threshold, reset, i) + if i + 1 < threshold then 0 else reset + 1
  {
    var next := i + 1 - threshold + 1;
    if next > 0 { assert Resets(next, reset + 1) == Resets(next - 1, reset + 1) + (reset + 1); }
  }

  lemma {:induction false} TightTimesGrow(threshold: nat, reset: nat, i: nat, j: nat)
    requires i <= j
    ensures TightTime(threshold, reset, i) <= TightTime(threshold, reset, j)
    decreases j
  {
    if i < j {
      TightTimesGrow(threshold, reset, i, j - 1);
      NextTightTime(threshold, reset, j - 1);
    }
  }

  lemma {:induction false} TightIsPatient(threshold: nat, reset: nat, extra: nat)
    requires 1 <= threshold
    ensures Patient(threshold, reset, Tight(threshold, reset, extra))
    ensures Sequential(Tight(threshold, reset, extra))
  {
    var calls := Tight(threshold, reset, extra);
    forall i: nat | threshold <= i < |calls|
      ensures calls[i].start > calls[i - 1].end + reset
    {
      NextTightTime(threshold, reset, i - 1);
    }
    forall i: nat, j: nat | i < j < |calls|
      ensures calls[i].end <= calls[j].start
    {
      TightTimesGrow(threshold, reset, i, j);
    }
  }

  lemma {:induction false} TightCallsPass(threshold: nat, reset: nat, extra: nat)
    requires 1 <= threshold
    ensures var calls := Tight(threshold, reset, extra);
            && |calls| == threshold + extra && Sequential(calls)
            && calls[threshold - 1].end == 0 && calls[|calls| - 1].start == extra * (reset + 1)
            && RealCalls(NewBreaker(threshold, reset), calls) == threshold + extra
  {
    TightIsPatient(threshold, reset, extra);
    PatientCallsPass(threshold, reset, Tight(threshold, reset, extra));
    ResetsAre(extra, reset + 1);
  }

  lemma {:induction false} QuotientFits(n: nat, d: nat)
    requires d > 0
    ensures n / d * d <= n
  {
  }

  /** The bound is met: for every T some calls started by T reach the backend that often. */
  lemma {:induction false} BoundIsMet(threshold: nat, reset: nat, T: nat)
    requires 1 <= threshold
    ensures var calls := Tight(threshold, reset, T / (reset + 1));
            && Sequential(calls) && |calls| >= threshold
            && calls[threshold - 1].end == 0 && calls[|calls| - 1].start <= T
            && RealCalls(NewBreaker(threshold, reset), calls) == threshold + T / (reset + 1)
  {
    TightCallsPass(threshold, reset, T / (reset + 1));
    QuotientFits(T, reset + 1);
  }

  lemma {:induction false} NoGainBelowOne(x: int, d: int)
    requires d > 0
    ensures x * d > 0 ==> x > 0
  {
    if x <= 0 { assert x * d <= 0; }
  }

  lemma {:induction false} Quotient(k: int, d: int, n: int)
    requires d > 0 && k * d <= n
    ensures k <= n / d
  {
    assert n < d * (n / d) + d;
    assert (n / d + 1 - k) * d == d * (n / d) + d - k * d;
    NoGainBelowOne(n / d + 1 - k, d);
  }
}

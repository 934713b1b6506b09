/** The gateway's response cache under every interleaving: a cached read is three separate
    steps, the backend changes at any moment and keys are deleted at any moment. */
module CacheFreshness {
  import opened Prelude
  import opened CacheKeys
  import Seq = GatewayCache

  type Bytes = Seq.Bytes

  /** A request that missed: it asks the backend for its caller, then holds the answer until it
      stores it. */
  datatype Flight = Asking(caller: string, item: Item) | Holding(caller: string, item: Item, data: Bytes)

  datatype State = State(now: nat, backend: map<Item, Bytes>, cache: map<string, Seq.Entry>,
                         flights: map<nat, Flight>, next: nat)

  /** Flights are numbered in the order they miss. Change is any write to the backend, by an
      update handler, by an accepted invitation or by somebody else. */
  datatype Event =
    | Tick(d: nat)
    | Change(item: Item, data: Option<Bytes>)
    | Delete(key: string)
    | Look(caller: string, item: Item)
    | Fetch(flight: nat)
    | Store(flight: nat)
    | Abandon(flight: nat)

  const START := State(0, map[], map[], map[], 0)

  function Happen(canon: string -> string, s: State, e: Event): State {
    match e
    case Tick(d) => s.(now := s.now + d)
    case Change(i, data) => s.(backend := Seq.Write(s.backend, i, data))
    case Delete(key) => s.(cache := s.cache - {key})
    case Look(caller, i) =>
      if KeyOf(i).Some? && Seq.Visible(s.cache, KeyOf(i).value, s.now).Some? then s
      else s.(flights := s.flights[s.next := Asking(caller, i)], next := s.next + 1)
    case Fetch(f) =>
      if f !in s.flights || !s.flights[f].Asking? then s
      else
        var asked := s.flights[f];
        var answer := Seq.Ask(s.backend, canon, asked.caller, asked.item);
        if answer.status != Seq.OK then s.(flights := s.flights - {f})
        else s.(flights := s.flights[f := Holding(asked.caller, asked.item, answer.data)])
    case Store(f) =>
      if f !in s.flights || !s.flights[f].Holding? then s
      else
        var held := s.flights[f];
        s.(flights := s.flights - {f},
           cache := if KeyOf(held.item).None? then s.cache
                    else s.cache[KeyOf(held.item).value := Seq.Entry(held.data, s.now + Seq.TTL)])
    case Abandon(f) => s.(flights := s.flights - {f})
  }

  function After(canon: string -> string, run: seq<Event>): State {
    if run == [] then START else Happen(canon, After(canon, run[..|run| - 1]), run[|run| - 1])
  }

  /** A finished fetch: who asked for what, in which flight, and the answer. */
  datatype Answered = Answered(flight: nat, caller: string, item: Item, data: Bytes)

  function Held(a: Answered): Flight { Holding(a.caller, a.item, a.data) }

  /** The k-th event of the run is that fetch. */
  ghost predicate Fetched(canon: string -> string, run: seq<Event>, k: nat, a: Answered) {
    && k < |run| && run[k] == Fetch(a.flight)
    && a.flight in After(canon, run[..k]).flights
    && After(canon, run[..k]).flights[a.flight] == Asking(a.caller, a.item)
    && Seq.Ask(After(canon, run[..k]).backend, canon, a.caller, a.item) == Seq.Response(Seq.OK, a.data)
  }

  /** The m-th event of the run is the flight's storing of what it fetched at k. */
  ghost predicate Stored(canon: string -> string, run: seq<Event>, k: nat, m: nat, a: Answered) {
    && k < m < |run| && run[m] == Store(a.flight) && Fetched(canon, run, k, a)
    && a.flight in After(canon, run[..m]).flights && After(canon, run[..m]).flights[a.flight] == Held(a)
  }

  /** Entry e is what that storing put under key. */
  ghost predicate StoredAs(canon: string -> string, run: seq<Event>, k: nat, m: nat, a: Answered,
                           key: string, e: Seq.Entry) {
    && Stored(canon, run, k, m, a) && KeyOf(a.item) == Some(key) && Look(a.caller, a.item) in run
    && e == Seq.Entry(a.data, After(canon, run[..m]).now + Seq.TTL)
  }

  ghost predicate Justified(canon: string -> string, run: seq<Event>, key: string, e: Seq.Entry) {
    exists k: nat, m: nat, a :: StoredAs(canon, run, k, m, a, key, e)
  }

  ghost predicate HoldsTruth(canon: string -> string, run: seq<Event>, a: Answered) {
    exists k: nat :: Fetched(canon, run, k, a)
  }

  /** A flight that is under way was begun by its caller's request, and holds what it fetched. */
  ghost predicate FlightTrue(canon: string -> string, run: seq<Event>, f: nat, flight: Flight) {
    && Look(flight.caller, flight.item) in run
    && (flight.Holding? ==> HoldsTruth(canon, run, Answered(f, flight.caller, flight.item, flight.data)))
  }

  ghost predicate FlightsTrue(canon: string -> string, run: seq<Event>) {
    forall f | f in After(canon, run).flights ::
      f < After(canon, run).next && FlightTrue(canon, run, f, After(canon, run).flights[f])
  }

  ghost predicate CacheTrue(canon: string -> string, run: seq<Event>) {
    forall key | key in After(canon, run).cache :: Justified(canon, run, key, After(canon, run).cache[key])
  }

  lemma {:induction false} FetchedLater(canon: string -> string, run: seq<Event>, e: Event, k: nat, a: Answered)
    requires Fetched(canon, run, k, a)
    ensures Fetched(canon, run + [e], k, a)
  {
    assert (run + [e])[..k] == run[..k];
  }

  lemma {:induction false} JustifiedLater(canon: string -> string, run: seq<Event>, e: Event, key: string,
                                          entry: Seq.Entry)
    requires Justified(canon, run, key, entry)
    ensures Justified(canon, run + [e], key, entry)
  {
    var k: nat, m: nat, a :| StoredAs(canon, run, k, m, a, key, entry);
    FetchedLater(canon, run, e, k, a);
    assert (run + [e])[..m] == run[..m];
    assert StoredAs(canon, run + [e], k, m, a, key, entry);
  }

  /** A flight's storing justifies the entry it leaves. */
  lemma {:induction false} StoreIsJustified(canon: string -> string, run: seq<Event>, f: nat)
    requires FlightsTrue(canon, run)
    requires f in After(canon, run).flights && After(canon, run).flights[f].Holding?
    requires KeyOf(After(canon, run).flights[f].item).Some?
    ensures var held := After(canon, run).flights[f];
            Justified(canon, run + [Store(f)], KeyOf(held.item).value,
                      Seq.Entry(held.data, After(canon, run).now + Seq.TTL))
  {
    var e := Store(f);
    var held := After(canon, run).flights[f];
    var a := Answered(f, held.caller, held.item, held.data);
    assert FlightTrue(canon, run, f, held);
    var k: nat :| Fetched(canon, run, k, a);
    FetchedLater(canon, run, e, k, a);
    assert (run + [e])[..|run|] == run;
    assert (run + [e])[|run|] == e;
    assert StoredAs(canon, run + [e], k, |run|, a, KeyOf(held.item).value,
                    Seq.Entry(held.data, After(canon, run).now + Seq.TTL));
  }

  lemma {:induction false} Unfold(canon: string -> string, run: seq<Event>, e: Event)
    ensures After(canon, run + [e]) == Happen(canon, After(canon, run), e)
    ensures forall x :: x in run ==> x in run + [e]
    ensures e in run + [e]
  {
    assert (run + [e])[..|run|] == run;
    assert (run + [e])[|run|] == e;
  }

  lemma {:induction false} FlightsStayTrue(canon: string -> string, run: seq<Event>, e: Event)
    requires FlightsTrue(canon, run)
    ensures FlightsTrue(canon, run + [e])
  {
    Unfold(canon, run, e);
    var s, s' := After(canon, run), After(canon, run + [e]);
    forall f | f in s'.flights
      ensures f < s'.next && FlightTrue(canon, run + [e], f, s'.flights[f])
    {
      var flight := s'.flights[f];
      if f in s.flights && s.flights[f] == flight {
        assert FlightTrue(canon, run, f, flight);
        if flight.Holding? {
          var a := Answered(f, flight.caller, flight.item, flight.data);
          var k: nat :| Fetched(canon, run, k, a);
          FetchedLater(canon, run, e, k, a);
        }
      } else if e.Fetch? {
        assert (run + [e])[..|run|] == run;
        assert FlightTrue(canon, run, f, s.flights[f]);
        assert Fetched(canon, run + [e], |run|, Answered(f, flight.caller, flight.item, flight.data));
      }
    }
  }

  /** Where an entry comes from: it was there already, or a flight just stored it. */
  lemma {:induction false} EntryOrigin(canon: string -> string, s: State, e: Event, key: string)
    requires key in Happen(canon, s, e).cache
    ensures
      || (key in s.cache && Happen(canon, s, e).cache[key] == s.cache[key])
      || (e.Store? && e.flight in s.flights && s.flights[e.flight].Holding?
          && KeyOf(s.flights[e.flight].item) == Some(key)
          && Happen(canon, s, e).cache[key] == Seq.Entry(s.flights[e.flight].data, s.now + Seq.TTL))
  {
  }

  lemma {:induction false} CacheStaysTrue(canon: string -> string, run: seq<Event>, e: Event)
    requires FlightsTrue(canon, run) && CacheTrue(canon, run)
    ensures CacheTrue(canon, run + [e])
  {
    Unfold(canon, run, e);
    var s := After(canon, run);
    forall key | key in After(canon, run + [e]).cache
      ensures Justified(canon, run + [e], key, After(canon, run + [e]).cache[key])
    {
      EntryOrigin(canon, s, e, key);
      if key in s.cache && Happen(canon, s, e).cache[key] == s.cache[key] {
        JustifiedLater(canon, run, e, key, s.cache[key]);
      } else {
        StoreIsJustified(canon, run, e.flight);
      }
    }
  }

  lemma {:induction false} RunStaysTrue(canon: string -> string, run: seq<Event>)
    ensures FlightsTrue(canon, run) && CacheTrue(canon, run)
  {
    if run != [] {
      var before, e := run[..|run| - 1], run[|run| - 1];
      assert run == before + [e];
      RunStaysTrue(canon, before);
      FlightsStayTrue(canon, before, e);
      CacheStaysTrue(canon, before, e);
    }
  }

  lemma {:induction false} ClockIsMonotone(canon: string -> string, run: seq<Event>, k: nat)
    requires k <= |run|
    ensures After(canon, run[..k]).now <= After(canon, run).now
  {
    if k < |run| {
      assert run[..|run| - 1][..k] == run[..k];
      ClockIsMonotone(canon, run[..|run| - 1], k);
    } else {
      assert run[..k] == run;
    }
  }

  ghost predicate LooksColonFree(run: seq<Event>) {
    forall caller, i | Look(caller, i) in run :: ColonFree(i)
  }

  /** a's data was the backend's answer to a's caller when its flight fetched it at event k, and
      the flight stored it at event m; at time now it is younger than the time to live plus the
      flight's own delay. */
  ghost predicate WasTrue(canon: string -> string, run: seq<Event>, k: nat, m: nat, a: Answered, now: int) {
    && Stored(canon, run, k, m, a)
    && var fetched := After(canon, run[..k]).now;
       var stored := After(canon, run[..m]).now;
       fetched <= stored <= now && now - Seq.TTL - (stored - fetched) < fetched
  }

  lemma {:induction false} StoredInTime(canon: string -> string, run: seq<Event>, k: nat, m: nat, a: Answered,
                                        key: string, e: Seq.Entry)
    requires StoredAs(canon, run, k, m, a, key, e) && After(canon, run).now < e.expires
    ensures WasTrue(canon, run, k, m, a, After(canon, run).now)
  {
    ClockIsMonotone(canon, run, m);
    ClockIsMonotone(canon, run[..m], k);
    assert run[..m][..k] == run[..k];
  }

  lemma {:induction false} EntryIsStored(canon: string -> string, run: seq<Event>, key: string)
    returns (k: nat, m: nat, a: Answered)
    requires key in After(canon, run).cache
    ensures StoredAs(canon, run, k, m, a, key, After(canon, run).cache[key])
  {
    RunStaysTrue(canon, run);
    assert Justified(canon, run, key, After(canon, run).cache[key]);
    k, m, a :| StoredAs(canon, run, k, m, a, key, After(canon, run).cache[key]);
  }

  lemma {:induction false} FetcherIsEntitled(canon: string -> string, run: seq<Event>, k: nat, a: Answered)
    requires Fetched(canon, run, k, a)
    ensures Seq.Entitled(canon, a.caller, a.item)
  {
  }

  /** In every interleaving, what a hit on i serves was the backend's answer for i to a caller it
      answers, who asked for i, at an instant later than the time to live plus that request's own
      fetch-to-set delay ago. */
  lemma {:induction false} HitWasTrue(canon: string -> string, run: seq<Event>, i: Item)
    requires LooksColonFree(run) && ColonFree(i) && KeyOf(i).Some?
    requires Seq.Visible(After(canon, run).cache, KeyOf(i).value, After(canon, run).now).Some?
    ensures exists k: nat, m: nat, a ::
      && WasTrue(canon, run, k, m, a, After(canon, run).now)
      && a.item == i && a.data == After(canon, run).cache[KeyOf(i).value].data
      && Look(a.caller, i) in run && Seq.Entitled(canon, a.caller, i)
  {
    var key := KeyOf(i).value;
    var k, m, a := EntryIsStored(canon, run, key);
    KeysInjective(a.item, i);
    StoredInTime(canon, run, k, m, a, key, After(canon, run).cache[key]);
    FetcherIsEntitled(canon, run, k, a);
  }

  /** Another reader of the entry gets what the backend would have answered him at that instant
      exactly when it answers him about the item at all. */
  lemma {:induction false} HitIsReadersIff(canon: string -> string, run: seq<Event>, k: nat, m: nat, a: Answered,
                                           reader: string)
    requires Stored(canon, run, k, m, a)
    ensures Seq.Ask(After(canon, run[..k]).backend, canon, reader, a.item) == Seq.Response(Seq.OK, a.data)
            <==> Seq.Entitled(canon, reader, a.item)
  {
  }

  // ------------------------------------------------------- one handler, undisturbed

  /** Run without interruption, the three steps of a cached read are the sequential handler. */
  lemma {:induction false} UndisturbedReadIsServe(canon: string -> string, s: State, caller: string, i: Item)
    requires forall f | f in s.flights :: f < s.next
    ensures var f := s.next;
            var s' := Happen(canon, Happen(canon, Happen(canon, s, Look(caller, i)), Fetch(f)), Store(f));
            Seq.Gate(s'.cache, s'.backend)
              == Seq.Serve(canon, Seq.Gate(s.cache, s.backend), s.now, Seq.Get(caller, i))
            && s'.flights == s.flights
  {
    var f := s.next;
    var looked := Happen(canon, s, Look(caller, i));
    if looked != s {
      assert looked.flights - {f} == s.flights;
      var fetched := Happen(canon, looked, Fetch(f));
      assert fetched.flights - {f} == s.flights;
    }
  }

  /** A request that dies, or has stored already, stores nothing more, and its flight is over. */
  lemma {:induction false} EndedFlightStoresNothing(canon: string -> string, s: State, f: nat)
    ensures var dead := Happen(canon, s, Abandon(f));
            f !in dead.flights && Happen(canon, dead, Store(f)) == dead && dead.cache == s.cache
    ensures var stored := Happen(canon, s, Store(f));
            Happen(canon, stored, Store(f)).cache == stored.cache
  {
  }

  lemma {:induction false} TwoKeysGone(cache: map<string, Seq.Entry>, a: string, b: string)
    ensures cache - {a} - {b} == Seq.Drop(Seq.Drop(cache, Some(a)), Some(b))
  {
  }

  /** So are the steps of an update: its rows change, then its keys go. */
  lemma {:induction false} UndisturbedUpdateIsServe(canon: string -> string, s: State, id: string, own: Bytes,
                                                    public: Bytes)
    requires id != ""
    ensures var changed := Happen(canon, Happen(canon, s, Change(Seq.Canonical(canon, Me(id)), Some(own))),
                                  Change(Seq.Canonical(canon, Public(id)), Some(public)));
            var s' := Happen(canon, Happen(canon, changed, Delete(KeyOf(Me(id)).value)),
                             Delete(KeyOf(Public(id)).value));
            Seq.Gate(s'.cache, s'.backend)
              == Seq.Serve(canon, Seq.Gate(s.cache, s.backend), s.now, Seq.SetUser(id, Some((own, public))))
            && s'.flights == s.flights
  {
    TwoKeysGone(s.cache, KeyOf(Me(id)).value, KeyOf(Public(id)).value);
  }

  lemma {:induction false} UndisturbedWritesAreServe(canon: string -> string, s: State, id: string, tutor: string,
                                                     student: string, profile: Bytes, data: Option<Bytes>)
    requires id != "" && tutor != "" && student != ""
    ensures var s' := Happen(canon, Happen(canon, s, Change(Seq.Canonical(canon, Profile(id)), Some(profile))),
                             Delete(KeyOf(Profile(id)).value));
            Seq.Gate(s'.cache, s'.backend)
              == Seq.Serve(canon, Seq.Gate(s.cache, s.backend), s.now, Seq.SetProfile(id, Some(profile)))
    ensures var s' := Happen(canon, Happen(canon, s, Change(Seq.Canonical(canon, Pair(tutor, student)), data)),
                             Delete(KeyOf(Pair(tutor, student)).value));
            Seq.Gate(s'.cache, s'.backend)
              == Seq.Serve(canon, Seq.Gate(s.cache, s.backend), s.now, Seq.SetPair(tutor, student, true, data))
    ensures data.Some? ==>
              var s' := Happen(canon, s, Change(Seq.Canonical(canon, Pair(tutor, student)), data));
              Seq.Gate(s'.cache, s'.backend)
                == Seq.Serve(canon, Seq.Gate(s.cache, s.backend), s.now, Seq.Accept(tutor, student, data))
  {
  }

  // ------------------------------------------------------------- the bound is reached

  lemma {:induction false} Reaches(canon: string -> string, run: seq<Event>, e: Event, s: State, s': State,
                                   longer: seq<Event>)
    requires After(canon, run) == s && Happen(canon, s, e) == s' && longer == run + [e]
    ensures After(canon, longer) == s'
  {
    Unfold(canon, run, e);
  }

  /** The item gets a row, who asks for it and fetches it. */
  function Fetching(who: string, i: Item, was: Bytes): seq<Event> {
    [Change(i, Some(was)), Look(who, i), Fetch(0)]
  }

  lemma {:induction false} FetchSteps(canon: string -> string, who: string, i: Item, was: Bytes)
    requires Seq.WellNamed(canon, i) && Seq.Entitled(canon, who, i)
    ensures var stored := State(0, map[i := was], map[], map[], 0);
            var looked := stored.(flights := map[0 := Asking(who, i)], next := 1);
            && Happen(canon, START, Change(i, Some(was))) == stored
            && Happen(canon, stored, Look(who, i)) == looked
            && Happen(canon, looked, Fetch(0)) == looked.(flights := map[0 := Holding(who, i, was)])
  {
  }

  lemma {:induction false} FetchInFlight(canon: string -> string, who: string, i: Item, was: Bytes)
    requires Seq.WellNamed(canon, i) && Seq.Entitled(canon, who, i)
    ensures After(canon, Fetching(who, i, was)) == State(0, map[i := was], map[], map[0 := Holding(who, i, was)], 1)
  {
    var stored := State(0, map[i := was], map[], map[], 0);
    var looked := stored.(flights := map[0 := Asking(who, i)], next := 1);
    var change, look := Change(i, Some(was)), Look(who, i);
    FetchSteps(canon, who, i, was);
    Reaches(canon, [], change, START, stored, [change]);
    Reaches(canon, [change], look, stored, looked, [change, look]);
    Reaches(canon, [change, look], Fetch(0), looked, looked.(flights := map[0 := Holding(who, i, was)]),
            Fetching(who, i, was));
  }

  lemma {:induction false} StaleFlight(canon: string -> string, who: string, i: Item, key: string, was: Bytes,
                                       fresher: Bytes)
    requires Seq.WellNamed(canon, i) && Seq.Entitled(canon, who, i) && KeyOf(i) == Some(key)
    ensures After(canon, Fetching(who, i, was) + [Change(i, Some(fresher))] + [Delete(key)])
            == State(0, map[i := fresher], map[], map[0 := Holding(who, i, was)], 1)
  {
    FetchInFlight(canon, who, i, was);
    Unfold(canon, Fetching(who, i, was), Change(i, Some(fresher)));
    Unfold(canon, Fetching(who, i, was) + [Change(i, Some(fresher))], Delete(key));
  }

  /** A read fetches, an update changes the item and deletes its key, the read stores after a
      delay d: the old answer is served until the last second the bound allows. */
  lemma {:induction false} BoundIsReached(canon: string -> string, who: string, i: Item, was: Bytes, fresher: Bytes,
                                          d: nat)
    requires Seq.WellNamed(canon, i) && Seq.Entitled(canon, who, i)
    ensures var key := KeyOf(i).value;
            var update := [Change(i, Some(fresher))] + [Delete(key)];
            var run := Fetching(who, i, was) + update + [Tick(d)] + [Store(0)] + [Tick(Seq.TTL - 1)];
            var s := After(canon, run);
            && Seq.Visible(s.cache, key, s.now) == Some(was)
            && s.backend == map[i := fresher]
            && s.now - Seq.TTL - d + 1 == After(canon, Fetching(who, i, was)).now
  {
    var key := KeyOf(i).value;
    FetchInFlight(canon, who, i, was);
    StaleFlight(canon, who, i, key, was, fresher);
    var five := Fetching(who, i, was) + ([Change(i, Some(fresher))] + [Delete(key)]);
    assert five == Fetching(who, i, was) + [Change(i, Some(fresher))] + [Delete(key)];
    Unfold(canon, five, Tick(d));
    Unfold(canon, five + [Tick(d)], Store(0));
    Unfold(canon, five + [Tick(d)] + [Store(0)], Tick(Seq.TTL - 1));
  }
}

/** The gateway's response cache with handlers running one at a time: a hit must be what the
    backend would answer now. */
module GatewayCache {
  import opened Prelude
  import opened CacheKeys

  type Bytes = string

  /** A cached response, with the deadline Redis drops it at. */
  datatype Entry = Entry(data: Bytes, expires: int)

  const TTL := 300

  /** The cache as it answers at time now. */
  function Visible(cache: map<string, Entry>, key: string, now: int): Option<Bytes> {
    if key in cache && now < cache[key].expires then Some(cache[key].data) else None
  }

  datatype Response = Response(status: int, data: Bytes)

  const OK := 200
  const BAD := 400
  const FORBIDDEN := 403
  const MISSING := 404
  const FAILED := 500

  /** Whom the backend answers: anyone about public data, a user about himself, a tutor about his
      own profile, either member about a pair. */
  predicate Entitled(canon: string -> string, caller: string, i: Item) {
    match i
    case Me(id) => caller == id          // the request is made with the caller's own id
    case Public(_) => true
    case Profile(id) => canon(caller) == canon(id)
    case Pair(t, s) => canon(caller) == canon(t) || canon(caller) == canon(s)
  }

  /** An id the backend cannot parse has the empty spelling. */
  predicate Parses(canon: string -> string, i: Item) {
    if i.Pair? then canon(i.tutor) != "" && canon(i.student) != "" else canon(i.id) != ""
  }

  /** What the backend answers caller about item: canon is the id it understands a request's id
      to be. The ids are parsed first, then the caller is checked, then the row is read. */
  function Ask(backend: map<Item, Bytes>, canon: string -> string, caller: string, i: Item): Response {
    var c := Canonical(canon, i);
    if !Parses(canon, i) then Response(if i.Me? then FAILED else BAD, "")
    else if !Entitled(canon, caller, i) then Response(FORBIDDEN, "")
    else if c !in backend then Response(MISSING, "")
    else Response(OK, backend[c])
  }

  function Canonical(canon: string -> string, i: Item): Item {
    match i
    case Me(id) => Me(canon(id))
    case Public(id) => Public(canon(id))
    case Profile(id) => Profile(canon(id))
    case Pair(t, s) => Pair(canon(t), canon(s))
  }

  function Drop(cache: map<string, Entry>, key: Option<string>): map<string, Entry> {
    if key.Some? then cache - {key.value} else cache
  }

  function Write(backend: map<Item, Bytes>, i: Item, data: Option<Bytes>): map<Item, Bytes> {
    if data.Some? then backend[i := data.value] else backend - {i}
  }

  class Gateway {
    const canon: string -> string
    var cache: map<string, Entry>
    var backend: map<Item, Bytes>

    constructor (canon: string -> string)
      ensures this.canon == canon && State() == Gate(map[], map[])
    {
      this.canon := canon;
      cache, backend := map[], map[];
    }

    function State(): Gate
      reads this
    {
      Gate(cache, backend)
    }

    /** Look up, otherwise fetch and store; errors and keyless requests are not stored. The key
        does not name the caller. */
    method HandleWithCache(caller: string, i: Item, now: int) returns (r: Response)
      modifies this`cache
      ensures State() == Serve(canon, old(State()), now, Get(caller, i))
      ensures r == Answer(canon, old(State()), now, caller, i)
    {
      var key := KeyOf(i);
      if key.Some? {
        var hit := Visible(cache, key.value, now);
        if hit.Some? { return Response(OK, hit.value); }
      }
      r := Ask(backend, canon, caller, i);
      if r.status != OK { return; }
      if key.Some? {
        cache := cache[key.value := Entry(r.data, now + TTL)];
      }
    }

    /** UpdateUser: both views of the user may change; on any outcome both keys are deleted. */
    method UpdateUser(id: string, change: Option<(Bytes, Bytes)>, now: int)
      modifies this
      ensures State() == Serve(canon, old(State()), now, SetUser(id, change))
    {
      if change.Some? {
        backend := backend[Me(canon(id)) := change.value.0][Public(canon(id)) := change.value.1];
      }
      var key := KeyOf(Me(id));
      if key.Some? { cache := cache - {key.value}; }
      key := KeyOf(Public(id));
      if key.Some? { cache := cache - {key.value}; }
    }

    method UpdateTutorProfile(id: string, change: Option<Bytes>, now: int)
      modifies this
      ensures State() == Serve(canon, old(State()), now, SetProfile(id, change))
    {
      if change.Some? { backend := backend[Profile(canon(id)) := change.value]; }
      var key := KeyOf(Profile(id));
      if key.Some? { cache := cache - {key.value}; }
    }

    /** UpdateTutorStudent and DeleteTutorStudent. */
    method WriteTutorStudent(tutor: string, student: string, succeeds: bool, data: Option<Bytes>, now: int)
      modifies this
      ensures State() == Serve(canon, old(State()), now, SetPair(tutor, student, succeeds, data))
    {
      if succeeds { backend := Write(backend, Pair(canon(tutor), canon(student)), data); }
      var key := KeyOf(Pair(tutor, student));
      if key.Some? { cache := cache - {key.value}; }
    }

    /** AcceptInvitation changes the pair and leaves the cache alone. */
    method AcceptInvitation(tutor: string, student: string, change: Option<Bytes>, now: int)
      modifies this`backend
      ensures State() == Serve(canon, old(State()), now, Accept(tutor, student, change))
    {
      if change.Some? { backend := backend[Pair(canon(tutor), canon(student)) := change.value]; }
    }
  }

  // ------------------------------------------------------------------------ runs

  datatype Gate = Gate(cache: map<string, Entry>, backend: map<Item, Bytes>)

  /** change and data are what a successful backend call stores; None where it fails (or, for
      a pair, deletes). Register is a row that appears behind the gateway's back. */
  datatype Request =
    | Get(caller: string, item: Item)
    | SetUser(id: string, change: Option<(Bytes, Bytes)>)
    | SetProfile(id: string, profile: Option<Bytes>)
    | SetPair(tutor: string, student: string, succeeds: bool, data: Option<Bytes>)
    | Accept(tutor: string, student: string, accepted: Option<Bytes>)
    | Register(item: Item, row: Bytes)

  function Serve(canon: string -> string, g: Gate, now: int, req: Request): Gate {
    match req
    case Get(caller, i) =>
      if KeyOf(i).None? || Visible(g.cache, KeyOf(i).value, now).Some? then g
      else
        var r := Ask(g.backend, canon, caller, i);
        if r.status != OK then g else g.(cache := g.cache[KeyOf(i).value := Entry(r.data, now + TTL)])
    case SetUser(id, change) =>
      Gate(Drop(Drop(g.cache, KeyOf(Me(id))), KeyOf(Public(id))),
           if change.None? then g.backend
           else g.backend[Me(canon(id)) := change.value.0][Public(canon(id)) := change.value.1])
    case SetProfile(id, change) =>
      Gate(Drop(g.cache, KeyOf(Profile(id))),
           if change.None? then g.backend else g.backend[Profile(canon(id)) := change.value])
    case SetPair(t, s, succeeds, data) =>
      Gate(Drop(g.cache, KeyOf(Pair(t, s))),
           if succeeds then Write(g.backend, Pair(canon(t), canon(s)), data) else g.backend)
    case Accept(t, s, change) =>
      if change.None? then g else g.(backend := g.backend[Pair(canon(t), canon(s)) := change.value])
    case Register(i, row) =>
      if Canonical(canon, i) in g.backend then g else g.(backend := g.backend[Canonical(canon, i) := row])
  }

  function Answer(canon: string -> string, g: Gate, now: int, caller: string, i: Item): Response {
    if KeyOf(i).Some? && Visible(g.cache, KeyOf(i).value, now).Some? then
      Response(OK, Visible(g.cache, KeyOf(i).value, now).value)
    else Uncached(canon, g, caller, i)
  }

  /** What the caller would get with no cache at all. */
  function Uncached(canon: string -> string, g: Gate, caller: string, i: Item): Response {
    Ask(g.backend, canon, caller, i)
  }

  datatype Timed = Timed(now: int, req: Request)

  function Run(canon: string -> string, reqs: seq<Timed>): Gate {
    if reqs == [] then Gate(map[], map[])
    else Serve(canon, Run(canon, reqs[..|reqs| - 1]), reqs[|reqs| - 1].now, reqs[|reqs| - 1].req)
  }

  /** The items a request names. */
  function Names(req: Request): seq<Item> {
    match req
    case Get(_, i) => [i]
    case SetUser(id, _) => [Me(id), Public(id)]
    case SetProfile(id, _) => [Profile(id)]
    case SetPair(t, s, _, _) => [Pair(t, s)]
    case Accept(t, s, _) => [Pair(t, s)]
    case Register(i, _) => [i]
  }

  /** Every id in the request is non-empty, free of colons and in the backend's own spelling. */
  ghost predicate WellNamed(canon: string -> string, i: Item) {
    ColonFree(i) && Canonical(canon, i) == i && KeyOf(i).Some?
  }

  ghost predicate AllWellNamed(canon: string -> string, reqs: seq<Timed>) {
    forall k, i :: 0 <= k < |reqs| && i in Names(reqs[k].req) ==> WellNamed(canon, i)
  }

  /** How a request changes the pairs an acceptance has changed since their key was last
      stored or deleted. */
  function Touch(canon: string -> string, g: Gate, touched: set<Item>, now: int, req: Request): set<Item> {
    match req
    case Accept(t, s, change) => if change.Some? then touched + {Pair(t, s)} else touched
    case SetPair(t, s, _, _) => touched - {Pair(t, s)}
    case Get(_, i) => if Serve(canon, g, now, req).cache != g.cache then touched - {i} else touched
    case _ => touched
  }

  function Touched(canon: string -> string, reqs: seq<Timed>): set<Item> {
    if reqs == [] then {}
    else
      var before := reqs[..|reqs| - 1];
      var last := reqs[|reqs| - 1];
      Touch(canon, Run(canon, before), Touched(canon, before), last.now, last.req)
  }

  /** Every stored response not touched by an acceptance is the backend's current one, and
      belongs to a well-named item. */
  ghost predicate Fresh(canon: string -> string, g: Gate, touched: set<Item>) {
    forall i :: WellNamed(canon, i) && KeyOf(i).value in g.cache && i !in touched ==>
      i in g.backend && g.cache[KeyOf(i).value].data == g.backend[i]
  }

  lemma {:induction false} NamesAreComplete(req: Request)
    ensures req.Get? || req.Register? ==> req.item in Names(req)
    ensures req.SetUser? ==> Me(req.id) in Names(req) && Public(req.id) in Names(req)
    ensures req.SetProfile? ==> Profile(req.id) in Names(req)
    ensures req.SetPair? || req.Accept? ==> Pair(req.tutor, req.student) in Names(req)
  {
    var named := Names(req);
    assert named[0] in named && named[|named| - 1] in named;
  }

  lemma {:induction false} ServeKeepsFresh(canon: string -> string, g: Gate, touched: set<Item>, now: int,
                                           req: Request)
    requires Fresh(canon, g, touched)
    requires forall x | x in Names(req) :: WellNamed(canon, x)
    ensures Fresh(canon, Serve(canon, g, now, req), Touch(canon, g, touched, now, req))
  {
    var g' := Serve(canon, g, now, req);
    NamesAreComplete(req);
    forall i | WellNamed(canon, i) && KeyOf(i).value in g'.cache && i !in Touch(canon, g, touched, now, req)
      ensures i in g'.backend && g'.cache[KeyOf(i).value].data == g'.backend[i]
    {
      forall x | x in Names(req) && KeyOf(x) == KeyOf(i)
        ensures x == i
      {
        KeysInjective(x, i);
      }
    }
  }

  lemma {:induction false} RunStaysFresh(canon: string -> string, reqs: seq<Timed>)
    requires AllWellNamed(canon, reqs)
    ensures Fresh(canon, Run(canon, reqs), Touched(canon, reqs))
  {
    if reqs != [] {
      var before := reqs[..|reqs| - 1];
      var last := reqs[|reqs| - 1];
      RunStaysFresh(canon, before);
      ServeKeepsFresh(canon, Run(canon, before), Touched(canon, before), last.now, last.req);
    }
  }

  /** With well-named ids and handlers one at a time, and no invitation of the pair accepted since
      its response was stored: a GET is answered as if there were no cache exactly when the
      backend would answer its caller or nothing is cached. A hit is the backend's current row,
      for whoever asks. */
  lemma {:induction false} CacheIsInvisibleIff(canon: string -> string, reqs: seq<Timed>, caller: string, i: Item,
                                               now: int)
    requires AllWellNamed(canon, reqs) && WellNamed(canon, i)
    requires i !in Touched(canon, reqs)
    ensures var g := Run(canon, reqs);
            var hit := Visible(g.cache, KeyOf(i).value, now);
            && (Answer(canon, g, now, caller, i) == Uncached(canon, g, caller, i)
                <==> Entitled(canon, caller, i) || hit.None?)
            && (hit.Some? ==> i in g.backend && Answer(canon, g, now, caller, i) == Response(OK, g.backend[i]))
  {
    RunStaysFresh(canon, reqs);
  }

  /** Who gets which row without a cache, item by item: a user about himself, anyone about public
      data, a profile's owner, and either member of a pair; others are refused. */
  lemma {:induction false} WhoIsAnswered(canon: string -> string, g: Gate, caller: string, id: string, tutor: string,
                                         student: string)
    ensures canon(id) != "" && Public(canon(id)) in g.backend ==>
              Uncached(canon, g, caller, Public(id)) == Response(200, g.backend[Public(canon(id))])
    ensures canon(id) != "" && Me(canon(id)) in g.backend ==>
              Uncached(canon, g, id, Me(id)) == Response(200, g.backend[Me(canon(id))])
    ensures canon(id) != "" && Profile(canon(id)) in g.backend ==>
              Uncached(canon, g, caller, Profile(id))
              == if canon(caller) == canon(id) then Response(200, g.backend[Profile(canon(id))]) else Response(403, "")
    ensures canon(tutor) != "" && canon(student) != "" && Pair(canon(tutor), canon(student)) in g.backend ==>
              Uncached(canon, g, caller, Pair(tutor, student))
              == if canon(caller) == canon(tutor) || canon(caller) == canon(student)
                 then Response(200, g.backend[Pair(canon(tutor), canon(student))]) else Response(403, "")
  {
  }

  /** Who gets which error: a profile or pair is refused to strangers whether it exists or not. */
  lemma {:induction false} WhoIsRefused(canon: string -> string, g: Gate, caller: string, id: string, tutor: string,
                                        student: string)
    ensures canon(id) != "" && Public(canon(id)) !in g.backend ==>
              Uncached(canon, g, caller, Public(id)) == Response(404, "")
    ensures canon(id) != "" && Me(canon(id)) !in g.backend ==> Uncached(canon, g, id, Me(id)) == Response(404, "")
    ensures canon(id) != "" && Profile(canon(id)) !in g.backend ==>
              Uncached(canon, g, caller, Profile(id)) == Response(if canon(caller) == canon(id) then 404 else 403, "")
    ensures canon(tutor) != "" && canon(student) != "" && Pair(canon(tutor), canon(student)) !in g.backend ==>
              Uncached(canon, g, caller, Pair(tutor, student))
              == Response(if canon(caller) == canon(tutor) || canon(caller) == canon(student) then 404 else 403, "")
    ensures canon(id) == "" ==>
              && Uncached(canon, g, caller, Public(id)) == Response(400, "")
              && Uncached(canon, g, caller, Profile(id)) == Response(400, "")
              && Uncached(canon, g, id, Me(id)) == Response(500, "")
    ensures canon(tutor) == "" || canon(student) == "" ==>
              Uncached(canon, g, caller, Pair(tutor, student)) == Response(400, "")
  {
  }

  /** A hit is served as it is stored; a miss is answered as without a cache, and an answer to it
      is kept for 300 seconds. */
  lemma {:induction false} HitOrMiss(canon: string -> string, g: Gate, now: int, caller: string, i: Item, key: string)
    requires KeyOf(i) == Some(key)
    ensures var g' := Serve(canon, g, now, Get(caller, i));
            var hit := key in g.cache && now < g.cache[key].expires;
            var fetched := Uncached(canon, g, caller, i);
            && (hit ==> Answer(canon, g, now, caller, i) == Response(200, g.cache[key].data) && g' == g)
            && (!hit ==> Answer(canon, g, now, caller, i) == fetched)
            && (!hit && fetched.status == 200 ==> g' == Gate(g.cache[key := Entry(fetched.data, now + 300)], g.backend))
            && (!hit && fetched.status != 200 ==> g' == g)
  {
  }

  /** For a user about himself, for public data, for a profile's owner and for either member of a
      pair the cache is invisible. */
  lemma {:induction false} CacheIsInvisible(canon: string -> string, reqs: seq<Timed>, caller: string, i: Item,
                                            now: int)
    requires AllWellNamed(canon, reqs) && WellNamed(canon, i) && i !in Touched(canon, reqs)
    requires || (i.Me? && caller == i.id) || i.Public?
             || (i.Profile? && canon(caller) == canon(i.id))
             || (i.Pair? && (canon(caller) == canon(i.tutor) || canon(caller) == canon(i.student)))
    ensures Answer(canon, Run(canon, reqs), now, caller, i) == Uncached(canon, Run(canon, reqs), caller, i)
  {
    CacheIsInvisibleIff(canon, reqs, caller, i, now);
  }

  // --------------------------------------------------------------- read your writes

  /** Nothing is served under i's key. */
  predicate Uncovered(g: Gate, i: Item, now: int) {
    KeyOf(i).None? || Visible(g.cache, KeyOf(i).value, now).None?
  }

  lemma {:induction false} DroppedIsUncovered(cache: map<string, Entry>, i: Item, j: Item, backend: map<Item, Bytes>,
                                              now: int)
    ensures Uncovered(Gate(Drop(Drop(cache, KeyOf(i)), KeyOf(j)), backend), i, now)
    ensures Uncovered(Gate(Drop(Drop(cache, KeyOf(i)), KeyOf(j)), backend), j, now)
    ensures Uncovered(Gate(Drop(cache, KeyOf(i)), backend), i, now)
  {
  }

  /** Whatever was cached, after a successful update of a user everybody asking by the same
      spelling gets the new rows. */
  lemma {:induction false} UserUpdateIsSeen(canon: string -> string, g: Gate, now: int, later: int, id: string,
                                            own: Bytes, public: Bytes, caller: string)
    requires canon(id) != ""
    ensures var g' := Serve(canon, g, now, SetUser(id, Some((own, public))));
            && Answer(canon, g', later, id, Me(id)) == Response(200, own)
            && Answer(canon, g', later, caller, Public(id)) == Response(200, public)
  {
    var backend := g.backend[Me(canon(id)) := own][Public(canon(id)) := public];
    DroppedIsUncovered(g.cache, Me(id), Public(id), backend, later);
  }

  /** So does the owner of an updated profile. */
  lemma {:induction false} ProfileUpdateIsSeen(canon: string -> string, g: Gate, now: int, later: int, id: string,
                                               data: Bytes, caller: string)
    requires canon(id) != "" && canon(caller) == canon(id)
    ensures Answer(canon, Serve(canon, g, now, SetProfile(id, Some(data))), later, caller, Profile(id))
            == Response(200, data)
  {
    DroppedIsUncovered(g.cache, Profile(id), Profile(id), g.backend[Profile(canon(id)) := data], later);
  }

  /** So do the members of an updated pair; of a deleted one they get 404. */
  lemma {:induction false} PairWriteIsSeen(canon: string -> string, g: Gate, now: int, later: int, tutor: string,
                                           student: string, data: Option<Bytes>, caller: string)
    requires canon(tutor) != "" && canon(student) != ""
    requires canon(caller) == canon(tutor) || canon(caller) == canon(student)
    ensures var g' := Serve(canon, g, now, SetPair(tutor, student, true, data));
            Answer(canon, g', later, caller, Pair(tutor, student))
            == if data.Some? then Response(200, data.value) else Response(404, "")
  {
    DroppedIsUncovered(g.cache, Pair(tutor, student), Pair(tutor, student),
                       Write(g.backend, Pair(canon(tutor), canon(student)), data), later);
  }

  /** A refused write changes no row. */
  lemma {:induction false} RefusedWriteChangesNothing(canon: string -> string, g: Gate, now: int, id: string,
                                                      tutor: string, student: string, data: Option<Bytes>)
    ensures Serve(canon, g, now, SetUser(id, None)).backend == g.backend
    ensures Serve(canon, g, now, SetProfile(id, None)).backend == g.backend
    ensures Serve(canon, g, now, SetPair(tutor, student, false, data)).backend == g.backend
    ensures Serve(canon, g, now, Accept(tutor, student, None)) == g
  {
  }

  /** A write changes the rows it is for and no others. */
  lemma {:induction false} WritesTheirRowsOnly(canon: string -> string, g: Gate, now: int, req: Request, i: Item)
    requires i in g.backend || i in Serve(canon, g, now, req).backend
    requires match req
             case SetUser(id, _) => i != Me(canon(id)) && i != Public(canon(id))
             case SetProfile(id, _) => i != Profile(canon(id))
             case SetPair(t, s, _, _) => i != Pair(canon(t), canon(s))
             case Accept(t, s, _) => i != Pair(canon(t), canon(s))
             case Register(_, _) => i in g.backend
             case Get(_, _) => true
    ensures i in g.backend && i in Serve(canon, g, now, req).backend
    ensures Serve(canon, g, now, req).backend[i] == g.backend[i]
  {
  }

  /** After an accepted invitation the members get the new row exactly if nothing was cached. */
  lemma {:induction false} AcceptanceIsSeenIff(canon: string -> string, g: Gate, now: int, tutor: string,
                                               student: string, data: Bytes, caller: string)
    requires canon(tutor) != "" && canon(student) != "" && tutor != "" && student != ""
    requires canon(caller) == canon(tutor) || canon(caller) == canon(student)
    ensures var i := Pair(tutor, student);
            var hit := Visible(g.cache, KeyOf(i).value, now);
            var answer := Answer(canon, Serve(canon, g, now, Accept(tutor, student, Some(data))), now, caller, i);
            answer == Response(200, data) <==> hit.None? || hit == Some(data)
  {
  }

  lemma {:induction false} OnlyPairsAreTouched(canon: string -> string, reqs: seq<Timed>, i: Item)
    requires i in Touched(canon, reqs)
    ensures i.Pair? && exists k :: 0 <= k < |reqs| && Accepts(reqs[k].req, i)
  {
    var n := |reqs| - 1;
    if i in Touched(canon, reqs[..n]) {
      OnlyPairsAreTouched(canon, reqs[..n], i);
      var k :| 0 <= k < n && Accepts(reqs[..n][k].req, i);
      assert Accepts(reqs[k].req, i);
    } else {
      assert Accepts(reqs[n].req, i);
    }
  }

  predicate Accepts(req: Request, i: Item) {
    req.Accept? && i.Pair? && req.tutor == i.tutor && req.student == i.student
  }

  // ------------------------------------------------------------------ witnesses

  lemma {:induction false} RunNext(canon: string -> string, reqs: seq<Timed>, next: Timed)
    ensures Run(canon, reqs + [next]) == Serve(canon, Run(canon, reqs), next.now, next.req)
  {
    assert (reqs + [next])[..|reqs|] == reqs;
  }

  /** A row appears at time 0 and caller reads it at time 1. */
  function ReadOnce(caller: string, i: Item, row: Bytes): seq<Timed> {
    [Timed(0, Register(i, row)), Timed(1, Get(caller, i))]
  }

  lemma {:induction false} AfterReadOnce(canon: string -> string, caller: string, i: Item, row: Bytes)
    requires WellNamed(canon, i) && Entitled(canon, caller, i)
    ensures Run(canon, ReadOnce(caller, i, row)) == Gate(map[KeyOf(i).value := Entry(row, 301)], map[i := row])
  {
    var first, second := Timed(0, Register(i, row)), Timed(1, Get(caller, i));
    RunNext(canon, [], first);
    assert [] + [first] == [first];
    assert Run(canon, [first]) == Gate(map[], map[i := row]);
    RunNext(canon, [first], second);
    assert [first] + [second] == ReadOnce(caller, i, row);
  }

  /** Let req pass at time 2 without deleting the key: at time 3 the first answer is still served. */
  lemma {:induction false} StaleAfter(canon: string -> string, caller: string, i: Item, was: Bytes, req: Request)
    requires WellNamed(canon, i) && Entitled(canon, caller, i)
    requires forall g: Gate :: KeyOf(i).value in g.cache ==>
      && KeyOf(i).value in Serve(canon, g, 2, req).cache
      && Serve(canon, g, 2, req).cache[KeyOf(i).value] == g.cache[KeyOf(i).value]
    ensures var reqs := ReadOnce(caller, i, was);
            && Answer(canon, Run(canon, reqs + [Timed(2, req)]), 3, caller, i) == Response(OK, was)
            && Run(canon, reqs).backend == map[i := was]
            && Run(canon, reqs + [Timed(2, req)]).backend == Serve(canon, Run(canon, reqs), 2, req).backend
  {
    AfterReadOnce(canon, caller, i, was);
    RunNext(canon, ReadOnce(caller, i, was), Timed(2, req));
  }

  const PAIR := Pair("t", "s")

  /** A pair is read, its invitation accepted: until the entry expires the old answer stands. */
  lemma {:induction false} AcceptanceLeavesStalePair(canon: string -> string)
    requires Canonical(canon, PAIR) == PAIR
    ensures var reqs := ReadOnce("t", PAIR, "invited") + [Timed(2, Accept("t", "s", Some("active")))];
            && Answer(canon, Run(canon, reqs), 3, "t", PAIR) == Response(OK, "invited")
            && Uncached(canon, Run(canon, reqs), "t", PAIR) == Response(OK, "active")
  {
    StaleAfter(canon, "t", PAIR, "invited", Accept("t", "s", Some("active")));
  }

  /** An update under any other spelling of the id deletes other keys. */
  lemma {:induction false} OtherSpellingLeavesStaleUser(canon: string -> string, id: string, spelt: string)
    requires canon(spelt) == id && canon(id) == id && id != "" && spelt != id
    ensures var reqs := ReadOnce(id, Me(id), "old") + [Timed(2, SetUser(spelt, Some(("new", "new"))))];
            && Answer(canon, Run(canon, reqs), 3, id, Me(id)) == Response(OK, "old")
            && Uncached(canon, Run(canon, reqs), id, Me(id)) == Response(OK, "new")
  {
    if spelt != "" {
      KeysEqualIff(Me(spelt), Me(id));
      KeysEqualIff(Public(spelt), Me(id));
    }
    StaleAfter(canon, id, Me(id), "old", SetUser(spelt, Some(("new", "new"))));
  }

  /** A tutor reads his own profile: until the entry expires another caller is answered from the
      cache, whom the backend would refuse, and was refused before that read. */
  lemma {:induction false} OtherCallerSharesTheEntry(canon: string -> string, tutor: string, other: string, row: Bytes)
    requires WellNamed(canon, Profile(tutor)) && canon(other) != tutor
    ensures var i, reqs := Profile(tutor), ReadOnce(tutor, Profile(tutor), row);
            && AllWellNamed(canon, reqs) && Touched(canon, reqs) == {}
            && Answer(canon, Run(canon, reqs[..1]), 1, other, i) == Response(FORBIDDEN, "")
            && Answer(canon, Run(canon, reqs), 3, other, i) == Response(OK, row)
            && Uncached(canon, Run(canon, reqs), other, i) == Response(FORBIDDEN, "")
  {
    var i, reqs := Profile(tutor), ReadOnce(tutor, Profile(tutor), row);
    AfterReadOnce(canon, tutor, i, row);
    assert reqs[..1] == [] + [reqs[0]];
    RunNext(canon, [], reqs[0]);
    forall k, x | 0 <= k < |reqs| && x in Names(reqs[k].req)
      ensures WellNamed(canon, x)
    {
      assert Names(reqs[k].req) == [i];
    }
    forall x | x in Touched(canon, reqs)
      ensures false
    {
      OnlyPairsAreTouched(canon, reqs, x);
    }
  }
}

/** The cache keys of the gateway's user handlers. */
module CacheKeys {
  import opened Prelude

  /** What a cached GET asks for, with the ids as they came in the request. */
  datatype Item =
    | Me(id: string)                            // GET /users/me, id from X-User-Id
    | Public(id: string)                        // GET /users/{id}
    | Profile(id: string)                       // GET /tutor-profiles/{id}
    | Pair(tutor: string, student: string)      // GET /tutor-students/{tutor_id}/{student_id}

  /** The build*Key functions; they fail on an empty id. */
  function KeyOf(i: Item): Option<string> {
    match i
    case Me(id) => if id == "" then None else Some("user:" + id)
    case Public(id) => if id == "" then None else Some("user-public:" + id)
    case Profile(id) => if id == "" then None else Some("tutor-profile:" + id)
    case Pair(t, s) => if t == "" || s == "" then None else Some("tutor-student:" + t + ":" + s)
  }

  /** Only the tutor's id needs to be free of colons; the student's ends its key. */
  predicate ColonFree(i: Item) { i.Pair? ==> ':' !in i.tutor }

  lemma {:induction false} PrefixInjective(prefix: string, a: string, b: string)
    requires prefix + a == prefix + b
    ensures a == b
  {
    assert (prefix + a)[|prefix|..] == a;
    assert (prefix + b)[|prefix|..] == b;
  }

  /** A colon-free first part ends at the first colon. */
  lemma {:induction false} SplitAtColon(t: string, s: string, u: string, v: string)
    requires t + ":" + s == u + ":" + v && ':' !in t && ':' !in u
    ensures t == u && s == v
    decreases |t|
  {
    var whole := t + ":" + s;
    assert whole == t + (":" + s) == u + (":" + v);
    assert whole[0] == if t == "" then ':' else whole[0];
    assert whole[0] == if u == "" then ':' else whole[0];
    if t == "" && u == "" {
      assert whole == ":" + s && whole == ":" + v;
      PrefixInjective(":", s, v);
    } else if t == "" || u == "" {
      assert false;
    } else {
      assert whole[0] == t[0] == u[0];
      assert whole[1..] == t[1..] + ":" + s == u[1..] + ":" + v;
      SplitAtColon(t[1..], s, u[1..], v);
    }
  }

  /** Where the four families differ, whatever the ids. */
  lemma {:induction false} FamiliesDiffer(i: Item, j: Item)
    requires KeyOf(i).Some? && KeyOf(i) == KeyOf(j)
    ensures (i.Me? <==> j.Me?) && (i.Public? <==> j.Public?) && (i.Profile? <==> j.Profile?) && (i.Pair? <==> j.Pair?)
  {
    var k := KeyOf(i).value;
    forall x | (x == i || x == j)
      ensures x.Me? ==> k[4] == ':'
      ensures x.Public? ==> k[4] == '-' && k[0] == 'u'
      ensures x.Profile? ==> k[0] == 't' && k[6] == 'p'
      ensures x.Pair? ==> k[0] == 't' && k[6] == 's'
    {
      assert KeyOf(x) == Some(k);
      match x
      case Me(id) => assert k == "user:" + id;
      case Public(id) => assert k == "user-public:" + id;
      case Profile(id) => assert k == "tutor-profile:" + id;
      case Pair(t, s) => assert k == "tutor-student:" + (t + ":" + s);
    }
  }

  /** Whatever the ids, two keys are equal only for the same request or for two pairs whose ids,
      joined by a colon, read the same. */
  lemma {:induction false} KeysEqualIff(i: Item, j: Item)
    requires KeyOf(i).Some? && KeyOf(j).Some?
    ensures KeyOf(i) == KeyOf(j)
            <==> i == j || (i.Pair? && j.Pair? && i.tutor + ":" + i.student == j.tutor + ":" + j.student)
  {
    if KeyOf(i) == KeyOf(j) {
      FamiliesDiffer(i, j);
      match i
      case Me(id) => PrefixInjective("user:", id, j.id);
      case Public(id) => PrefixInjective("user-public:", id, j.id);
      case Profile(id) => PrefixInjective("tutor-profile:", id, j.id);
      case Pair(t, s) =>
        PairKey(t, s);
        PairKey(j.tutor, j.student);
        PrefixInjective("tutor-student:", t + ":" + s, j.tutor + ":" + j.student);
    }
    if i.Pair? && j.Pair? {
      PairKey(i.tutor, i.student);
      PairKey(j.tutor, j.student);
    }
  }

  lemma {:induction false} PairKey(t: string, s: string)
    ensures "tutor-student:" + t + ":" + s == "tutor-student:" + (t + ":" + s)
  {
  }

  /** Joined by a colon, two pairs of ids read the same exactly when they are the same or one
      first id continues the other past a colon, by what the other second id has in front. */
  lemma {:induction false} JoinedEqualIff(t: string, s: string, u: string, v: string)
    ensures t + ":" + s == u + ":" + v
            <==> (t == u && s == v)
                 || (exists w :: u == t + ":" + w && s == w + ":" + v)
                 || (exists w :: t == u + ":" + w && v == w + ":" + s)
  {
    if t + ":" + s == u + ":" + v {
      if |t| == |u| {
        assert (t + ":" + s)[..|t|] == t && (u + ":" + v)[..|u|] == u;
        assert (t + ":" + s)[|t| + 1..] == s && (u + ":" + v)[|u| + 1..] == v;
      } else if |t| < |u| {
        var w := Overhang(t, s, u, v);
      } else {
        var w := Overhang(u, v, t, s);
      }
    }
    if w :| u == t + ":" + w && s == w + ":" + v {
      assert t + ":" + (w + ":" + v) == t + ":" + w + ":" + v;
    }
    if w :| t == u + ":" + w && v == w + ":" + s {
      assert u + ":" + (w + ":" + s) == u + ":" + w + ":" + s;
    }
  }

  lemma {:induction false} Overhang(t: string, s: string, u: string, v: string) returns (w: string)
    requires t + ":" + s == u + ":" + v && |t| < |u|
    ensures u == t + ":" + w && s == w + ":" + v
  {
    var whole := t + ":" + s;
    w := u[|t| + 1..];
    assert whole[..|u|] == u && whole[..|t|] == t && whole[|t|] == ':' && whole[|t| + 1..] == s;
    assert u[..|t|] == t && u[|t|] == ':';
    assert u == u[..|t|] + [u[|t|]] + u[|t| + 1..];
    assert s == whole[|t| + 1..|u|] + whole[|u|..];
    assert whole[|u|..] == ":" + v;
  }

  /** Two different requests share a key exactly when both are for pairs and one tutor id
      continues the other past a colon, by what the other student id has in front. */
  lemma {:induction false} KeysCollideIff(i: Item, j: Item)
    requires KeyOf(i).Some? && KeyOf(j).Some?
    ensures KeyOf(i) == KeyOf(j) && i != j
            <==> i.Pair? && j.Pair?
                 && ((exists w :: j.tutor == i.tutor + ":" + w && i.student == w + ":" + j.student)
                     || (exists w :: i.tutor == j.tutor + ":" + w && j.student == w + ":" + i.student))
  {
    KeysEqualIff(i, j);
    if i.Pair? && j.Pair? {
      JoinedEqualIff(i.tutor, i.student, j.tutor, j.student);
      assert forall w :: j.tutor == i.tutor + ":" + w ==> |j.tutor| > |i.tutor|;
      assert forall w :: i.tutor == j.tutor + ":" + w ==> |i.tutor| > |j.tutor|;
    }
  }

  /** Tutor ids without a colon give every request its own key. */
  lemma {:induction false} KeysInjective(i: Item, j: Item)
    requires KeyOf(i).Some? && KeyOf(i) == KeyOf(j) && ColonFree(i) && ColonFree(j)
    ensures i == j
  {
    KeysEqualIff(i, j);
    if i.Pair? && j.Pair? { SplitAtColon(i.tutor, i.student, j.tutor, j.student); }
  }

  /** With colons in a tutor id two different pairs share a key. */
  lemma {:induction false} ColonsCollide()
    ensures KeyOf(Pair("a:b", "c")) == KeyOf(Pair("a", "b:c")) && Pair("a:b", "c") != Pair("a", "b:c")
  {
    assert "tutor-student:" + "a:b" + ":" + "c" == "tutor-student:" + "a" + ":" + "b:c";
  }
}

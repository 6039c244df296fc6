/**
 * The `sessions` collection shared by the command service and the consumer:
 * session documents kept in natural (insertion) order, each with a unique id,
 * and the repository operations both sides use on it.
 */
module SessionStore {
  import opened Common

  type Id = nat

  /**
   * One session document. `hashedToken` is the one-way hash of the opaque
   * token the client holds; times are seconds on one clock.
   */
  datatype Session = Session(
    id: Id,
    hashedToken: string,
    userId: string,
    createdAt: int,
    expiresAt: int,
    lastAccessedAt: int,
    ipAddress: Option<string>,
    userAgent: Option<string>)

  /** SessionDto.isExpired: the current time is strictly after the expiry. */
  predicate IsExpired(s: Session, now: int) {
    now > s.expiresAt
  }

  function IdsOf(s: seq<Session>): set<Id> {
    set x | x in s :: x.id
  }

  lemma IdsOfAppend(s: seq<Session>, x: Session)
    ensures IdsOf(s + [x]) == IdsOf(s) + {x.id}
  {
    assert forall y :: y in s + [x] <==> y in s || y == x;
  }

  /** No two documents share an id. */
  predicate UniqueIds(s: seq<Session>) {
    s == [] || (s[0].id !in IdsOf(s[1..]) && UniqueIds(s[1..]))
  }

  /** findByUserId: the user's sessions, in store order. */
  function UserSessions(s: seq<Session>, u: string): (r: seq<Session>)
    ensures |r| <= |s|
    ensures forall x :: x in r <==> x in s && x.userId == u
  {
    if s == [] then []
    else if s[0].userId == u then [s[0]] + UserSessions(s[1..], u)
    else UserSessions(s[1..], u)
  }

  /** The sessions that belong to anyone but `u`, in store order. */
  function Others(s: seq<Session>, u: string): (r: seq<Session>)
    ensures forall x :: x in r <==> x in s && x.userId != u
  {
    if s == [] then []
    else if s[0].userId != u then [s[0]] + Others(s[1..], u)
    else Others(s[1..], u)
  }

  /** delete / deleteAll: every document whose id is in `ids` is removed, the rest keep their order. */
  function Without(s: seq<Session>, ids: set<Id>): (r: seq<Session>)
    ensures |r| <= |s|
    ensures forall x :: x in r <==> x in s && x.id !in ids
  {
    if s == [] then []
    else if s[0].id in ids then Without(s[1..], ids)
    else [s[0]] + Without(s[1..], ids)
  }

  /** save of a document that is already stored: the document with its id is overwritten. */
  function Replaced(s: seq<Session>, x: Session): (r: seq<Session>)
    ensures |r| == |s|
    ensures forall k :: 0 <= k < |s| ==> r[k] == if s[k].id == x.id then x else s[k]
  {
    if s == [] then [] else [if s[0].id == x.id then x else s[0]] + Replaced(s[1..], x)
  }

  /** findByHashedSessionToken: the first document holding that hash. */
  function FirstWithHash(s: seq<Session>, h: string): (r: Option<Session>)
    ensures r.Some? ==> r.value in s && r.value.hashedToken == h
    ensures r.None? ==> forall x :: x in s ==> x.hashedToken != h
  {
    if s == [] then None else if s[0].hashedToken == h then Some(s[0]) else FirstWithHash(s[1..], h)
  }

  lemma {:induction false} UniqueIdsAppend(s: seq<Session>, x: Session)
    requires UniqueIds(s) && x.id !in IdsOf(s)
    ensures UniqueIds(s + [x])
  {
    if s != [] {
      assert (s + [x])[1..] == s[1..] + [x];
      assert IdsOf(s[1..] + [x]) == IdsOf(s[1..]) + {x.id};
      UniqueIdsAppend(s[1..], x);
    }
  }

  lemma {:induction false} UniqueIdsWithout(s: seq<Session>, ids: set<Id>)
    requires UniqueIds(s)
    ensures UniqueIds(Without(s, ids))
  {
    if s != [] {
      UniqueIdsWithout(s[1..], ids);
      if s[0].id !in ids {
        assert Without(s, ids)[1..] == Without(s[1..], ids);
      }
    }
  }

  lemma {:induction false} UniqueIdsReplaced(s: seq<Session>, x: Session)
    requires UniqueIds(s)
    ensures UniqueIds(Replaced(s, x)) && IdsOf(Replaced(s, x)) == IdsOf(s)
  {
    if s != [] {
      UniqueIdsReplaced(s[1..], x);
      assert Replaced(s, x)[1..] == Replaced(s[1..], x);
    }
  }

  /** Removing ids that no document carries changes nothing. */
  lemma {:induction false} WithoutCongruent(s: seq<Session>, a: set<Id>, b: set<Id>)
    requires forall x :: x in s ==> (x.id in a <==> x.id in b)
    ensures Without(s, a) == Without(s, b)
  {
    if s != [] {
      WithoutCongruent(s[1..], a, b);
    }
  }

  lemma {:induction false} WithoutWithout(s: seq<Session>, a: set<Id>, b: set<Id>)
    ensures Without(Without(s, a), b) == Without(s, a + b)
  {
    if s != [] {
      WithoutWithout(s[1..], a, b);
      if s[0].id !in a {
        assert Without(s, a) == [s[0]] + Without(s[1..], a);
        assert Without(s, a)[1..] == Without(s[1..], a);
      }
    }
  }

  /** Saving a document whose id is not stored leaves the replacement a no-op. */
  lemma {:induction false} ReplacedAbsent(s: seq<Session>, x: Session)
    requires x.id !in IdsOf(s)
    ensures Replaced(s, x) == s
  {
    if s != [] {
      ReplacedAbsent(s[1..], x);
    }
  }

  /** Deleting the ids of all of `u`'s sessions leaves exactly the other users' sessions. */
  lemma {:induction false} WithoutUserIsOthers(s: seq<Session>, u: string)
    requires UniqueIds(s)
    ensures Without(s, IdsOf(UserSessions(s, u))) == Others(s, u)
  {
    if s != [] {
      var ids := IdsOf(UserSessions(s, u));
      var rest := IdsOf(UserSessions(s[1..], u));
      WithoutUserIsOthers(s[1..], u);
      WithoutCongruent(s[1..], ids, rest);
    }
  }

  /** A replaced-and-deduplicated store: `u`'s first session becomes `c`, the others of `u` disappear. */
  function CollapseUser(s: seq<Session>, u: string, c: Session): (r: seq<Session>)
  {
    if s == [] then []
    else if s[0].userId == u then [c] + Others(s[1..], u)
    else [s[0]] + CollapseUser(s[1..], u, c)
  }

  /**
   * Overwriting the first of `u`'s sessions and then deleting each of the
   * remaining ones by id yields CollapseUser.
   */
  lemma {:induction false} ReplaceThenDeleteRest(s: seq<Session>, u: string, c: Session)
    requires UniqueIds(s) && UserSessions(s, u) != []
    requires c.id == UserSessions(s, u)[0].id
    ensures Without(Replaced(s, c), IdsOf(UserSessions(s, u)[1..])) == CollapseUser(s, u, c)
  {
    var list := UserSessions(s, u);
    if s[0].userId == u {
      assert list[1..] == UserSessions(s[1..], u);
      ReplacedAbsent(s[1..], c);
      assert Replaced(s, c) == [c] + s[1..];
      WithoutUserIsOthers(s[1..], u);
    } else {
      assert list == UserSessions(s[1..], u);
      assert list[0] in s[1..];
      ReplaceThenDeleteRest(s[1..], u, c);
      assert s[0].id !in IdsOf(list[1..]);
    }
  }

  lemma {:induction false} CollapseUserSessions(s: seq<Session>, u: string, c: Session)
    requires UserSessions(s, u) != [] && c.userId == u
    ensures UserSessions(CollapseUser(s, u, c), u) == [c]
    ensures Others(CollapseUser(s, u, c), u) == Others(s, u)
  {
    if s[0].userId == u {
      NoUserSessionsInOthers(s[1..], u);
      OthersOfOthers(s[1..], u);
    } else {
      CollapseUserSessions(s[1..], u, c);
    }
  }

  lemma {:induction false} NoUserSessionsInOthers(s: seq<Session>, u: string)
    ensures UserSessions(Others(s, u), u) == []
  {
    if s != [] {
      NoUserSessionsInOthers(s[1..], u);
      if s[0].userId != u {
        assert Others(s, u)[1..] == Others(s[1..], u);
      }
    }
  }

  lemma {:induction false} OthersOfOthers(s: seq<Session>, u: string)
    ensures Others(Others(s, u), u) == Others(s, u)
  {
    if s != [] {
      OthersOfOthers(s[1..], u);
      if s[0].userId != u {
        assert Others(s, u)[1..] == Others(s[1..], u);
      }
    }
  }

  /** The collection as a repository object; the consumer and the command service each hold one. */
  class SessionRepository {
    var sessions: seq<Session>
    var nextId: Id

    ghost predicate Valid()
      reads this
    {
      UniqueIds(sessions) && forall x :: x in sessions ==> x.id < nextId
    }

    constructor ()
      ensures Valid() && sessions == []
    {
      sessions := [];
      nextId := 0;
    }

    /** findByUserId */
    function FindByUserId(u: string): (r: seq<Session>)
      reads this
      ensures r == UserSessions(sessions, u)
    {
      UserSessions(sessions, u)
    }

    /** findByHashedSessionToken */
    function FindByHash(h: string): (r: Option<Session>)
      reads this
      ensures r == FirstWithHash(sessions, h)
    {
      FirstWithHash(sessions, h)
    }

    /** save of a new document: the store assigns the next id. */
    method Insert(x: Session) returns (saved: Session)
      requires Valid()
      modifies this
      ensures Valid()
      ensures saved == x.(id := old(nextId)) && nextId == old(nextId) + 1
      ensures sessions == old(sessions) + [saved]
    {
      saved := x.(id := nextId);
      UniqueIdsAppend(sessions, saved);
      sessions := sessions + [saved];
      nextId := nextId + 1;
    }

    /** save of a document read from the store: it overwrites the document with its id. */
    method Save(x: Session)
      requires Valid() && x.id in IdsOf(sessions)
      modifies this
      ensures Valid() && nextId == old(nextId)
      ensures sessions == Replaced(old(sessions), x)
    {
      UniqueIdsReplaced(sessions, x);
      sessions := Replaced(sessions, x);
    }

    /** delete: removes the document with the entity's id. */
    method Delete(x: Session)
      requires Valid()
      modifies this
      ensures Valid() && nextId == old(nextId)
      ensures sessions == Without(old(sessions), {x.id})
    {
      UniqueIdsWithout(sessions, {x.id});
      sessions := Without(sessions, {x.id});
    }

    /** deleteAll: removes every document with one of the entities' ids. */
    method DeleteAll(xs: seq<Session>)
      requires Valid()
      modifies this
      ensures Valid() && nextId == old(nextId)
      ensures sessions == Without(old(sessions), IdsOf(xs))
    {
      UniqueIdsWithout(sessions, IdsOf(xs));
      sessions := Without(sessions, IdsOf(xs));
    }
  }
}

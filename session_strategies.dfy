/**
 * The five consumer strategies for session commands. Each strategy object
 * works on the shared session repository; its Execute is proved against a
 * function saying which store it leaves behind, and the lemmas below state
 * what those stores satisfy.
 */
module SessionStrategies {
  import opened Common
  import opened Events
  import opened SessionStore

  /**
   * new SessionDto(hash, userId, expiresAt, ip, agent) with createdAt and
   * lastAccessedAt then set to the event timestamp; the store assigns the id.
   */
  function NewSession(ev: SessionEvent): (x: Session)
    ensures x.hashedToken == ev.hashedSessionId && x.userId == ev.userId && x.expiresAt == ev.expiresAt
    ensures x.ipAddress == ev.ipAddress && x.userAgent == ev.userAgent
    ensures x.createdAt == ev.timestamp && x.lastAccessedAt == ev.timestamp
  {
    Session(0, ev.hashedSessionId, ev.userId, ev.timestamp, ev.expiresAt, ev.timestamp, ev.ipAddress, ev.userAgent)
  }

  /** UPSERT on an existing session: new hash, expiry, address and agent; last access is the current time. */
  function Refreshed(x: Session, ev: SessionEvent, now: int): Session {
    x.(hashedToken := ev.hashedSessionId, expiresAt := ev.expiresAt, ipAddress := ev.ipAddress,
       userAgent := ev.userAgent, lastAccessedAt := now)
  }

  /** UPDATE: last access is the current time; address and agent only where the event has one. */
  function Touched(x: Session, ev: SessionEvent, now: int): Session {
    x.(lastAccessedAt := now,
       ipAddress := if ev.ipAddress.Some? then ev.ipAddress else x.ipAddress,
       userAgent := if ev.userAgent.Some? then ev.userAgent else x.userAgent)
  }

  /**
   * The store after UPSERT_SESSION: a user with sessions keeps the first one,
   * refreshed, and loses the rest; a user without one gets a new session.
   */
  function Upserted(s: seq<Session>, nextId: Id, ev: SessionEvent, now: int): seq<Session> {
    var mine := UserSessions(s, ev.userId);
    if mine == [] then s + [NewSession(ev).(id := nextId)]
    else CollapseUser(s, ev.userId, Refreshed(mine[0], ev, now))
  }

  /** The store after UPDATE_SESSION: only the user's first session is touched. */
  function Updated(s: seq<Session>, ev: SessionEvent, now: int): seq<Session> {
    var mine := UserSessions(s, ev.userId);
    if mine == [] then s else Replaced(s, Touched(mine[0], ev, now))
  }

  /** The store after SAVE_SESSION: one new session at the end. */
  function Saved(s: seq<Session>, nextId: Id, ev: SessionEvent): seq<Session> {
    s + [NewSession(ev).(id := nextId)]
  }

  /** The store after DELETE_SESSION or EXPIRE_SESSION: the session found by hash, if any, is removed. */
  function DeletedByHash(s: seq<Session>, hash: string): seq<Session> {
    match FirstWithHash(s, hash)
    case None => s
    case Some(x) => Without(s, {x.id})
  }

  lemma {:induction false} WithoutNothing(s: seq<Session>)
    ensures Without(s, {}) == s
  {
    if s != [] {
      WithoutNothing(s[1..]);
    }
  }

  lemma {:induction false} UserSessionsAppend(s: seq<Session>, x: Session, u: string)
    ensures UserSessions(s + [x], u) == UserSessions(s, u) + (if x.userId == u then [x] else [])
    ensures Others(s + [x], u) == Others(s, u) + (if x.userId != u then [x] else [])
  {
    if s != [] {
      assert (s + [x])[1..] == s[1..] + [x];
      UserSessionsAppend(s[1..], x, u);
    } else {
      assert [x][1..] == [];
    }
  }

  lemma {:induction false} SameIdSameSession(s: seq<Session>, a: Session, b: Session)
    requires UniqueIds(s) && a in s && b in s && a.id == b.id
    ensures a == b
  {
    if a != s[0] && b != s[0] {
      SameIdSameSession(s[1..], a, b);
    }
  }

  /** Removing one stored id removes exactly one session. */
  lemma {:induction false} WithoutOneId(s: seq<Session>, x: Session)
    requires UniqueIds(s) && x in s
    ensures |Without(s, {x.id})| == |s| - 1
  {
    if s[0] == x {
      WithoutNothing(s[1..]);
      WithoutCongruent(s[1..], {x.id}, {});
    } else {
      WithoutOneId(s[1..], x);
    }
  }

  /**
   * After an upsert the user has exactly one session. It holds the event's
   * hash, expiry, address and agent; it is the user's former first session
   * with its last access refreshed, or, for a user without one, a new
   * session created and last accessed at the event timestamp.
   */
  lemma {:induction false} UpsertLeavesOneSession(s: seq<Session>, nextId: Id, ev: SessionEvent, now: int)
    ensures |UserSessions(Upserted(s, nextId, ev, now), ev.userId)| == 1
    ensures var x := UserSessions(Upserted(s, nextId, ev, now), ev.userId)[0];
      x.hashedToken == ev.hashedSessionId && x.expiresAt == ev.expiresAt
      && x.ipAddress == ev.ipAddress && x.userAgent == ev.userAgent
      && if UserSessions(s, ev.userId) == [] then
           x.id == nextId && x.createdAt == ev.timestamp && x.lastAccessedAt == ev.timestamp
         else
           var old0 := UserSessions(s, ev.userId)[0];
           x.id == old0.id && x.createdAt == old0.createdAt && x.lastAccessedAt == now
  {
    var u := ev.userId;
    var mine := UserSessions(s, u);
    if mine == [] {
      UserSessionsAppend(s, NewSession(ev).(id := nextId), u);
    } else {
      assert mine[0] in s;
      CollapseUserSessions(s, u, Refreshed(mine[0], ev, now));
    }
  }

  /** An upsert leaves every other user's sessions as they were, in the same order. */
  lemma {:induction false} UpsertKeepsOthers(s: seq<Session>, nextId: Id, ev: SessionEvent, now: int)
    ensures Others(Upserted(s, nextId, ev, now), ev.userId) == Others(s, ev.userId)
  {
    var u := ev.userId;
    var mine := UserSessions(s, u);
    if mine == [] {
      UserSessionsAppend(s, NewSession(ev).(id := nextId), u);
    } else {
      assert mine[0] in s;
      CollapseUserSessions(s, u, Refreshed(mine[0], ev, now));
    }
  }

  /**
   * Upserting the same event twice leaves the same single session as once,
   * apart from its last-access time, and the same sessions for everyone else.
   */
  lemma {:induction false} UpsertIdempotent(s: seq<Session>, id1: Id, id2: Id, ev: SessionEvent, now1: int, now2: int)
    ensures var once := Upserted(s, id1, ev, now1);
      var twice := Upserted(once, id2, ev, now2);
      |UserSessions(once, ev.userId)| == 1
      && UserSessions(twice, ev.userId) == [UserSessions(once, ev.userId)[0].(lastAccessedAt := now2)]
      && Others(twice, ev.userId) == Others(once, ev.userId)
  {
    var u := ev.userId;
    var once := Upserted(s, id1, ev, now1);
    UpsertLeavesOneSession(s, id1, ev, now1);
    var x := UserSessions(once, u)[0];
    assert x in once;
    assert Refreshed(x, ev, now2) == x.(lastAccessedAt := now2);
    CollapseUserSessions(once, u, Refreshed(x, ev, now2));
  }

  /**
   * An update changes no session's id, owner, hash, expiry or creation time,
   * and keeps the number of sessions; with no session for the user it changes
   * nothing, and otherwise only the user's first session is touched.
   */
  lemma {:induction false} UpdateTouchesOnlyFirst(s: seq<Session>, ev: SessionEvent, now: int)
    requires UniqueIds(s)
    ensures var r := Updated(s, ev, now);
      |r| == |s|
      && (forall k :: 0 <= k < |s| ==>
            r[k].id == s[k].id && r[k].userId == s[k].userId && r[k].hashedToken == s[k].hashedToken
            && r[k].expiresAt == s[k].expiresAt && r[k].createdAt == s[k].createdAt)
      && (UserSessions(s, ev.userId) == [] ==> r == s)
      && (UserSessions(s, ev.userId) != [] ==>
            forall k :: 0 <= k < |s| ==>
              if s[k] == UserSessions(s, ev.userId)[0] then
                r[k].lastAccessedAt == now
                && r[k].ipAddress == (if ev.ipAddress.Some? then ev.ipAddress else s[k].ipAddress)
                && r[k].userAgent == (if ev.userAgent.Some? then ev.userAgent else s[k].userAgent)
              else r[k] == s[k])
  {
    var mine := UserSessions(s, ev.userId);
    if mine != [] {
      assert mine[0] in s;
      forall k | 0 <= k < |s| && s[k].id == mine[0].id
        ensures s[k] == mine[0]
      {
        SameIdSameSession(s, s[k], mine[0]);
      }
    }
  }

  /**
   * A save appends exactly one session and leaves the others alone, so the
   * user ends up with one more session than before: no de-duplication.
   */
  lemma {:induction false} SaveAppendsOne(s: seq<Session>, nextId: Id, ev: SessionEvent)
    ensures var r := Saved(s, nextId, ev);
      |r| == |s| + 1 && r[..|s|] == s && r[|s|] == NewSession(ev).(id := nextId)
      && |UserSessions(r, ev.userId)| == |UserSessions(s, ev.userId)| + 1
  {
    var r := Saved(s, nextId, ev);
    assert r[..|s|] == s;
    UserSessionsAppend(s, NewSession(ev).(id := nextId), ev.userId);
  }

  /**
   * A delete by hash removes at most one session: the first one holding the
   * hash, if there is one, and otherwise nothing. Nothing but the hash
   * selects it; the owner and the expiry play no part.
   */
  lemma {:induction false} DeleteRemovesAtMostOne(s: seq<Session>, hash: string)
    requires UniqueIds(s)
    ensures var r := DeletedByHash(s, hash);
      (FirstWithHash(s, hash).None? ==> r == s)
      && (FirstWithHash(s, hash).Some? ==>
            |r| == |s| - 1
            && FirstWithHash(s, hash).value !in r
            && forall x :: x in s && x != FirstWithHash(s, hash).value ==> x in r)
  {
    match FirstWithHash(s, hash)
    case None =>
    case Some(x) =>
      WithoutOneId(s, x);
      forall y | y in s && y != x
        ensures y in Without(s, {x.id})
      {
        if y.id == x.id {
          SameIdSameSession(s, x, y);
        }
      }
  }

  /** UpsertSessionStrategy: refresh the first session and delete the rest, or create one. */
  class UpsertSessionStrategy {
    const repo: SessionRepository

    constructor (repo: SessionRepository)
      ensures this.repo == repo
    {
      this.repo := repo;
    }

    method Execute(ev: SessionEvent, now: int)
      requires repo.Valid()
      modifies repo
      ensures repo.Valid()
      ensures repo.sessions == Upserted(old(repo.sessions), old(repo.nextId), ev, now)
      ensures repo.nextId == old(repo.nextId) + if UserSessions(old(repo.sessions), ev.userId) == [] then 1 else 0
    {
      var existing := repo.FindByUserId(ev.userId);
      ghost var s0 := repo.sessions;
      if existing != [] {
        var first := Refreshed(existing[0], ev, now);
        assert existing[0] in repo.sessions;
        repo.Save(first);
        if |existing| > 1 {
          DeleteDuplicates(existing);
        } else {
          WithoutNothing(repo.sessions);
          assert IdsOf(existing[1..]) == {};
        }
        assert repo.sessions == Without(Replaced(s0, first), IdsOf(existing[1..]));
        ReplaceThenDeleteRest(s0, ev.userId, first);
        assert Upserted(s0, old(repo.nextId), ev, now) == CollapseUser(s0, ev.userId, first);
      } else {
        var saved := repo.Insert(NewSession(ev));
        assert saved == NewSession(ev).(id := old(repo.nextId));
      }
    }

    /** The ids of the sessions at positions 1 up to `i` (exclusive) of the list. */
    static ghost function PrefixIds(existing: seq<Session>, i: nat): set<Id>
      requires i <= |existing|
    {
      if i <= 1 then {} else PrefixIds(existing, i - 1) + {existing[i - 1].id}
    }

    static lemma {:induction false} PrefixIdsAreIds(existing: seq<Session>, i: nat)
      requires 1 <= i <= |existing|
      ensures PrefixIds(existing, i) == IdsOf(existing[1..i])
    {
      if i > 1 {
        PrefixIdsAreIds(existing, i - 1);
        assert existing[1..i] == existing[1..i - 1] + [existing[i - 1]];
        IdsOfAppend(existing[1..i - 1], existing[i - 1]);
      }
    }

    /** The loop that deletes every session of the list but the first, one by one. */
    method DeleteDuplicates(existing: seq<Session>)
      requires repo.Valid() && |existing| > 1
      modifies repo
      ensures repo.Valid() && repo.nextId == old(repo.nextId)
      ensures repo.sessions == Without(old(repo.sessions), IdsOf(existing[1..]))
    {
      ghost var s0 := repo.sessions;
      WithoutNothing(s0);
      for i := 1 to |existing|
        invariant repo.Valid() && repo.nextId == old(repo.nextId)
        invariant repo.sessions == Without(s0, PrefixIds(existing, i))
      {
        WithoutWithout(s0, PrefixIds(existing, i), {existing[i].id});
        repo.Delete(existing[i]);
      }
      PrefixIdsAreIds(existing, |existing|);
      assert existing[1..|existing|] == existing[1..];
    }
  }

  /** UpdateSessionStrategy: refresh the first session's last access, address and agent. */
  class UpdateSessionStrategy {
    const repo: SessionRepository

    constructor (repo: SessionRepository)
      ensures this.repo == repo
    {
      this.repo := repo;
    }

    method Execute(ev: SessionEvent, now: int)
      requires repo.Valid()
      modifies repo
      ensures repo.Valid() && repo.nextId == old(repo.nextId)
      ensures repo.sessions == Updated(old(repo.sessions), ev, now)
    {
      var existing := repo.FindByUserId(ev.userId);
      if existing != [] {
        var session := existing[0].(lastAccessedAt := now);
        if ev.ipAddress.Some? {
          session := session.(ipAddress := ev.ipAddress);
        }
        if ev.userAgent.Some? {
          session := session.(userAgent := ev.userAgent);
        }
        assert existing[0] in repo.sessions;
        repo.Save(session);
      }
    }
  }

  /** SaveSessionStrategy: insert a new session built from the event. */
  class SaveSessionStrategy {
    const repo: SessionRepository

    constructor (repo: SessionRepository)
      ensures this.repo == repo
    {
      this.repo := repo;
    }

    method Execute(ev: SessionEvent)
      requires repo.Valid()
      modifies repo
      ensures repo.Valid() && repo.nextId == old(repo.nextId) + 1
      ensures repo.sessions == Saved(old(repo.sessions), old(repo.nextId), ev)
    {
      var _ := repo.Insert(NewSession(ev));
    }
  }

  /** DeleteSessionStrategy: delete the session found by the event's hash, or only log. */
  class DeleteSessionStrategy {
    const repo: SessionRepository

    constructor (repo: SessionRepository)
      ensures this.repo == repo
    {
      this.repo := repo;
    }

    method Execute(ev: SessionEvent)
      requires repo.Valid()
      modifies repo
      ensures repo.Valid() && repo.nextId == old(repo.nextId)
      ensures repo.sessions == DeletedByHash(old(repo.sessions), ev.hashedSessionId)
    {
      var found := repo.FindByHash(ev.hashedSessionId);
      if found.Some? {
        repo.Delete(found.value);
      }
    }
  }

  /** ExpireSessionStrategy: the same lookup and delete as DeleteSessionStrategy; expiry is not checked. */
  class ExpireSessionStrategy {
    const repo: SessionRepository

    constructor (repo: SessionRepository)
      ensures this.repo == repo
    {
      this.repo := repo;
    }

    method Execute(ev: SessionEvent)
      requires repo.Valid()
      modifies repo
      ensures repo.Valid() && repo.nextId == old(repo.nextId)
      ensures repo.sessions == DeletedByHash(old(repo.sessions), ev.hashedSessionId)
    {
      var found := repo.FindByHash(ev.hashedSessionId);
      if found.Some? {
        repo.Delete(found.value);
      }
    }
  }
}

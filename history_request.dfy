/**
 * HistoryRequest: the conversation-history query after its compact
 * constructor, with the validity checks and the helpers that pick how each
 * participant is identified.
 */
module HistoryRequests {
  import opened Common

  /** Default page size and offset. */
  const DefaultLimit: int := 50
  const DefaultOffset: int := 0

  datatype HistoryRequest = HistoryRequest(
    user1Id: Option<string>,
    user2Id: Option<string>,
    user2Username: Option<string>,
    limit: int,
    offset: int)

  function TrimOpt(s: Option<string>): Option<string> {
    match s
    case None => None
    case Some(v) => Some(Trim(v))
  }

  function TrimLowerOpt(s: Option<string>): Option<string> {
    match s
    case None => None
    case Some(v) => Some(TrimLower(v))
  }

  /**
   * The compact constructor: ids are trimmed, the user name is trimmed and
   * lower-cased, a null limit is 50 and a null offset 0; nulls stay null.
   */
  function NewHistoryRequest(user1Id: Option<string>, user2Id: Option<string>, user2Username: Option<string>,
                             limit: Option<int>, offset: Option<int>): (r: HistoryRequest)
    ensures r.user1Id.Some? <==> user1Id.Some?
    ensures r.user2Id.Some? <==> user2Id.Some?
    ensures r.user2Username.Some? <==> user2Username.Some?
    ensures user1Id.Some? ==> r.user1Id.value == Trim(user1Id.value)
    ensures user2Id.Some? ==> r.user2Id.value == Trim(user2Id.value)
    ensures user2Username.Some? ==> r.user2Username.value == TrimLower(user2Username.value)
    ensures r.limit == limit.GetOr(DefaultLimit) && r.offset == offset.GetOr(DefaultOffset)
  {
    HistoryRequest(TrimOpt(user1Id), TrimOpt(user2Id), TrimLowerOpt(user2Username),
                   limit.GetOr(DefaultLimit), offset.GetOr(DefaultOffset))
  }

  /** `s != null && !s.trim().isEmpty()`: not null and holding a character above U+0020. */
  predicate IsPresent(s: Option<string>): (b: bool)
    ensures b <==> s.Some? && !IsBlank(s.value)
  {
    if s.None? then false
    else
      TrimEmptyIffBlank(s.value);
      Trim(s.value) != []
  }

  /** isUser1Valid */
  predicate IsUser1Valid(r: HistoryRequest): (b: bool)
    ensures b <==> r.user1Id.Some? && !IsBlank(r.user1Id.value)
  {
    IsPresent(r.user1Id)
  }

  /** isUser2Valid: a non-blank user id or a non-blank user name is given. */
  predicate IsUser2Valid(r: HistoryRequest): (b: bool)
    ensures b <==> (r.user2Id.Some? && !IsBlank(r.user2Id.value)) || (r.user2Username.Some? && !IsBlank(r.user2Username.value))
  {
    IsPresent(r.user2Id) || IsPresent(r.user2Username)
  }

  /** isUser2ByUserId: the second participant is named by id exactly when a non-blank id is given. */
  predicate IsUser2ByUserId(r: HistoryRequest): (b: bool)
    ensures b <==> r.user2Id.Some? && !IsBlank(r.user2Id.value)
    ensures b ==> IsUser2Valid(r)
  {
    IsPresent(r.user2Id)
  }

  /** getUser1PrimaryId */
  function User1PrimaryId(r: HistoryRequest): Option<string> {
    r.user1Id
  }

  /** getUser2PrimaryId: the non-blank id if there is one, else the user name. */
  function User2PrimaryId(r: HistoryRequest): (id: Option<string>)
    ensures IsUser2ByUserId(r) ==> id == r.user2Id
    ensures !IsUser2ByUserId(r) ==> id == r.user2Username
  {
    if IsPresent(r.user2Id) then r.user2Id else r.user2Username
  }

  /** A request that passes both checks names each participant by something non-blank. */
  lemma ValidRequestHasPrimaryIds(r: HistoryRequest)
    requires IsUser1Valid(r) && IsUser2Valid(r)
    ensures IsPresent(User1PrimaryId(r)) && IsPresent(User2PrimaryId(r))
  {
  }

  /** Trimming, and lower-casing, neither make a blank value present nor a present one blank. */
  lemma PresenceSurvivesNormalisation(s: Option<string>)
    ensures IsPresent(TrimOpt(s)) <==> IsPresent(s)
    ensures IsPresent(TrimLowerOpt(s)) <==> IsPresent(s)
  {
    if s.Some? {
      TrimIdempotent(s.value);
      TrimLowerKeepsLength(s.value);
    }
  }

  /** A trimmed and lower-cased value is already trimmed, and is empty exactly when the trimmed value is. */
  lemma TrimLowerKeepsLength(s: string)
    ensures Trim(TrimLower(s)) == TrimLower(s)
    ensures TrimLower(s) == [] <==> Trim(s) == []
  {
    var l := TrimLower(s);
    TrimLowerIsLowerCase(s);
    TrimStartIdempotent(l);
    TrimEndIdempotent(l);
  }

  /**
   * The checks run on the constructed request; they reach the same verdict
   * as they would on the raw fields.
   */
  lemma ValidityIsDecidedByRawFields(user1Id: Option<string>, user2Id: Option<string>, user2Username: Option<string>,
                                     limit: Option<int>, offset: Option<int>)
    ensures var r := NewHistoryRequest(user1Id, user2Id, user2Username, limit, offset);
      && (IsUser1Valid(r) <==> IsPresent(user1Id))
      && (IsUser2Valid(r) <==> IsPresent(user2Id) || IsPresent(user2Username))
      && (IsUser2ByUserId(r) <==> IsPresent(user2Id))
  {
    PresenceSurvivesNormalisation(user1Id);
    PresenceSurvivesNormalisation(user2Id);
    PresenceSurvivesNormalisation(user2Username);
  }

  lemma TrimStartIdempotent(s: string)
    requires s == [] || !IsTrimmable(s[0])
    ensures TrimStart(s) == s
  {
  }

  lemma TrimEndIdempotent(s: string)
    requires s == [] || !IsTrimmable(s[|s| - 1])
    ensures TrimEnd(s) == s
  {
  }

  lemma TrimIdempotent(s: string)
    ensures Trim(Trim(s)) == Trim(s)
  {
    var t := Trim(s);
    TrimStartIdempotent(t);
    TrimEndIdempotent(t);
  }

  /** Lower-casing a trimmed string keeps it trimmed and is itself idempotent. */
  lemma TrimLowerIdempotent(s: string)
    ensures TrimLower(TrimLower(s)) == TrimLower(s)
  {
    var l := TrimLower(s);
    TrimLowerIsLowerCase(s);
    TrimStartIdempotent(l);
    TrimEndIdempotent(l);
    assert Trim(l) == l;
    forall i | 0 <= i < |l|
      ensures ToLowerAscii(l)[i] == l[i]
    {
      assert !('A' <= l[i] <= 'Z');
    }
  }

  /** Constructing a request from a constructed request's fields changes nothing. */
  lemma NormalisationIsIdempotent(user1Id: Option<string>, user2Id: Option<string>, user2Username: Option<string>,
                                  limit: Option<int>, offset: Option<int>)
    ensures var r := NewHistoryRequest(user1Id, user2Id, user2Username, limit, offset);
      NewHistoryRequest(r.user1Id, r.user2Id, r.user2Username, Some(r.limit), Some(r.offset)) == r
  {
    if user1Id.Some? { TrimIdempotent(user1Id.value); }
    if user2Id.Some? { TrimIdempotent(user2Id.value); }
    if user2Username.Some? { TrimLowerIdempotent(user2Username.value); }
  }
}

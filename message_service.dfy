/**
 * The command service's MessageService: it resolves the two participants of
 * a conversation, derives the thread id both directions share, publishes a
 * send command, and reads a thread back whole or a page at a time.
 */
module MessageService {
  import opened Common
  import opened Decimal
  import opened Events
  import opened Kafka
  import opened KafkaProducer
  import opened ServiceErrors
  import opened UserStore
  import opened MessageStore
  import opened HistoryRequests
  import Retry
  import MessageConsumer

  /**
   * createThreadId: the two ids joined by "-", the one that does not compare
   * greater first, so that both participants name the same thread.
   */
  function CreateThreadId(a: string, b: string): (r: string)
    ensures (r == a + "-" + b && CompareTo(a, b) <= 0) || (r == b + "-" + a && CompareTo(b, a) <= 0)
  {
    CompareToAntisymmetric(a, b);
    if CompareTo(a, b) < 0 then a + "-" + b else b + "-" + a
  }

  /** Either participant derives the same thread id. */
  lemma ThreadIdSymmetric(a: string, b: string)
    ensures CreateThreadId(a, b) == CreateThreadId(b, a)
  {
    CompareToAntisymmetric(a, b);
  }

  /**
   * A name outside the Basic Multilingual Plane sorts by its high surrogate,
   * so it can come before a name that is greater by code point.
   */
  lemma ThreadIdOrdersByCodeUnit()
    ensures CreateThreadId("\U{FFFF}", "\U{1F600}") == "\U{1F600}-\U{FFFF}"
  {
    CompareToUsesCodeUnits();
    CompareToAntisymmetric("\U{FFFF}", "\U{1F600}");
  }

  /** Integer division as Java performs it on two ints: towards zero, and MIN_VALUE / -1 wraps to MIN_VALUE. */
  function JavaDiv(a: int, b: int): (q: int)
    requires IsInt32(a) && IsInt32(b) && b != 0
    ensures IsInt32(q)
    ensures a >= 0 && b > 0 ==> q == a / b
    ensures b > 0 ==> (q < 0 <==> a <= -b)
  {
    if a == MinInt32 && b == -1 then MinInt32
    else
      var n := if a < 0 then -a else a;
      var d := if b < 0 then -b else b;
      DivFacts(n, d);
      if (a < 0) != (b < 0) then -(n / d) else n / d
  }

  /** The quotient of two naturals is at most the dividend, and positive exactly when the divisor fits. */
  lemma DivFacts(n: nat, d: nat)
    requires d >= 1
    ensures 0 <= n / d <= n
    ensures n / d >= 1 <==> n >= d
  {
    var q := n / d;
    var r := n % d;
    assert n == d * q + r && 0 <= r < d;
    MulBounds(d, q);
  }

  lemma MulBounds(d: int, x: int)
    requires d >= 1
    ensures x >= 1 ==> d * x >= d && d * x >= x
    ensures x <= -1 ==> d * x <= -d
    ensures x == 0 ==> d * x == 0
  {
    if x >= 1 {
      assert d * x == d * (x - 1) + d;
      assert d * x == (d - 1) * x + x;
    } else if x <= -1 {
      assert d * x == d * (x + 1) - d;
    }
  }

  /** ThreadNotFoundException.forUsers */
  function ThreadNotFoundMessage(user1Id: string, user2Id: string): string {
    "Thread not found between users " + user1Id + " and " + user2Id
  }

  /** MessageRequest after its compact constructor has run on the fields. */
  datatype MessageRequest = MessageRequest(recipient: string, content: string)

  /** MessageCommand.create: a SEND_MESSAGE command stamped with the current time. */
  function SendCommand(threadId: string, senderId: string, senderUsername: string, content: string, now: int)
    : (ev: MessageCommandEvent)
    ensures ev.command == SendMessage
    ensures MessageOf(ev) == StoredMessage(threadId, senderId, senderUsername, content, now, SentStatus)
  {
    MessageCommandEvent(SendMessage, threadId, senderId, senderUsername, content, now)
  }

  /** PaginatedResponse: one page, the thread's size, and the limit and offset as requested. */
  datatype PaginatedResponse = PaginatedResponse(data: seq<StoredMessage>, total: nat, limit: int, offset: int)

  /** ConversationSecurityInfo */
  datatype ConversationSecurityInfo = ConversationSecurityInfo(user1Id: string, user2Id: string) {
    /** isUserPartOfConversation */
    predicate IsUserPartOfConversation(u: string) {
      u == user1Id || u == user2Id
    }
  }

  /** The first document of the page that holds the `offset`-th message starts at (offset / limit) * limit. */
  lemma PageContainsOffset(ms: seq<StoredMessage>, offset: int, limit: int)
    requires IsInt32(offset) && IsInt32(limit) && 0 <= offset < |ms| && limit >= 1
    ensures var p := JavaDiv(offset, limit);
      && p >= 0 && p * limit <= offset
      && 0 <= offset - p * limit < |Page(ms, p, limit)|
      && ms[offset] == Page(ms, p, limit)[offset - p * limit]
      && ms[offset] in Page(ms, p, limit)
  {
    var p := JavaDiv(offset, limit);
    assert p == offset / limit;
    assert p * limit <= offset < p * limit + limit;
    var page := Page(ms, p, limit);
    var k := offset - p * limit;
    if p * limit + limit <= |ms| {
      assert page == ms[p * limit..p * limit + limit];
    } else {
      assert page == ms[p * limit..];
    }
    assert page[k] == ms[p * limit + k];
  }

  /**
   * The body of getConversationPaginated once both ids are known: page
   * offset / limit, of size limit, of the thread oldest first, with the
   * thread's size. A zero limit divides by zero, a negative page or a size
   * below one is refused by PageRequest, and an empty thread is an error.
   */
  function PageOfThread(stored: seq<StoredMessage>, user1Id: string, user2Id: string, limit: int, offset: int)
    : (r: Result<PaginatedResponse, ServiceError>)
    requires IsInt32(limit) && IsInt32(offset)
    ensures limit == 0 ==> r == Err(Arithmetic("/ by zero"))
    ensures limit != 0 && JavaDiv(offset, limit) < 0 ==> r == Err(InvalidArgument("Page index must not be less than zero"))
    ensures limit < 0 && JavaDiv(offset, limit) >= 0 ==> r == Err(InvalidArgument("Page size must not be less than one"))
    ensures limit > 0 && offset > -limit ==>
              && (r.Err? <==> InThread(stored, CreateThreadId(user1Id, user2Id)) == [])
              && (r.Err? ==> r.error == ThreadNotFound(ThreadNotFoundMessage(user1Id, user2Id)))
    ensures r.Ok? ==>
              && r.value.total == |InThread(stored, CreateThreadId(user1Id, user2Id))| > 0
              && r.value.limit == limit && r.value.offset == offset
              && |r.value.data| <= limit
    ensures r.Ok? ==>
              && limit >= 1 && JavaDiv(offset, limit) >= 0
              && r.value.data == Page(SortByTimestamp(InThread(stored, CreateThreadId(user1Id, user2Id))), JavaDiv(offset, limit), limit)
  {
    var threadId := CreateThreadId(user1Id, user2Id);
    if limit == 0 then Err(Arithmetic("/ by zero"))
    else
      var page := JavaDiv(offset, limit);
      if page < 0 then Err(InvalidArgument("Page index must not be less than zero"))
      else if limit < 1 then Err(InvalidArgument("Page size must not be less than one"))
      else
        var thread := InThread(stored, threadId);
        if |thread| == 0 then Err(ThreadNotFound(ThreadNotFoundMessage(user1Id, user2Id)))
        else Ok(PaginatedResponse(Page(SortByTimestamp(thread), page, limit), |thread|, limit, offset))
  }

  /**
   * A page holds messages of the thread only, oldest first, and the page the
   * offset selects holds the offset-th message of the thread.
   */
  lemma PageOfThreadHoldsTheOffset(stored: seq<StoredMessage>, user1Id: string, user2Id: string, limit: int, offset: int)
    requires IsInt32(limit) && IsInt32(offset)
    requires PageOfThread(stored, user1Id, user2Id, limit, offset).Ok?
    ensures var data := PageOfThread(stored, user1Id, user2Id, limit, offset).value.data;
      var thread := InThread(stored, CreateThreadId(user1Id, user2Id));
      && SortedByTimestamp(data)
      && (forall m :: m in data ==> m in stored && m.threadId == CreateThreadId(user1Id, user2Id))
      && (0 <= offset < |thread| ==> SortByTimestamp(thread)[offset] in data)
  {
    var thread := InThread(stored, CreateThreadId(user1Id, user2Id));
    var sorted := SortByTimestamp(thread);
    assert limit >= 1;
    var page := JavaDiv(offset, limit);
    assert page >= 0;
    var data := PageOfThread(stored, user1Id, user2Id, limit, offset).value.data;
    assert data == Page(sorted, page, limit);
    SortByTimestampSorts(thread);
    PageIsSortedPart(sorted, page, limit);
    forall m | m in data
      ensures m in stored && m.threadId == CreateThreadId(user1Id, user2Id)
    {
      assert m in sorted;
      assert m in thread;
    }
    if 0 <= offset < |thread| {
      PageContainsOffset(sorted, offset, limit);
    }
  }

  class MessageService {
    const users: UserRepository
    const messages: MessageRepository
    const producer: KafkaProducerService

    constructor (users: UserRepository, messages: MessageRepository, producer: KafkaProducerService)
      ensures this.users == users && this.messages == messages && this.producer == producer
    {
      this.users := users;
      this.messages := messages;
      this.producer := producer;
    }

    /**
     * resolveUserId: an id is returned unchanged once a user carries it; a
     * user name is replaced by its user's id; a missing user is an error.
     * Spring Data refuses a null id outright.
     */
    function ResolveUserId(identifier: Option<string>, byId: bool): (r: Result<string, ServiceError>)
      reads users
      ensures byId && identifier.None? ==> r == Err(InvalidArgument("The given id must not be null"))
      ensures !byId && identifier.None? ==> r == Err(UserNotFound("User not found: null"))
      ensures identifier.Some? && byId ==>
                && (r.Ok? <==> exists u :: u in users.users && u.id == identifier.value)
                && (r.Ok? ==> r.value == identifier.value)
      ensures identifier.Some? && !byId ==>
                && (r.Ok? <==> exists u :: u in users.users && u.username == identifier.value)
                && (r.Ok? ==> exists u :: u in users.users && u.username == identifier.value && u.id == r.value)
      ensures identifier.Some? && r.Err? ==> r == Err(UserNotFound("User not found: " + identifier.value))
    {
      match identifier
      case None => if byId then Err(InvalidArgument("The given id must not be null")) else Err(UserNotFound("User not found: null"))
      case Some(id) =>
        if byId then
          if users.FindById(id).None? then Err(UserNotFound("User not found: " + id)) else Ok(id)
        else
          match users.FindByUsername(id)
          case None => Err(UserNotFound("User not found: " + id))
          case Some(u) => Ok(u.id)
    }

    /** The two resolutions every history operation starts with: user 1 by id, user 2 by id or name. */
    function ResolveBoth(request: HistoryRequest): (r: Result<(string, string), ServiceError>)
      reads users
      ensures r.Ok? <==> ResolveUserId(User1PrimaryId(request), true).Ok? && ResolveUserId(User2PrimaryId(request), IsUser2ByUserId(request)).Ok?
      ensures r.Ok? ==> r.value.0 == request.user1Id.value
      ensures r.Ok? ==> r.value.1 == ResolveUserId(User2PrimaryId(request), IsUser2ByUserId(request)).value
      ensures ResolveUserId(User1PrimaryId(request), true).Err? ==> r == Err(ResolveUserId(User1PrimaryId(request), true).error)
    {
      match ResolveUserId(User1PrimaryId(request), true)
      case Err(e) => Err(e)
      case Ok(id1) =>
        match ResolveUserId(User2PrimaryId(request), IsUser2ByUserId(request))
        case Err(e) => Err(e)
        case Ok(id2) => Ok((id1, id2))
    }

    /**
     * getConversation(userId1, userId2): both users must exist; the thread's
     * messages oldest first; an empty thread is an error, not an empty list.
     */
    function ConversationOf(user1Id: string, user2Id: string): (r: Result<seq<StoredMessage>, ServiceError>)
      reads users, messages
      ensures users.FindById(user1Id).None? || users.FindById(user2Id).None? ==> r == Err(UserNotFound("One or both users not found"))
      ensures users.FindById(user1Id).Some? && users.FindById(user2Id).Some? ==>
                (r == Err(ThreadNotFound(ThreadNotFoundMessage(user1Id, user2Id))) <==> InThread(messages.messages, CreateThreadId(user1Id, user2Id)) == [])
      ensures r.Ok? ==>
                && r.value != []
                && SortedByTimestamp(r.value)
                && multiset(r.value) == multiset(InThread(messages.messages, CreateThreadId(user1Id, user2Id)))
                && forall m :: m in r.value <==> m in messages.messages && m.threadId == CreateThreadId(user1Id, user2Id)
    {
      if users.FindById(user1Id).None? || users.FindById(user2Id).None? then Err(UserNotFound("One or both users not found"))
      else
        var thread := InThread(messages.messages, CreateThreadId(user1Id, user2Id));
        SortByTimestampSorts(thread);
        var list := messages.FindByThread(CreateThreadId(user1Id, user2Id));
        if list == [] then Err(ThreadNotFound(ThreadNotFoundMessage(user1Id, user2Id))) else Ok(list)
    }

    /** getConversation(request): the participants are resolved, then the thread is read. */
    function Conversation(request: HistoryRequest): (r: Result<seq<StoredMessage>, ServiceError>)
      reads users, messages
      ensures ResolveBoth(request).Err? ==> r == Err(ResolveBoth(request).error)
      ensures ResolveBoth(request).Ok? ==> r == ConversationOf(ResolveBoth(request).value.0, ResolveBoth(request).value.1)
    {
      match ResolveBoth(request)
      case Err(e) => Err(e)
      case Ok(ids) => ConversationOf(ids.0, ids.1)
    }

    /** getConversationPaginated: the participants are resolved, then one page of their thread is read. */
    function ConversationPaginated(request: HistoryRequest): (r: Result<PaginatedResponse, ServiceError>)
      requires IsInt32(request.limit) && IsInt32(request.offset)
      reads users, messages
      ensures ResolveBoth(request).Err? ==> r == Err(ResolveBoth(request).error)
      ensures ResolveBoth(request).Ok? ==>
                r == PageOfThread(messages.messages, ResolveBoth(request).value.0, ResolveBoth(request).value.1, request.limit, request.offset)
    {
      match ResolveBoth(request)
      case Err(e) => Err(e)
      case Ok(ids) => PageOfThread(messages.messages, ids.0, ids.1, request.limit, request.offset)
    }

    /** getConversationSecurityInfo: the two resolved ids. */
    function SecurityInfo(request: HistoryRequest): (r: Result<ConversationSecurityInfo, ServiceError>)
      reads users
      ensures r.Ok? <==> ResolveBoth(request).Ok?
      ensures r.Ok? ==> r.value.user1Id == request.user1Id.value
                        && r.value.user2Id == ResolveBoth(request).value.1
      ensures r.Err? ==> r.error == ResolveBoth(request).error
    {
      match ResolveBoth(request)
      case Err(e) => Err(e)
      case Ok(ids) => Ok(ConversationSecurityInfo(ids.0, ids.1))
    }

    /**
     * sendMessage: the sender must exist by id and the recipient by its
     * normalised name; then one SEND_MESSAGE command on the message topic,
     * keyed by the sender, and the document the consumer will store for it.
     */
    method SendMessage(senderId: string, request: MessageRequest, now: int, fault: ProducerFault)
      returns (r: Result<StoredMessage, ServiceError>)
      modifies producer.broker
      ensures users.FindById(senderId).None? ==>
                r == Err(UserNotFound("Sender not found: " + senderId)) && producer.broker.log == old(producer.broker.log)
      ensures users.FindById(senderId).Some? && users.FindByUsername(TrimLower(request.recipient)).None? ==>
                && r == Err(UserNotFound("Recipient not found: " + TrimLower(request.recipient)))
                && producer.broker.log == old(producer.broker.log)
      ensures r.Ok? <==> users.FindById(senderId).Some? && users.FindByUsername(TrimLower(request.recipient)).Some? && fault.NoFault?
      ensures r.Err? ==> producer.broker.log == old(producer.broker.log)
      ensures r.Err? && r.error.PublishFailed? ==> r.error.error == ErrorFor(MessageCommand, fault)
      ensures r.Ok? ==>
                && r.value.senderId == senderId
                && r.value.senderUsername == users.FindById(senderId).value.username
                && r.value.content == Trim(request.content)
                && r.value.timestamp == now && r.value.status == SentStatus
                && r.value.threadId == CreateThreadId(senderId, users.FindByUsername(TrimLower(request.recipient)).value.id)
                && producer.broker.log == old(producer.broker.log) + [Record(TopicFor(producer.topics, MessageCommand), Some(senderId),
                     MessagePayload(SendCommand(r.value.threadId, senderId, r.value.senderUsername, r.value.content, now)), None)]
    {
      var recipient := TrimLower(request.recipient);
      var content := Trim(request.content);
      var sender := users.FindById(senderId);
      if sender.None? {
        return Err(UserNotFound("Sender not found: " + senderId));
      }
      var recipientUser := users.FindByUsername(recipient);
      if recipientUser.None? {
        return Err(UserNotFound("Recipient not found: " + recipient));
      }
      var senderUsername := sender.value.username;
      var threadId := CreateThreadId(senderId, recipientUser.value.id);
      var command := SendCommand(threadId, senderId, senderUsername, content, now);
      var sent := producer.Send(MessageCommand, MessagePayload(command), Some(senderId), fault);
      if sent.Err? {
        return Err(PublishFailed(sent.error));
      }
      r := Ok(StoredMessage(threadId, senderId, senderUsername, content, now, SentStatus));
      assert producer.broker.log == old(producer.broker.log) + [Record(TopicFor(producer.topics, MessageCommand), Some(senderId), MessagePayload(command), None)];
    }
  }

  /**
   * The history request the controller builds for the current user: when the
   * participants resolve, the current user is one of them, so the access check
   * never refuses the caller's own conversation.
   */
  lemma CurrentUserIsPartOfConversation(svc: MessageService, currentUserId: string, userId: Option<string>,
                                        username: Option<string>, limit: int, offset: int)
    requires Trim(currentUserId) == currentUserId
    ensures var request := NewHistoryRequest(Some(currentUserId), userId, username, Some(limit), Some(offset));
      svc.SecurityInfo(request).Ok? ==> svc.SecurityInfo(request).value.IsUserPartOfConversation(currentUserId)
  {
  }

  /**
   * The command sendMessage publishes is one the consumer stores, and the
   * stored document is listed in the thread whichever participant asks.
   */
  lemma SentMessageIsStoredAndListed(retryTopic: string, maxRetry: int, stored: seq<StoredMessage>, ev: MessageCommandEvent,
                                     senderId: string, recipientId: string)
    requires IsInt32(maxRetry) && ev.command == SendMessage && ev.threadId == CreateThreadId(senderId, recipientId)
    ensures MessageConsumer.MessageDelivery(retryTopic, MessagePayload(ev), None, maxRetry, false) == (Retry.Processed, [])
    ensures MessageOf(ev) in InThread(stored + [MessageOf(ev)], CreateThreadId(senderId, recipientId))
    ensures MessageOf(ev) in InThread(stored + [MessageOf(ev)], CreateThreadId(recipientId, senderId))
  {
    ThreadIdSymmetric(senderId, recipientId);
  }

  /** The unpaged read gives the same answer whichever participant is named first, once both exist and the thread is not empty. */
  lemma ConversationIsDirectionIndependent(svc: MessageService, a: string, b: string)
    ensures svc.ConversationOf(a, b).Ok? <==> svc.ConversationOf(b, a).Ok?
    ensures svc.ConversationOf(a, b).Ok? ==> svc.ConversationOf(a, b).value == svc.ConversationOf(b, a).value
  {
    ThreadIdSymmetric(a, b);
  }
}

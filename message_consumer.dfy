/**
 * MessageConsumerService: the listener on the message command topic. A
 * SEND_MESSAGE event becomes one stored message; anything else is only
 * logged; a failure is republished to the retry topic until the limit, after
 * which it is only logged.
 */
module MessageConsumer {
  import opened Common
  import opened Decimal
  import opened Events
  import opened Kafka
  import opened MessageStore
  import opened Retry

  /**
   * handleRetry with the count header set, as the comment above the send
   * describes: below the limit the unchanged payload goes to the retry topic
   * with the count plus one; at the limit the failure is only logged and, unlike
   * in the other consumers, nothing is thrown.
   */
  function MessageRetry(retryTopic: string, message: Payload, attempt: int, maxRetry: int, cause: Cause): (r: (Outcome, seq<Record>))
    requires IsInt32(attempt) && IsInt32(maxRetry)
    ensures r.0.Retried? <==> attempt < maxRetry
    ensures r.0.Retried? ==> r.0.attempt == attempt + 1 && |r.1| == 1 && IsRetryCopy(r.1[0], retryTopic, message, attempt + 1)
    ensures !r.0.Retried? ==> r == (GaveUp(cause), [])
  {
    match Escalate(retryTopic, message, attempt, maxRetry, cause)
    case Republish(record) => (Retried(attempt + 1), [record])
    case Exhaust(_) => (GaveUp(cause), [])
  }

  /**
   * One delivery: the header is parsed first; a payload that does not decode,
   * or a store that throws, takes the retry path; a command other than
   * SEND_MESSAGE is logged and neither saved nor retried.
   */
  function MessageDelivery(retryTopic: string, message: Payload, header: Option<string>, maxRetry: int, storeFails: bool)
    : (r: (Outcome, seq<Record>))
    requires IsInt32(maxRetry)
    ensures r.0.Processed? <==> AttemptOf(header).Some? && message.MessagePayload? && message.message.command == SendMessage && !storeFails
    ensures r.0.NotDispatched? <==> AttemptOf(header).Some? && message.MessagePayload? && message.message.command != SendMessage
    ensures !r.0.Exhausted?
    ensures r.1 != [] ==> r.0.Retried?
  {
    match AttemptOf(header)
    case None => (HeaderRejected, [])
    case Some(attempt) =>
      match DecodeMessage(message)
      case None => MessageRetry(retryTopic, message, attempt, maxRetry, DecodeFailure)
      case Some(ev) =>
        if ev.command != SendMessage then (NotDispatched, [])
        else if storeFails then MessageRetry(retryTopic, message, attempt, maxRetry, ProcessingFailure)
        else (Processed, [])
  }

  class MessageConsumerService {
    const broker: Broker
    const repo: MessageRepository
    /** KafkaRetryConfig.maxRetry */
    const maxRetry: int
    /** MessagingConfig.messageCommandsRetry */
    const retryTopic: string

    constructor (broker: Broker, repo: MessageRepository, maxRetry: int, retryTopic: string)
      requires IsInt32(maxRetry)
      ensures this.broker == broker && this.repo == repo && this.maxRetry == maxRetry && this.retryTopic == retryTopic
    {
      this.broker := broker;
      this.repo := repo;
      this.maxRetry := maxRetry;
      this.retryTopic := retryTopic;
    }

    /** handleRetry: one record to the retry topic below the limit, otherwise nothing. */
    method HandleRetry(message: Payload, attempt: int, cause: Cause) returns (outcome: Outcome)
      requires IsInt32(attempt) && IsInt32(maxRetry)
      modifies broker
      ensures outcome == MessageRetry(retryTopic, message, attempt, maxRetry, cause).0
      ensures broker.log == old(broker.log) + MessageRetry(retryTopic, message, attempt, maxRetry, cause).1
    {
      var e := Escalate(retryTopic, message, attempt, maxRetry, cause);
      if e.Republish? {
        broker.Send(e.record);
        outcome := Retried(attempt + 1);
      } else {
        outcome := GaveUp(cause);
      }
    }

    /**
     * consumeMessageCommand: a SEND_MESSAGE event appends exactly one message
     * built from the event; every other delivery leaves the messages as they
     * were.
     */
    method Handle(message: Payload, header: Option<string>, storeFails: bool) returns (outcome: Outcome)
      requires IsInt32(maxRetry)
      modifies broker, repo
      ensures outcome == MessageDelivery(retryTopic, message, header, maxRetry, storeFails).0
      ensures broker.log == old(broker.log) + MessageDelivery(retryTopic, message, header, maxRetry, storeFails).1
      ensures repo.messages == old(repo.messages) + if outcome.Processed? then [MessageOf(message.message)] else []
    {
      var retryCount := AttemptOf(header);
      if retryCount.None? {
        return HeaderRejected;
      }
      var decoded := DecodeMessage(message);
      if decoded.None? {
        outcome := HandleRetry(message, retryCount.value, DecodeFailure);
      } else if decoded.value.command != SendMessage {
        outcome := NotDispatched;
      } else if storeFails {
        outcome := HandleRetry(message, retryCount.value, ProcessingFailure);
      } else {
        repo.Save(MessageOf(decoded.value));
        outcome := Processed;
      }
    }
  }

  /**
   * The consumer never raises MaxRetryExceededException: once the limit is
   * reached a failing delivery publishes nothing and is only logged.
   */
  lemma FailuresAtTheLimitAreDropped(retryTopic: string, message: Payload, header: Option<string>, maxRetry: int, storeFails: bool)
    requires IsInt32(maxRetry) && AttemptOf(header).Some? && AttemptOf(header).value >= maxRetry
    requires !message.MessagePayload? || (message.message.command == SendMessage && storeFails)
    ensures MessageDelivery(retryTopic, message, header, maxRetry, storeFails).0.GaveUp?
    ensures MessageDelivery(retryTopic, message, header, maxRetry, storeFails).1 == []
  {
  }
}

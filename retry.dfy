/**
 * The retry escalation the consumer listeners share: read the attempt count
 * from the record header, and on a failure either republish the unchanged
 * payload to the retry topic with the count plus one, or give up.
 */
module Retry {
  import opened Common
  import opened Decimal
  import opened Events
  import opened Kafka

  /** Why a delivery failed: a JSON error, a command outside the enum, or an exception while processing. */
  datatype Cause = DecodeFailure | UnknownCommand(command: string) | ProcessingFailure

  /** MaxRetryExceededException(originalMessage, maxRetryAttempts, originalException) */
  datatype MaxRetryExceeded = MaxRetryExceeded(originalMessage: Payload, maxRetryAttempts: int, cause: Cause)

  /** What a listener invocation ends with. */
  datatype Outcome =
    | Processed                           // the handler ran to completion
    | NotDispatched                       // logged only: no handler ran and nothing was retried
    | Retried(attempt: int)               // republished to the retry topic with this count
    | Exhausted(error: MaxRetryExceeded)  // MaxRetryExceededException escapes the listener
    | GaveUp(cause: Cause)                // at the limit, logged only
    | HeaderRejected                      // Integer.parseInt threw before the try block

  /**
   * The attempt count of a delivery: the header, defaulting to "0" when
   * absent, through Integer.parseInt. None is a NumberFormatException.
   */
  function AttemptOf(header: Option<string>): (r: Option<int>)
    ensures header.None? ==> r == Some(0)
    ensures r.Some? ==> IsInt32(r.value)
  {
    ParseInt(header.GetOr("0"))
  }

  /** handleRetry's decision: republish this record, or raise this error. */
  datatype Escalation = Republish(record: Record) | Exhaust(error: MaxRetryExceeded)

  /**
   * handleRetry: below the limit one record to the retry topic with no key,
   * the unchanged payload and the count plus one; at the limit the error.
   */
  function Escalate(retryTopic: string, message: Payload, attempt: int, maxRetry: int, cause: Cause): (e: Escalation)
    requires IsInt32(attempt) && IsInt32(maxRetry)
    ensures e.Republish? <==> attempt < maxRetry
    ensures e.Republish? ==> e.record.key.None? && IsRetryCopy(e.record, retryTopic, message, attempt + 1)
    ensures e.Exhaust? ==> e.error == MaxRetryExceeded(message, maxRetry, cause)
  {
    if attempt < maxRetry then
      Republish(Record(retryTopic, None, message, Some(IntToString(attempt + 1))))
    else
      Exhaust(MaxRetryExceeded(message, maxRetry, cause))
  }

  /**
   * The effect of handleRetry: the outcome of the listener call and the
   * records it publishes.
   */
  function Escalated(retryTopic: string, message: Payload, attempt: int, maxRetry: int, cause: Cause): (r: (Outcome, seq<Record>))
    requires IsInt32(attempt) && IsInt32(maxRetry)
    ensures r.0.Retried? <==> attempt < maxRetry
    ensures r.0.Retried? ==>
              && r.0.attempt == attempt + 1 && |r.1| == 1 && r.1[0].key.None?
              && IsRetryCopy(r.1[0], retryTopic, message, attempt + 1)
    ensures !r.0.Retried? ==> r.0 == Exhausted(MaxRetryExceeded(message, maxRetry, cause)) && r.1 == []
  {
    match Escalate(retryTopic, message, attempt, maxRetry, cause)
    case Republish(record) => (Retried(attempt + 1), [record])
    case Exhaust(error) => (Exhausted(error), [])
  }

  /**
   * handleRetry of the session and user-activity consumers: below the limit
   * one record goes to the retry topic, at the limit MaxRetryExceededException
   * escapes and nothing is sent.
   */
  method HandleRetry(broker: Broker, retryTopic: string, message: Payload, attempt: int, maxRetry: int, cause: Cause)
    returns (outcome: Outcome)
    requires IsInt32(attempt) && IsInt32(maxRetry)
    modifies broker
    ensures outcome == Escalated(retryTopic, message, attempt, maxRetry, cause).0
    ensures broker.log == old(broker.log) + Escalated(retryTopic, message, attempt, maxRetry, cause).1
  {
    var e := Escalate(retryTopic, message, attempt, maxRetry, cause);
    if e.Republish? {
      broker.Send(e.record);
      outcome := Retried(attempt + 1);
    } else {
      outcome := Exhausted(e.error);
    }
  }

  /**
   * One delivery to a listener of the session or user-activity consumer, given
   * what went wrong while handling it (None: nothing): the header is parsed
   * before anything else, a success publishes nothing, and every failure,
   * whatever its cause, goes through handleRetry.
   */
  function Delivery(retryTopic: string, message: Payload, header: Option<string>, maxRetry: int, failure: Option<Cause>)
    : (r: (Outcome, seq<Record>))
    requires IsInt32(maxRetry)
    ensures AttemptOf(header).None? ==> r == (HeaderRejected, [])
    ensures AttemptOf(header).Some? && failure.None? ==> r == (Processed, [])
    ensures AttemptOf(header).Some? && failure.Some? ==> r.0.Retried? || r.0.Exhausted?
  {
    match AttemptOf(header)
    case None => (HeaderRejected, [])
    case Some(attempt) =>
      if failure.None? then (Processed, []) else Escalated(retryTopic, message, attempt, maxRetry, failure.value)
  }

  /**
   * A decode failure, an unknown command and a processing exception take the
   * same path: the same records are published and the outcome differs at most
   * in the cause the exception carries.
   */
  lemma SameRetryPathForEveryCause(retryTopic: string, message: Payload, header: Option<string>, maxRetry: int, c1: Cause, c2: Cause)
    requires IsInt32(maxRetry)
    ensures Delivery(retryTopic, message, header, maxRetry, Some(c1)).1 == Delivery(retryTopic, message, header, maxRetry, Some(c2)).1
    ensures Delivery(retryTopic, message, header, maxRetry, Some(c1)).0.Retried?
        <==> Delivery(retryTopic, message, header, maxRetry, Some(c2)).0.Retried?
    ensures Delivery(retryTopic, message, header, maxRetry, Some(c1)).0.Retried?
        ==> Delivery(retryTopic, message, header, maxRetry, Some(c1)).0 == Delivery(retryTopic, message, header, maxRetry, Some(c2)).0
  {
  }

  /** A delivery without the header is handled as attempt 0: it is retried as long as maxRetry is positive. */
  lemma MissingHeaderIsFirstAttempt(retryTopic: string, message: Payload, maxRetry: int, c: Cause)
    requires IsInt32(maxRetry)
    ensures Delivery(retryTopic, message, None, maxRetry, Some(c)) == Escalated(retryTopic, message, 0, maxRetry, c)
    ensures Delivery(retryTopic, message, None, maxRetry, Some(c)).0 == if 0 < maxRetry then Retried(1) else Exhausted(MaxRetryExceeded(message, maxRetry, c))
  {
  }

  /**
   * The records published when every delivery of `message`, starting at
   * `attempt`, fails: each republished copy is read back by the retry
   * listener, with the next count, and escalated again.
   */
  function FailingDeliveries(retryTopic: string, message: Payload, attempt: int, maxRetry: int, cause: Cause): seq<Record>
    requires IsInt32(attempt) && IsInt32(maxRetry)
    decreases maxRetry - attempt
  {
    if attempt < maxRetry then
      [Escalate(retryTopic, message, attempt, maxRetry, cause).record]
        + FailingDeliveries(retryTopic, message, attempt + 1, maxRetry, cause)
    else []
  }

  /** A copy of `message` on the retry topic whose count header is the decimal text of `n`. */
  predicate IsRetryCopy(r: Record, retryTopic: string, message: Payload, n: int) {
    r.topic == retryTopic && r.payload == message && r.retryCount == Some(IntToString(n))
  }

  /** The listener on the retry topic reads such a copy as attempt `n`. */
  lemma RetryCopyReadsBack(r: Record, retryTopic: string, message: Payload, n: int)
    requires IsInt32(n) && IsRetryCopy(r, retryTopic, message, n)
    ensures AttemptOf(r.retryCount) == Some(n)
  {
    ParseIntOfIntToString(n);
  }

  /**
   * A message that never succeeds is republished exactly maxRetry - attempt
   * times, and not at all at or beyond the limit; then the escalation raises.
   */
  lemma {:induction false} RetriesAreBounded(retryTopic: string, message: Payload, attempt: int, maxRetry: int, cause: Cause)
    requires IsInt32(attempt) && IsInt32(maxRetry)
    ensures |FailingDeliveries(retryTopic, message, attempt, maxRetry, cause)| == if attempt < maxRetry then maxRetry - attempt else 0
    decreases maxRetry - attempt
  {
    if attempt < maxRetry {
      RetriesAreBounded(retryTopic, message, attempt + 1, maxRetry, cause);
    }
  }

  /** The i-th record published is the escalation of attempt + i. */
  lemma {:induction false} FailingDeliveryAt(retryTopic: string, message: Payload, attempt: int, maxRetry: int, cause: Cause, i: nat)
    requires IsInt32(attempt) && IsInt32(maxRetry)
    requires i < |FailingDeliveries(retryTopic, message, attempt, maxRetry, cause)|
    ensures attempt + i < maxRetry
    ensures FailingDeliveries(retryTopic, message, attempt, maxRetry, cause)[i]
         == Escalate(retryTopic, message, attempt + i, maxRetry, cause).record
    decreases maxRetry - attempt
  {
    var rs := FailingDeliveries(retryTopic, message, attempt, maxRetry, cause);
    var rest := FailingDeliveries(retryTopic, message, attempt + 1, maxRetry, cause);
    assert attempt < maxRetry && rs == [Escalate(retryTopic, message, attempt, maxRetry, cause).record] + rest;
    if i > 0 {
      assert rs[i] == rest[i - 1];
      FailingDeliveryAt(retryTopic, message, attempt + 1, maxRetry, cause, i - 1);
    }
  }

  /**
   * Each of those copies is the unchanged payload on the retry topic, and the
   * i-th one is read back as attempt + 1 + i: the count grows by one per hop.
   */
  lemma RetryCountsAscend(retryTopic: string, message: Payload, attempt: int, maxRetry: int, cause: Cause, i: nat)
    requires IsInt32(attempt) && IsInt32(maxRetry)
    requires i < |FailingDeliveries(retryTopic, message, attempt, maxRetry, cause)|
    ensures IsRetryCopy(FailingDeliveries(retryTopic, message, attempt, maxRetry, cause)[i], retryTopic, message, attempt + 1 + i)
    ensures AttemptOf(FailingDeliveries(retryTopic, message, attempt, maxRetry, cause)[i].retryCount) == Some(attempt + 1 + i)
  {
    FailingDeliveryAt(retryTopic, message, attempt, maxRetry, cause, i);
    RetryCopyReadsBack(FailingDeliveries(retryTopic, message, attempt, maxRetry, cause)[i], retryTopic, message, attempt + 1 + i);
  }

  /**
   * MessageConsumerService.handleRetry as written: the republished record
   * carries no count header.
   */
  function MessageRetryRecordAsWritten(retryTopic: string, message: Payload): (r: Record)
    ensures r.topic == retryTopic && r.payload == message && r.key.None?
  {
    Record(retryTopic, None, message, None)
  }

  /**
   * Whatever the failed attempt was, the record written as above is read back
   * as attempt 0, so a listener that escalates it republishes it again:
   * the count never reaches the limit.
   */
  lemma AsWrittenRetryRestartsAtZero(retryTopic: string, message: Payload, attempt: int, maxRetry: int, cause: Cause)
    requires IsInt32(attempt) && IsInt32(maxRetry) && 0 <= attempt < maxRetry
    ensures AttemptOf(MessageRetryRecordAsWritten(retryTopic, message).retryCount) == Some(0)
    ensures AttemptOf(MessageRetryRecordAsWritten(retryTopic, message).retryCount) != Some(attempt + 1)
    ensures Escalate(retryTopic, message, 0, maxRetry, cause).Republish?
  {
    assert ParseInt("0") == Some(0) by {
      assert "0"[0] != '-' && "0"[0] != '+';
      assert DigitsValue("0") == 0 by { assert "0"[..0] == []; }
    }
  }
}

/**
 * UserActivityConsumerService: the listeners on the user command topic and its
 * retry topic. Both decode the event, resolve its command with fromString,
 * run the strategy the factory returns, and send every failure through
 * handleRetry.
 */
module UserActivityConsumer {
  import opened Common
  import opened Decimal
  import opened Events
  import opened Kafka
  import opened Retry
  import opened ActivityLog
  import opened UserActivityCommands
  import opened UserActivityStrategy
  import opened StrategyFactories

  /**
   * What goes wrong while a delivery is handled, if anything: the payload is
   * not a user-activity event, fromString rejects its command
   * (IllegalArgumentException), or the store throws.
   */
  function ActivityFailure(message: Payload, storeFails: bool): (r: Option<Cause>)
    ensures r.None? <==> message.ActivityPayload? && FromString(message.activity.command).Ok? && !storeFails
    ensures DecodeActivity(message).None? ==> r == Some(DecodeFailure)
    ensures message.ActivityPayload? && FromString(message.activity.command).Err? ==>
              r == Some(UnknownCommand(message.activity.command))
  {
    match DecodeActivity(message)
    case None => Some(DecodeFailure)
    case Some(ev) =>
      if FromString(ev.command).Err? then Some(UnknownCommand(ev.command))
      else if storeFails then Some(ProcessingFailure)
      else None
  }

  class UserActivityConsumerService {
    const broker: Broker
    const logs: ActivityLogRepository
    const factory: UserActivityStrategyFactory
    const unified: UnifiedUserActivityStrategy
    /** KafkaRetryConfig.maxRetry */
    const maxRetry: int
    const retryTopic: string

    ghost predicate Valid()
      reads factory
    {
      factory.Valid() && unified.repo == logs && IsInt32(maxRetry)
    }

    constructor (broker: Broker, logs: ActivityLogRepository, maxRetry: int, retryTopic: string)
      requires IsInt32(maxRetry)
      ensures Valid()
      ensures this.broker == broker && this.logs == logs && this.maxRetry == maxRetry && this.retryTopic == retryTopic
      ensures fresh(factory)
    {
      this.broker := broker;
      this.logs := logs;
      this.maxRetry := maxRetry;
      this.retryTopic := retryTopic;
      factory := new UserActivityStrategyFactory();
      unified := new UnifiedUserActivityStrategy(logs);
    }

    /**
     * consumeUserActivity and consumeUserActivityRetry, which do the same: a
     * delivery that is handled appends exactly one entry to its user's log;
     * any failure leaves the logs as they were and goes through handleRetry.
     */
    method Handle(message: Payload, header: Option<string>, storeFails: bool) returns (outcome: Outcome)
      requires Valid()
      modifies broker, logs, factory
      ensures Valid()
      ensures outcome == Delivery(retryTopic, message, header, maxRetry, ActivityFailure(message, storeFails)).0
      ensures broker.log == old(broker.log) + Delivery(retryTopic, message, header, maxRetry, ActivityFailure(message, storeFails)).1
      ensures outcome.Processed? ==>
                logs.documents == Logged(old(logs.documents), message.activity, DetermineAction(message.activity).value)
      ensures !outcome.Processed? ==> logs.documents == old(logs.documents)
    {
      var retryCount := AttemptOf(header);
      if retryCount.None? {
        return HeaderRejected;
      }
      var failure: Option<Cause> := None;
      var decoded := DecodeActivity(message);
      if decoded.None? {
        failure := Some(DecodeFailure);
      } else {
        var ev := decoded.value;
        var command := FromString(ev.command);
        if command.Err? {
          failure := Some(UnknownCommand(ev.command));
        } else {
          var strategy := factory.GetStrategy(Some(command.value));
          if storeFails {
            failure := Some(ProcessingFailure);
          } else {
            AcceptedCommandsHaveAnAction(ev);
            var result := unified.Execute(ev);
            if result.Err? {
              failure := Some(ProcessingFailure);
            }
          }
        }
      }
      if failure.None? {
        outcome := Processed;
      } else {
        outcome := HandleRetry(broker, retryTopic, message, retryCount.value, maxRetry, failure.value);
      }
    }
  }
}

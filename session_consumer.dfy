/**
 * SessionConsumerService: the listeners on the session command topic and its
 * retry topic. Both decode the record, resolve the command, run its strategy
 * on the session store, and send every failure through handleRetry.
 */
module SessionConsumer {
  import opened Common
  import opened Decimal
  import opened Events
  import opened Kafka
  import opened Retry
  import opened SessionStore
  import opened SessionCommands
  import opened SessionStrategies
  import opened StrategyFactories

  /**
   * What goes wrong while a delivery is handled, if anything: the payload is
   * not a session event, its command is none of the five, or the store
   * throws while the strategy runs.
   */
  function SessionFailure(message: Payload, storeFails: bool): (r: Option<Cause>)
    ensures r.None? <==> message.SessionPayload? && FromStringOptional(message.session.command).Some? && !storeFails
    ensures DecodeSession(message).None? ==> r == Some(DecodeFailure)
    ensures message.SessionPayload? && FromString(message.session.command).Err? ==> r == Some(UnknownCommand(message.session.command))
  {
    match DecodeSession(message)
    case None => Some(DecodeFailure)
    case Some(ev) =>
      if FromStringOptional(ev.command).None? then Some(UnknownCommand(ev.command))
      else if storeFails then Some(ProcessingFailure)
      else None
  }

  /** The store a command's strategy leaves behind. */
  function Executed(c: SessionCommand, s: seq<Session>, nextId: Id, ev: SessionEvent, now: int): seq<Session> {
    match c
    case SaveSession => Saved(s, nextId, ev)
    case UpsertSession => Upserted(s, nextId, ev, now)
    case UpdateSession => Updated(s, ev, now)
    case DeleteSession => DeletedByHash(s, ev.hashedSessionId)
    case ExpireSession => DeletedByHash(s, ev.hashedSessionId)
  }

  /** The ids a command's strategy uses up: one for each new session. */
  function IdsUsed(c: SessionCommand, s: seq<Session>, ev: SessionEvent): nat {
    match c
    case SaveSession => 1
    case UpsertSession => if UserSessions(s, ev.userId) == [] then 1 else 0
    case _ => 0
  }

  /** EXPIRE_SESSION does not look at the expiry: its effect is that of DELETE_SESSION. */
  lemma ExpireIsDelete(s: seq<Session>, nextId: Id, ev: SessionEvent, now: int)
    ensures Executed(ExpireSession, s, nextId, ev, now) == Executed(DeleteSession, s, nextId, ev, now)
    ensures IdsUsed(ExpireSession, s, ev) == IdsUsed(DeleteSession, s, ev) == 0
  {
  }

  class SessionConsumerService {
    const broker: Broker
    const repo: SessionRepository
    const factory: SessionCommandStrategyFactory
    const save: SaveSessionStrategy
    const upsert: UpsertSessionStrategy
    const update: UpdateSessionStrategy
    const delete: DeleteSessionStrategy
    const expire: ExpireSessionStrategy
    /** KafkaRetryConfig.maxRetry */
    const maxRetry: int
    const retryTopic: string

    /** Every strategy works on the service's store. */
    ghost predicate Valid()
      reads repo, factory
    {
      && repo.Valid() && factory.Valid() && IsInt32(maxRetry)
      && save.repo == repo && upsert.repo == repo && update.repo == repo
      && delete.repo == repo && expire.repo == repo
    }

    constructor (broker: Broker, repo: SessionRepository, maxRetry: int, retryTopic: string)
      requires repo.Valid() && IsInt32(maxRetry)
      ensures Valid()
      ensures this.broker == broker && this.repo == repo && this.maxRetry == maxRetry && this.retryTopic == retryTopic
      ensures fresh(factory)
    {
      this.broker := broker;
      this.repo := repo;
      this.maxRetry := maxRetry;
      this.retryTopic := retryTopic;
      factory := new SessionCommandStrategyFactory();
      save := new SaveSessionStrategy(repo);
      upsert := new UpsertSessionStrategy(repo);
      update := new UpdateSessionStrategy(repo);
      delete := new DeleteSessionStrategy(repo);
      expire := new ExpireSessionStrategy(repo);
    }

    /** strategy.execute(sessionEvent) on the bean the factory returned. */
    method Run(strategy: SessionStrategyRef, ev: SessionEvent, now: int)
      requires Valid()
      modifies repo
      ensures Valid()
      ensures repo.sessions == Executed(CommandOf(strategy), old(repo.sessions), old(repo.nextId), ev, now)
      ensures repo.nextId == old(repo.nextId) + IdsUsed(CommandOf(strategy), old(repo.sessions), ev)
    {
      match strategy
      case SaveStrategy => save.Execute(ev);
      case UpsertStrategy => upsert.Execute(ev, now);
      case UpdateStrategy => update.Execute(ev, now);
      case DeleteStrategy => delete.Execute(ev);
      case ExpireStrategy => expire.Execute(ev);
    }

    /**
     * handleSessionEvent and handleSessionEventRetry, which do the same: parse
     * the header (a malformed one escapes before the try block), decode,
     * resolve the command (unknown: UnknownSessionCommandException), look the
     * strategy up and run it; any failure goes through handleRetry. The store
     * changes only when the strategy completes; the broker gets at most the
     * one retry record.
     */
    method Handle(message: Payload, header: Option<string>, now: int, storeFails: bool) returns (outcome: Outcome)
      requires Valid()
      modifies broker, repo, factory
      ensures Valid()
      ensures outcome == Delivery(retryTopic, message, header, maxRetry, SessionFailure(message, storeFails)).0
      ensures broker.log == old(broker.log) + Delivery(retryTopic, message, header, maxRetry, SessionFailure(message, storeFails)).1
      ensures outcome.Processed? ==>
                var c := FromStringOptional(message.session.command).value;
                && repo.sessions == Executed(c, old(repo.sessions), old(repo.nextId), message.session, now)
                && repo.nextId == old(repo.nextId) + IdsUsed(c, old(repo.sessions), message.session)
      ensures !outcome.Processed? ==> repo.sessions == old(repo.sessions) && repo.nextId == old(repo.nextId)
    {
      var retryCount := AttemptOf(header);
      if retryCount.None? {
        return HeaderRejected;
      }
      var failure: Option<Cause> := None;
      var decoded := DecodeSession(message);
      if decoded.None? {
        failure := Some(DecodeFailure);
      } else {
        var ev := decoded.value;
        var command := FromStringOptional(ev.command);
        if command.None? {
          failure := Some(UnknownCommand(ev.command));
        } else {
          var strategy := factory.GetStrategy(command);
          if storeFails {
            failure := Some(ProcessingFailure);
          } else {
            StrategyOfCommand(command.value);
            Run(strategy.value, ev, now);
          }
        }
      }
      if failure.None? {
        outcome := Processed;
      } else {
        outcome := HandleRetry(broker, retryTopic, message, retryCount.value, maxRetry, failure.value);
      }
    }
  }

  /** The command a strategy bean was registered for. */
  function CommandOf(strategy: SessionStrategyRef): (c: SessionCommand)
    ensures SessionStrategyFor(c) == strategy
  {
    match strategy
    case SaveStrategy => SaveSession
    case UpsertStrategy => UpsertSession
    case UpdateStrategy => UpdateSession
    case DeleteStrategy => DeleteSession
    case ExpireStrategy => ExpireSession
  }

  /** The bean looked up for a command runs that command. */
  lemma StrategyOfCommand(c: SessionCommand)
    ensures CommandOf(SessionStrategyFor(c)) == c
  {
    SessionStrategiesDistinct(CommandOf(SessionStrategyFor(c)), c);
  }
}

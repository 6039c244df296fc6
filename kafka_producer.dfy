/**
 * KafkaProducerService: each command kind is serialised and sent to its own
 * topic, keyed by the user it concerns.
 */
module KafkaProducer {
  import opened Common
  import opened Events
  import opened Kafka

  /** What can go wrong while publishing: nothing, serialisation, or the send itself. */
  datatype ProducerFault = NoFault | SerializationFault | TransportFault

  /** MessageSerializationException and KafkaPublishingException. */
  datatype PublishError = MessageSerializationError(message: string) | KafkaPublishingError(message: string)

  /** MessagingConfig: the three command topics. */
  datatype Topics = Topics(userCommands: string, messageCommands: string, sessionCommands: string)

  /** The three command kinds, with the word each one's error messages use. */
  datatype CommandKind = MessageCommand | UserCommand | SessionCommand {
    function Noun(): string {
      match this
      case MessageCommand => "message"
      case UserCommand => "user"
      case SessionCommand => "session"
    }
  }

  function TopicFor(topics: Topics, kind: CommandKind): string {
    match kind
    case MessageCommand => topics.messageCommands
    case UserCommand => topics.userCommands
    case SessionCommand => topics.sessionCommands
  }

  /** The error a fault raises for a kind of command. */
  function ErrorFor(kind: CommandKind, fault: ProducerFault): (e: PublishError)
    requires !fault.NoFault?
    ensures e.MessageSerializationError? <==> fault.SerializationFault?
  {
    if fault.SerializationFault? then MessageSerializationError("Failed to serialize " + kind.Noun() + " command")
    else KafkaPublishingError("Failed to send " + kind.Noun() + " command to Kafka")
  }

  class KafkaProducerService {
    const broker: Broker
    const topics: Topics

    constructor (broker: Broker, topics: Topics)
      ensures this.broker == broker && this.topics == topics
    {
      this.broker := broker;
      this.topics := topics;
    }

    /**
     * sendMessageCommand, sendUserCommand and sendSessionCommand: at most one
     * record, on the kind's topic, keyed by the user id, without headers; a
     * fault publishes nothing and raises the kind's error.
     */
    method Send(kind: CommandKind, payload: Payload, userId: Option<string>, fault: ProducerFault)
      returns (r: Result<(), PublishError>)
      modifies broker
      ensures r.Ok? <==> fault.NoFault?
      ensures r.Ok? ==> broker.log == old(broker.log) + [Record(TopicFor(topics, kind), userId, payload, None)]
      ensures r.Err? ==> broker.log == old(broker.log) && r.error == ErrorFor(kind, fault)
    {
      if fault.SerializationFault? {
        return Err(ErrorFor(kind, fault));
      }
      if fault.TransportFault? {
        return Err(ErrorFor(kind, fault));
      }
      broker.Send(Record(TopicFor(topics, kind), userId, payload, None));
      r := Ok(());
    }
  }
}

/** The broker both services talk to, reduced to the ordered list of records published so far. */
module Kafka {
  import opened Common
  import opened Events

  /** KafkaConstants.RETRY_COUNT_HEADER */
  const RetryCountHeader: string := "x-retryCount"

  /**
   * One published record. `retryCount` is the value of the RetryCountHeader
   * header, absent when the producer set none; no other header is used.
   */
  datatype Record = Record(topic: string, key: Option<string>, payload: Payload, retryCount: Option<string>)

  class Broker {
    var log: seq<Record>

    constructor ()
      ensures log == []
    {
      log := [];
    }

    /** kafkaTemplate.send: the record is appended to the log. */
    method Send(r: Record)
      modifies this
      ensures log == old(log) + [r]
    {
      log := log + [r];
    }
  }
}

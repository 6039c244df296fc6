/** The exceptions the command service's operations raise, as values. */
module ServiceErrors {
  import opened KafkaProducer

  datatype ServiceError =
    | Conflict(message: string)           // ConflictException
    | UserNotFound(message: string)       // UserNotFoundException
    | ThreadNotFound(message: string)     // ThreadNotFoundException
    | PublishFailed(error: PublishError)  // raised by KafkaProducerService
    | InvalidArgument(message: string)    // IllegalArgumentException from the data-access layer
    | Arithmetic(message: string)         // ArithmeticException
}

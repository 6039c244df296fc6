/** The consumer's UserActivityCommand enum: the two commands a user-activity event can carry. */
module UserActivityCommands {
  import opened Common

  datatype UserActivityCommand = UserCreation | LoginAttempt

  /** values(), in declaration order. */
  const Values: seq<UserActivityCommand> := [UserCreation, LoginAttempt]

  /** getValue */
  function Value(c: UserActivityCommand): string {
    match c
    case UserCreation => "USER_CREATION"
    case LoginAttempt => "LOGIN_ATTEMPT"
  }

  /** fromString: the constant with that text, or IllegalArgumentException. */
  function FromString(s: string): (r: Result<UserActivityCommand, string>)
    ensures forall c :: r == Ok(c) <==> Value(c) == s
    ensures r.Err? ==> r.error == "Unknown user activity command: " + s
  {
    match FirstWithValue(Values, Value, s)
    case Some(c) => Ok(c)
    case None => Err("Unknown user activity command: " + s)
  }

  /** fromStringOptional: the constant with that text, or empty. */
  function FromStringOptional(s: string): (r: Option<UserActivityCommand>)
    ensures forall c :: r == Some(c) <==> Value(c) == s
  {
    FirstWithValue(Values, Value, s)
  }

  /** The optional lookup is empty exactly when fromString throws, and otherwise they agree. */
  lemma OptionalAgreesWithFromString(s: string)
    ensures FromStringOptional(s).None? <==> FromString(s).Err?
    ensures FromString(s).Ok? ==> FromStringOptional(s) == Some(FromString(s).value)
  {
  }

  lemma ValueRoundTrip(c: UserActivityCommand)
    ensures FromString(Value(c)) == Ok(c)
  {
  }
}

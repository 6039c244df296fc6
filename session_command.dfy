/** The consumer's SessionCommand enum: the five commands a session event can carry. */
module SessionCommands {
  import opened Common

  datatype SessionCommand = SaveSession | UpsertSession | UpdateSession | DeleteSession | ExpireSession

  /** values(), in declaration order. */
  const Values: seq<SessionCommand> := [SaveSession, UpsertSession, UpdateSession, DeleteSession, ExpireSession]

  /** getCommand, which toString also returns. */
  function Command(c: SessionCommand): string {
    match c
    case SaveSession => "SAVE_SESSION"
    case UpsertSession => "UPSERT_SESSION"
    case UpdateSession => "UPDATE_SESSION"
    case DeleteSession => "DELETE_SESSION"
    case ExpireSession => "EXPIRE_SESSION"
  }

  /** No two constants share a text. */
  lemma CommandsInjective()
    ensures forall c, d :: Command(c) == Command(d) ==> c == d
  {
    forall c, d | Command(c) == Command(d)
      ensures c == d
    {
      assert Command(c)[0] == Command(d)[0] && Command(c)[2] == Command(d)[2];
    }
  }

  /** The lookup the consumer calls: the constant with that text, or empty. */
  function FromStringOptional(s: string): (r: Option<SessionCommand>)
    ensures forall c :: r == Some(c) <==> Command(c) == s
  {
    CommandsInjective();
    FirstWithValue(Values, Command, s)
  }

  /** fromString: the constant with that text, or IllegalArgumentException("Unknown command: " + s). */
  function FromString(s: string): (r: Result<SessionCommand, string>)
    ensures forall c :: r == Ok(c) <==> Command(c) == s
    ensures r.Err? ==> r.error == "Unknown command: " + s
  {
    CommandsInjective();
    match FirstWithValue(Values, Command, s)
    case Some(c) => Ok(c)
    case None => Err("Unknown command: " + s)
  }

  /** Every constant survives the text round trip, so no two constants share a text. */
  lemma CommandRoundTrip(c: SessionCommand)
    ensures FromString(Command(c)) == Ok(c)
    ensures FromStringOptional(Command(c)) == Some(c)
  {
  }
}

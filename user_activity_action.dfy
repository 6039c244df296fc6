/**
 * The consumer's UserActivityAction enum. Both login constants share the
 * stored value "LOGIN_ATTEMPT"; whether the login succeeded is kept in a
 * separate flag of the log entry.
 */
module UserActivityActions {
  import opened Common

  datatype UserActivityAction = UserCreation | LoginSuccess | LoginFailure {
    predicate IsLoginActivity() {
      this == LoginSuccess || this == LoginFailure
    }

    predicate IsUserCreation() {
      this == UserCreation
    }
  }

  /** values(), in declaration order. */
  const Values: seq<UserActivityAction> := [UserCreation, LoginSuccess, LoginFailure]

  /** getValue: the text written into the activity log. */
  function Value(a: UserActivityAction): string {
    match a
    case UserCreation => "USER_CREATION"
    case LoginSuccess => "LOGIN_ATTEMPT"
    case LoginFailure => "LOGIN_ATTEMPT"
  }

  /** fromString: the first constant with that value, or IllegalArgumentException. */
  function FromString(s: string): (r: Result<UserActivityAction, string>)
    ensures r.Ok? ==> Value(r.value) == s
    ensures r.Err? <==> forall a :: Value(a) != s
    ensures r.Err? ==> r.error == "Unknown user activity action: " + s
  {
    match FirstWithValue(Values, Value, s)
    case Some(a) => Ok(a)
    case None => Err("Unknown user activity action: " + s)
  }

  /** fromStringOptional: the first constant with that value, or empty. */
  function FromStringOptional(s: string): (r: Option<UserActivityAction>)
    ensures r.Some? ==> Value(r.value) == s
    ensures r.None? <==> forall a :: Value(a) != s
  {
    FirstWithValue(Values, Value, s)
  }

  /** fromLoginResult: a successful login and a failed one are told apart only here. */
  function FromLoginResult(successful: bool): (r: UserActivityAction)
    ensures r.IsLoginActivity()
    ensures r == LoginSuccess <==> successful
  {
    if successful then LoginSuccess else LoginFailure
  }

  /** Every constant is of exactly one kind. */
  lemma KindsPartition(a: UserActivityAction)
    ensures a.IsLoginActivity() != a.IsUserCreation()
  {
  }

  /**
   * The value text does not round-trip for LOGIN_FAILURE: reading back
   * "LOGIN_ATTEMPT" gives the first constant with that value, LOGIN_SUCCESS.
   */
  lemma LoginFailureReadsBackAsSuccess()
    ensures FromString(Value(LoginFailure)) == Ok(LoginSuccess)
    ensures FromString(Value(UserCreation)) == Ok(UserCreation)
    ensures FromString(Value(LoginSuccess)) == Ok(LoginSuccess)
  {
  }
}

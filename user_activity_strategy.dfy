/** The consumer's UnifiedUserActivityStrategy: one log entry per user-activity event. */
module UserActivityStrategy {
  import opened Common
  import opened Events
  import opened ActivityLog
  import UserActivityCommands
  import opened UserActivityActions

  /**
   * determineAction: a user creation is USER_CREATION, a login attempt is
   * LOGIN_SUCCESS or LOGIN_FAILURE by its outcome, and any other command is
   * an IllegalArgumentException.
   */
  function DetermineAction(ev: UserActivityEvent): (r: Result<UserActivityAction, string>)
    ensures r.Ok? <==> ev.IsUserCreation() || ev.IsLoginAttempt()
    ensures r.Ok? ==> Value(r.value) == ev.command
    ensures r.Ok? && ev.IsLoginAttempt() ==> r.value.IsLoginActivity() && (r.value == LoginSuccess <==> ev.successful)
    ensures r.Err? ==> r.error == "Unknown activity type: " + ev.command
  {
    if ev.IsUserCreation() then Ok(UserCreation)
    else if ev.IsLoginAttempt() then Ok(FromLoginResult(ev.successful))
    else Err("Unknown activity type: " + ev.command)
  }

  /** Every command the consumer's enum accepts has an action. */
  lemma AcceptedCommandsHaveAnAction(ev: UserActivityEvent)
    requires UserActivityCommands.FromString(ev.command).Ok?
    ensures DetermineAction(ev).Ok?
  {
    var c := UserActivityCommands.FromString(ev.command).value;
    assert UserActivityCommands.Value(c) == ev.command;
  }

  /** The entry an event with its action becomes. */
  function EntryFor(ev: UserActivityEvent, action: UserActivityAction): ActivityEntry {
    ActivityEntry(ev.ipAddress, ev.userAgent, ev.successful, ev.timestamp, ev.failureReason, Value(action))
  }

  /** The entries stored for a user: none when there is no document or its list is null. */
  function StoredEntries(docs: map<Option<string>, Option<seq<ActivityEntry>>>, userId: Option<string>): seq<ActivityEntry> {
    if userId in docs then docs[userId].GetOr([]) else []
  }

  /** The collection after one event: the user's entries with one more at the end. */
  function Logged(docs: map<Option<string>, Option<seq<ActivityEntry>>>, ev: UserActivityEvent, action: UserActivityAction)
    : map<Option<string>, Option<seq<ActivityEntry>>>
  {
    docs[ev.userId := Some(StoredEntries(docs, ev.userId) + [EntryFor(ev, action)])]
  }

  /**
   * The log is append-only: after an event every user's former entries are a
   * prefix of their entries now, the event's user has exactly one more entry,
   * it is last and it describes the event, and nobody else's entries change.
   */
  lemma {:induction false} LoggingAppendsOne(docs: map<Option<string>, Option<seq<ActivityEntry>>>, ev: UserActivityEvent, action: UserActivityAction)
    ensures var after := Logged(docs, ev, action);
      (forall u :: StoredEntries(docs, u) <= StoredEntries(after, u))
      && |StoredEntries(after, ev.userId)| == |StoredEntries(docs, ev.userId)| + 1
      && StoredEntries(after, ev.userId)[|StoredEntries(docs, ev.userId)|] == EntryFor(ev, action)
      && (forall u :: u != ev.userId ==> StoredEntries(after, u) == StoredEntries(docs, u))
  {
    var after := Logged(docs, ev, action);
    assert StoredEntries(after, ev.userId) == StoredEntries(docs, ev.userId) + [EntryFor(ev, action)];
    forall u
      ensures StoredEntries(docs, u) <= StoredEntries(after, u)
    {
      if u != ev.userId {
        assert StoredEntries(after, u) == StoredEntries(docs, u);
      }
    }
  }

  class UnifiedUserActivityStrategy {
    const repo: ActivityLogRepository

    constructor (repo: ActivityLogRepository)
      ensures this.repo == repo
    {
      this.repo := repo;
    }

    /**
     * execute: reuse the user's log or start an empty one, append one entry
     * with the action, save. An event with no action saves nothing and ends
     * in the RuntimeException, here Err.
     */
    method Execute(ev: UserActivityEvent) returns (r: Result<(), string>)
      modifies repo
      ensures r.Err? <==> DetermineAction(ev).Err?
      ensures r.Err? ==> r.error == "Failed to process user activity" && repo.documents == old(repo.documents)
      ensures r.Ok? ==> repo.documents == Logged(old(repo.documents), ev, DetermineAction(ev).value)
    {
      var existing := repo.FindByUserId(ev.userId);
      var activityLog: ActivityLogDto;
      if existing.Some? {
        activityLog := existing.value;
      } else {
        activityLog := new ActivityLogDto(ev.userId);
      }
      var action := DetermineAction(ev);
      if action.Err? {
        return Err("Failed to process user activity");
      }
      activityLog.AddActivity(ev.ipAddress, ev.userAgent, ev.successful, ev.timestamp, ev.failureReason, Value(action.value));
      repo.Save(activityLog);
      r := Ok(());
    }
  }
}

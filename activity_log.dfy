/**
 * The per-user activity log document: a list of entries that only grows.
 * The list field may be null, as a document read back without one would be.
 */
module ActivityLog {
  import opened Common

  /** ActivityLogDto.ActivityEntry. Times are seconds. */
  datatype ActivityEntry = ActivityEntry(
    ipAddress: Option<string>,
    userAgent: Option<string>,
    successful: bool,
    timestamp: int,
    failureReason: Option<string>,
    action: string)

  /** The action the five-argument addActivity records. */
  const DefaultAction: string := "LOGIN_ATTEMPT"

  class ActivityLogDto {
    var userId: Option<string>
    var logs: Option<seq<ActivityEntry>>

    /** The entries recorded so far; a null list holds none. */
    function Entries(): seq<ActivityEntry>
      reads this
    {
      logs.GetOr([])
    }

    /** new ActivityLogDto(userId): the list starts empty. */
    constructor (userId: Option<string>)
      ensures this.userId == userId && logs == Some([])
    {
      this.userId := userId;
      logs := Some([]);
    }

    /** A document as the repository hands it back. */
    constructor Stored(userId: Option<string>, logs: Option<seq<ActivityEntry>>)
      ensures this.userId == userId && this.logs == logs
    {
      this.userId := userId;
      this.logs := logs;
    }

    /**
     * addActivity with an action: a null list becomes empty first, then one
     * entry is appended at the end; earlier entries and the owner stay.
     */
    method AddActivity(ipAddress: Option<string>, userAgent: Option<string>, successful: bool, timestamp: int,
                       failureReason: Option<string>, action: string)
      modifies this
      ensures userId == old(userId)
      ensures logs == Some(old(Entries()) + [ActivityEntry(ipAddress, userAgent, successful, timestamp, failureReason, action)])
    {
      if logs.None? {
        logs := Some([]);
      }
      logs := Some(logs.value + [ActivityEntry(ipAddress, userAgent, successful, timestamp, failureReason, action)]);
    }

    /** addActivity without an action: the entry records a login attempt. */
    method AddLoginActivity(ipAddress: Option<string>, userAgent: Option<string>, successful: bool, timestamp: int,
                            failureReason: Option<string>)
      modifies this
      ensures userId == old(userId)
      ensures logs == Some(old(Entries()) + [ActivityEntry(ipAddress, userAgent, successful, timestamp, failureReason, DefaultAction)])
    {
      if logs.None? {
        logs := Some([]);
      }
      logs := Some(logs.value + [ActivityEntry(ipAddress, userAgent, successful, timestamp, failureReason, DefaultAction)]);
    }
  }

  /**
   * The activity_logs collection, one document per user id (the null id
   * included), holding the document's possibly-null list.
   */
  class ActivityLogRepository {
    var documents: map<Option<string>, Option<seq<ActivityEntry>>>

    constructor ()
      ensures documents == map[]
    {
      documents := map[];
    }

    /** findByUserId: a fresh object for the stored document, or empty. */
    method FindByUserId(userId: Option<string>) returns (r: Option<ActivityLogDto>)
      ensures r.Some? <==> userId in documents
      ensures r.Some? ==> fresh(r.value) && r.value.userId == userId && r.value.logs == documents[userId]
    {
      if userId in documents {
        var d := new ActivityLogDto.Stored(userId, documents[userId]);
        r := Some(d);
      } else {
        r := None;
      }
    }

    /** save: the document for the object's user becomes the object's list. */
    method Save(d: ActivityLogDto)
      modifies this
      ensures documents == old(documents)[d.userId := d.logs]
    {
      documents := documents[d.userId := d.logs];
    }
  }
}

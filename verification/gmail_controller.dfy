/**
 * The Gmail sync endpoints of the API controller: `syncEmails` decides between
 * "not connected", "already syncing" and starting a sync job, and
 * `syncStatus` reports the user's cached progress record or an idle default.
 * Both read the cache under the user-level key "gmail_sync:{user}".
 */
module GmailController {
  import opened Wrappers
  import opened Clock
  import opened SyncProgress
  import PhpText
  import JobQueue

  /**
   * The answers of `syncEmails`. `StartFailed` is the catch block's 500 for
   * the one exception the model knows of: reading `$syncStatus['status']` on
   * a non-empty record that has no status raises "Undefined array key".
   */
  datatype SyncReply =
    | NotConnected
    | AlreadySyncing(record: SyncRecord)
    | SyncStarted(maxResults: int)
    | StartFailed(error: string)

  /** The message of the warning PHP raises, which the framework turns into an exception. */
  const MissingStatusKey := "Undefined array key \"status\""

  /** `max_results` from the request: 100 when absent, never above 500. */
  function ClampedMax(requested: Option<int>): (m: int)
    ensures m <= 500 && m <= requested.GetOr(100)
    ensures m == requested.GetOr(100) || m == 500
  {
    var asked := requested.GetOr(100);
    if asked <= 500 then asked else 500
  }

  /**
   * `syncEmails` for user `userId` whose Google token is `token`, against the
   * cache `entries`, with the request's `max_results`.
   */
  function SyncEmails(token: Option<string>, entries: map<CacheKey, SyncRecord>, userId: int,
                      requested: Option<int>): (reply: SyncReply)
    ensures reply.NotConnected? <==> token.None? || !PhpText.Truthy(token.value)
    ensures reply.AlreadySyncing? <==>
              && token.Some? && PhpText.Truthy(token.value)
              && UserKey(userId) in entries && entries[UserKey(userId)].status == Some(Processing)
    ensures reply.StartFailed? <==>
              && token.Some? && PhpText.Truthy(token.value)
              && UserKey(userId) in entries && entries[UserKey(userId)] != NoRecord
              && entries[UserKey(userId)].status.None?
    ensures reply.AlreadySyncing? ==> reply.record == entries[UserKey(userId)]
    ensures reply.SyncStarted? ==> reply.maxResults == ClampedMax(requested)
    ensures reply.StartFailed? ==> reply.error == MissingStatusKey
  {
    if token.None? || !PhpText.Truthy(token.value) then NotConnected
    else
      var key := UserKey(userId);
      var current := if key in entries then entries[key] else NoRecord;
      if current != NoRecord && current.status.None? then StartFailed(MissingStatusKey)
      else if current != NoRecord && current.status == Some(Processing) then AlreadySyncing(current)
      else SyncStarted(ClampedMax(requested))
  }

  /** The HTTP status of each answer. */
  function StatusCode(reply: SyncReply): (code: int)
    ensures code == 400 <==> reply.NotConnected?
    ensures code == 409 <==> reply.AlreadySyncing?
    ensures code == 202 <==> reply.SyncStarted?
    ensures code == 500 <==> reply.StartFailed?
  {
    match reply
    case NotConnected => 400
    case AlreadySyncing(_) => 409
    case SyncStarted(_) => 202
    case StartFailed(_) => 500
  }

  /** The jobs queued by the call: one sync job exactly when the answer is 202. */
  function Dispatched(reply: SyncReply, userId: int): (jobs: seq<JobQueue.QueuedJob>)
    ensures |jobs| == (if StatusCode(reply) == 202 then 1 else 0)
    ensures reply.SyncStarted? ==> jobs[0] == JobQueue.SyncMailbox(userId, reply.maxResults)
  {
    if reply.SyncStarted? then [JobQueue.SyncMailbox(userId, reply.maxResults)] else []
  }

  /** Whatever the request asks for, the job queued by `syncEmails` fetches at most 500 messages. */
  lemma DispatchWithinCap(token: Option<string>, entries: map<CacheKey, SyncRecord>, userId: int, requested: Option<int>)
    ensures forall j :: j in Dispatched(SyncEmails(token, entries, userId, requested), userId) ==>
              j == JobQueue.SyncMailbox(userId, j.maxResults) && j.maxResults <= 500
  {
  }

  /** The answer of `syncStatus`: the idle default or the cached record verbatim. */
  datatype StatusReply = Idle(lastSyncedAt: Option<Timestamp>) | Current(record: SyncRecord)

  function SyncStatusOf(entries: map<CacheKey, SyncRecord>, userId: int, lastSyncedAt: Option<Timestamp>): (reply: StatusReply)
    ensures reply.Idle? <==> UserKey(userId) !in entries || entries[UserKey(userId)] == NoRecord
    ensures reply.Idle? ==> reply.lastSyncedAt == lastSyncedAt
    ensures reply.Current? ==> reply.record == entries[UserKey(userId)]
  {
    var key := UserKey(userId);
    if key !in entries || entries[key] == NoRecord then Idle(lastSyncedAt)
    else Current(entries[key])
  }

  /** A 409 and the status endpoint show the same record. */
  lemma ConflictShowsCurrentRecord(token: Option<string>, entries: map<CacheKey, SyncRecord>, userId: int,
                                   requested: Option<int>, lastSyncedAt: Option<Timestamp>)
    requires SyncEmails(token, entries, userId, requested).AlreadySyncing?
    ensures SyncStatusOf(entries, userId, lastSyncedAt) == Current(SyncEmails(token, entries, userId, requested).record)
  {
  }

  /**
   * The orchestrator writes its record under "gmail_sync:{user}:{account}";
   * neither endpoint ever reads that key, so its record changes neither answer.
   */
  lemma AccountRecordNeverSeen(token: Option<string>, entries: map<CacheKey, SyncRecord>, userId: int,
                               accountId: int, r: SyncRecord, requested: Option<int>, lastSyncedAt: Option<Timestamp>)
    ensures SyncEmails(token, entries[AccountKey(userId, accountId) := r], userId, requested)
         == SyncEmails(token, entries, userId, requested)
    ensures SyncStatusOf(entries[AccountKey(userId, accountId) := r], userId, lastSyncedAt)
         == SyncStatusOf(entries, userId, lastSyncedAt)
  {
  }

  /** The writes the ingestion worker makes under the user-level key. */
  datatype UserWrite = CountProcessed | CountFailed | LimitGate(limit: nat)

  function Written(r: SyncRecord, w: UserWrite, now: Timestamp): SyncRecord {
    match w
    case CountProcessed => CountedProcessed(r, now).0
    case CountFailed => CountedFailed(r)
    case LimitGate(limit) => LimitReached(r, limit, now)
  }

  /** The user-level record after a run of worker writes, oldest first. */
  function AfterWrites(r: SyncRecord, writes: seq<UserWrite>, now: Timestamp): SyncRecord
    decreases |writes|
  {
    if writes == [] then r
    else Written(AfterWrites(r, writes[..|writes| - 1], now), writes[|writes| - 1], now)
  }

  /** Starting from no record, the worker's writes never produce a `processing` status. */
  lemma {:induction false} WorkerRecordNeverProcessing(writes: seq<UserWrite>, now: Timestamp)
    ensures AfterWrites(NoRecord, writes, now).status != Some(Processing)
    decreases |writes|
  {
    if writes != [] {
      var before := AfterWrites(NoRecord, writes[..|writes| - 1], now);
      WorkerRecordNeverProcessing(writes[..|writes| - 1], now);
      match writes[|writes| - 1]
      case LimitGate(limit) => WorkerWritesNeverStartProcessing(before, limit, now);
      case _ => WorkerWritesNeverStartProcessing(before, 0, now);
    }
  }

  /**
   * So the "already syncing" gate never fires on what this code base writes:
   * with a token, a call never answers 409. It starts another sync job exactly
   * when the record is missing, empty or carries a status; a record holding
   * only the worker's counters makes the call fail with a 500.
   */
  lemma GateNeverFires(token: string, entries: map<CacheKey, SyncRecord>, userId: int, requested: Option<int>,
                       writes: seq<UserWrite>, now: Timestamp)
    requires PhpText.Truthy(token)
    requires UserKey(userId) in entries ==> entries[UserKey(userId)] == AfterWrites(NoRecord, writes, now)
    ensures var reply := SyncEmails(Some(token), entries, userId, requested);
      && StatusCode(reply) != 409
      && (reply == SyncStarted(ClampedMax(requested)) <==>
            UserKey(userId) !in entries || entries[UserKey(userId)] == NoRecord || entries[UserKey(userId)].status.Some?)
      && (reply.SyncStarted? || reply == StartFailed(MissingStatusKey))
  {
    WorkerRecordNeverProcessing(writes, now);
  }

  /**
   * The first success the worker counts into an empty user record leaves
   * `{processed: 1}`; the next call then fails with a 500 and queues nothing.
   */
  lemma CountedRecordFailsStart(token: string, userId: int, requested: Option<int>, now: Timestamp)
    requires PhpText.Truthy(token)
    ensures var reply := SyncEmails(Some(token), map[UserKey(userId) := AfterWrites(NoRecord, [CountProcessed], now)],
                                     userId, requested);
      && reply == StartFailed(MissingStatusKey) && StatusCode(reply) == 500 && Dispatched(reply, userId) == []
  {
    var r := AfterWrites(NoRecord, [CountProcessed], now);
    assert [CountProcessed][..0] == [];
    assert r.processed == Some(1) && r.status.None?;
  }
}

/**
 * The sync progress record kept in the cache (the "gmail_sync:..." entries):
 * the record shape, the pure transformations each job applies to it, and the
 * cache itself as a mutable map. TTLs are not modelled.
 */
module SyncProgress {
  import opened Wrappers
  import opened Clock
  import PhpText

  datatype SyncStatus = Processing | Completed | Failed

  /**
   * The cached PHP array. Every key may be missing; a key holding null reads
   * exactly like a missing one through `??` and `isset`, so both are None.
   */
  datatype SyncRecord = SyncRecord(
    status: Option<SyncStatus>,
    totalEmails: Option<int>,
    processed: Option<int>,
    failed: Option<int>,
    startedAt: Option<Timestamp>,
    completedAt: Option<Timestamp>,
    error: Option<string>,
    message: Option<string>)

  /** What `Cache::get($key, [])` yields on a miss: the empty array. */
  const NoRecord: SyncRecord := SyncRecord(None, None, None, None, None, None, None, None)

  /** The two key shapes in use: "gmail_sync:{user}" and "gmail_sync:{user}:{account}". */
  datatype CacheKey = UserKey(userId: int) | AccountKey(userId: int, accountId: int)

  /** The record every orchestrator run writes first (SyncGmailEmailsJob.php:40-47). */
  function Started(now: Timestamp): SyncRecord {
    SyncRecord(Some(Processing), Some(0), Some(0), Some(0), Some(now), None, None, None)
  }

  /** `array_merge($record, ['total_emails' => $n])`. */
  function WithTotal(r: SyncRecord, n: int): SyncRecord
  {
    r.(totalEmails := Some(n))
  }

  /** The failure merge shared by the orchestrator's catch block and its `failed()`. */
  function MarkedFailed(r: SyncRecord, msg: string, now: Timestamp): (r': SyncRecord)
    ensures r'.status == Some(Failed) && r'.error == Some(msg) && r'.completedAt == Some(now)
    ensures r'.totalEmails == r.totalEmails && r'.processed == r.processed && r'.failed == r.failed
    ensures r'.startedAt == r.startedAt && r'.message == r.message
  {
    r.(status := Some(Failed), error := Some(msg), completedAt := Some(now))
  }

  /** `isset($s['total_emails']) && $s['processed'] >= $s['total_emails']`. */
  predicate AllProcessed(r: SyncRecord) {
    r.totalEmails.Some? && r.processed.GetOr(0) >= r.totalEmails.value
  }

  /**
   * One successful ingestion: `processed` goes up by one and, once it reaches
   * `total_emails`, the record turns completed. The flag says whether the
   * completion rule fired (the caller then stamps last_synced_at).
   */
  function CountedProcessed(r: SyncRecord, now: Timestamp): (res: (SyncRecord, bool))
    ensures res.0.processed == Some(r.processed.GetOr(0) + 1)
    ensures res.1 <==> AllProcessed(res.0)
    ensures res.1 ==> res.0.status == Some(Completed) && res.0.completedAt == Some(now)
    ensures !res.1 ==> res.0.status == r.status && res.0.completedAt == r.completedAt
    ensures res.0.totalEmails == r.totalEmails && res.0.failed == r.failed && res.0.error == r.error
  {
    var counted := r.(processed := Some(r.processed.GetOr(0) + 1));
    if AllProcessed(counted) then
      (counted.(status := Some(Completed), completedAt := Some(now)), true)
    else
      (counted, false)
  }

  /** One failed ingestion attempt: `failed` goes up by one and nothing else moves. */
  function CountedFailed(r: SyncRecord): (r': SyncRecord)
    ensures r'.failed == Some(r.failed.GetOr(0) + 1)
    ensures r' == r.(failed := r'.failed)
  {
    r.(failed := Some(r.failed.GetOr(0) + 1))
  }

  /** The message the ingestion worker's limit gate records. */
  function LimitMessage(limit: nat): string {
    "Reached maximum email limit (" + PhpText.NatToString(limit) + " emails for MVP)"
  }

  /** The ingestion worker's limit gate: completed, stamped, with the limit message. */
  function LimitReached(r: SyncRecord, limit: nat, now: Timestamp): (r': SyncRecord)
    ensures r'.status == Some(Completed) && r'.completedAt == Some(now)
    ensures r'.message == Some(LimitMessage(limit))
    ensures r'.processed == r.processed && r'.failed == r.failed && r'.totalEmails == r.totalEmails
  {
    r.(status := Some(Completed), completedAt := Some(now), message := Some(LimitMessage(limit)))
  }

  /** What an ingestion worker reports back to the shared record. */
  datatype WorkerEvent = Ingested | IngestFailed

  function Apply(r: SyncRecord, e: WorkerEvent, now: Timestamp): SyncRecord {
    match e
    case Ingested => CountedProcessed(r, now).0
    case IngestFailed => CountedFailed(r)
  }

  /** The record after the workers' events, applied in the order they happened. */
  function Replay(r: SyncRecord, events: seq<WorkerEvent>, now: Timestamp): SyncRecord
    decreases |events|
  {
    if events == [] then r
    else Apply(Replay(r, events[..|events| - 1], now), events[|events| - 1], now)
  }

  function CountOf(events: seq<WorkerEvent>, e: WorkerEvent): (n: nat)
    ensures n <= |events|
  {
    if events == [] then 0
    else CountOf(events[..|events| - 1], e) + (if events[|events| - 1] == e then 1 else 0)
  }

  /**
   * Fan-out progress: starting from the record the orchestrator leaves (status
   * processing, zero counters, total n >= 1), after any interleaving of worker
   * events the counters equal the number of successes and failures, and the
   * status is completed exactly when the successes reach n. Failures alone
   * never complete a sync, and double-counted failures cannot complete one.
   */
  lemma {:induction false} ReplayCounts(start: Timestamp, n: int, events: seq<WorkerEvent>, now: Timestamp)
    requires n >= 1
    ensures var r := Replay(WithTotal(Started(start), n), events, now);
      && r.processed == Some(CountOf(events, Ingested))
      && r.failed == Some(CountOf(events, IngestFailed))
      && r.totalEmails == Some(n)
      && r.status == Some(if CountOf(events, Ingested) >= n then Completed else Processing)
    decreases |events|
  {
    if events != [] {
      ReplayCounts(start, n, events[..|events| - 1], now);
    }
  }

  /**
   * None of the ingestion worker's writes ever produces a `processing` status
   * from a record that did not already have one.
   */
  lemma WorkerWritesNeverStartProcessing(r: SyncRecord, limit: nat, now: Timestamp)
    requires r.status != Some(Processing)
    ensures CountedProcessed(r, now).0.status != Some(Processing)
    ensures CountedFailed(r).status != Some(Processing)
    ensures LimitReached(r, limit, now).status != Some(Processing)
  {
  }

  /** The cache holding progress records. */
  class SyncCache {
    var entries: map<CacheKey, SyncRecord>

    constructor ()
      ensures entries == map[]
    {
      entries := map[];
    }

    /** `Cache::get($key, [])`. */
    function Get(key: CacheKey): (r: SyncRecord)
      reads this
      ensures key !in entries ==> r == NoRecord
      ensures key in entries ==> r == entries[key]
    {
      if key in entries then entries[key] else NoRecord
    }

    /** `Cache::put($key, $record, ...)`; the expiry is not modelled. */
    method Put(key: CacheKey, r: SyncRecord)
      modifies this
      ensures entries == old(entries)[key := r]
    {
      entries := entries[key := r];
    }

    /** `Cache::forget($key)`. */
    method Forget(key: CacheKey)
      modifies this
      ensures entries == old(entries) - {key}
    {
      entries := entries - {key};
    }
  }
}

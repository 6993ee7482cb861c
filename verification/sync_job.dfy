/**
 * SyncGmailEmailsJob: the per-account sync orchestrator. It opens a progress
 * record, checks the account's stored count against the configured cap,
 * fetches at most the remaining capacity, and fans the messages out to
 * ingestion jobs; on the short-circuit paths it fans pending rows out to AI
 * jobs instead.
 */
module SyncJob {
  import opened Wrappers
  import opened Clock
  import opened MailStore
  import opened SyncProgress
  import opened JobQueue
  import GmailService

  datatype Account = Account(id: int, userId: int)

  datatype SyncOutcome = SyncDone | SyncThrew(message: string)

  function Min(a: int, b: int): int { if a <= b then a else b }

  /**
   * How many messages to ask for: the job's maxResults (the configured limit
   * when the job was created without one), capped by the remaining capacity
   * when the limit is positive.
   */
  function FetchSize(requested: Option<int>, syncLimit: int, stored: int): (size: int)
    ensures size <= requested.GetOr(syncLimit)
    ensures syncLimit > 0 ==> size <= syncLimit - stored
    ensures size == requested.GetOr(syncLimit) || (syncLimit > 0 && size == syncLimit - stored)
  {
    var maxResults := requested.GetOr(syncLimit);
    if syncLimit > 0 then Min(maxResults, syncLimit - stored) else maxResults
  }

  /** How many ingestion jobs to dispatch for `fetched` messages. */
  function DispatchCount(fetched: nat, syncLimit: int, stored: int): (n: int)
    ensures n <= fetched
    ensures syncLimit > 0 ==> n <= syncLimit - stored
    ensures syncLimit <= 0 ==> n == fetched
    ensures syncLimit > 0 && stored < syncLimit ==> n == fetched || n == syncLimit - stored
  {
    if syncLimit > 0 then Min(fetched, syncLimit - stored) else fetched
  }

  /** The dispatch never takes an account past the cap. */
  lemma DispatchWithinCap(fetched: nat, syncLimit: int, stored: int)
    requires syncLimit > 0 && 0 <= stored < syncLimit && fetched >= 1
    ensures 1 <= DispatchCount(fetched, syncLimit, stored)
    ensures stored + DispatchCount(fetched, syncLimit, stored) <= syncLimit
  {
  }

  /** Limit 2 with 1 stored and 3 fetched: a single ingestion job. */
  lemma DispatchExample()
    ensures DispatchCount(3, 2, 1) == 1
  {
  }

  /** The ingestion jobs for the first n messages, the i-th delayed by i half-seconds. */
  function IngestJobs(account: Account, emails: seq<EmailData>, n: nat): (jobs: seq<QueuedJob>)
    requires n <= |emails|
    ensures |jobs| == n
    ensures forall i :: 0 <= i < n ==> jobs[i].IngestEmail? && jobs[i].data == emails[i]
    ensures forall i, j :: 0 <= i <= j < n ==> jobs[i].delayHalfSeconds <= jobs[j].delayHalfSeconds
  {
    seq(n, i requires 0 <= i < n => IngestEmail(account.userId, account.id, emails[i], i))
  }

  /**
   * The AI fan-out: unless it failed (and the failure was swallowed), exactly
   * one AI job per pending row was appended, and nothing else.
   */
  predicate FannedOut(before: seq<QueuedJob>, after: seq<QueuedJob>, pending: set<EmailKey>, fails: bool) {
    |before| <= |after| && after[..|before|] == before &&
    var added := after[|before|..];
    if fails then added == []
    else
      && |added| == |pending|
      && (forall j :: j in added ==> j.EnrichEmail? && j.key in pending)
      && (forall k :: k in pending ==> EnrichEmail(k) in added)
  }

  /** One AI job per key, in no particular order. */
  method EnqueueEach(queue: Queue, keys: set<EmailKey>)
    modifies queue
    ensures FannedOut(old(queue.jobs), queue.jobs, keys, false)
  {
    ghost var q0 := queue.jobs;
    var remaining := keys;
    ghost var done: set<EmailKey> := {};
    ghost var added: seq<QueuedJob> := [];
    while remaining != {}
      invariant remaining + done == keys && remaining !! done
      invariant queue.jobs == q0 + added
      invariant |added| == |done|
      invariant forall j :: j in added ==> j.EnrichEmail? && j.key in done
      invariant forall k :: k in done ==> EnrichEmail(k) in added
      decreases |remaining|
    {
      var k :| k in remaining;
      assert k !in done;
      queue.Push(EnrichEmail(k));
      added := added + [EnrichEmail(k)];
      remaining := remaining - {k};
      done := done + {k};
    }
    assert done == keys;
    assert queue.jobs[|q0|..] == added;
  }

  /** dispatchAIProcessingForPendingEmails; `fails` is a query failure, which is logged and dropped. */
  method DispatchPending(store: EmailStore, queue: Queue, accountId: int, fails: bool)
    modifies queue
    ensures FannedOut(old(queue.jobs), queue.jobs, PendingFor(store.rows, accountId), fails)
  {
    if fails {
      assert queue.jobs[|queue.jobs|..] == [];
      return;
    }
    EnqueueEach(queue, PendingFor(store.rows, accountId));
  }

  /** The dispatch loop: the first n messages, in order, with growing delays. */
  method DispatchIngestion(queue: Queue, account: Account, emails: seq<EmailData>, n: nat)
    requires n <= |emails|
    modifies queue
    ensures queue.jobs == old(queue.jobs) + IngestJobs(account, emails, n)
  {
    ghost var q0 := queue.jobs;
    for i := 0 to n
      invariant queue.jobs == q0 + IngestJobs(account, emails, i)
    {
      queue.Push(IngestEmail(account.userId, account.id, emails[i], i));
      assert IngestJobs(account, emails, i + 1) == IngestJobs(account, emails, i) + [IngestEmail(account.userId, account.id, emails[i], i)];
    }
  }

  /**
   * SyncGmailEmailsJob::handle. `requested` is the job's maxResults, the
   * mailbox is the Gmail oracle, `fanOutFails` says whether the AI fan-out's
   * query fails. The second result says whether the account's
   * last_synced_at was stamped with `now`.
   */
  method HandleSync(account: Account, requested: Option<int>, syncLimit: int, store: EmailStore,
                    cache: SyncCache, queue: Queue, mb: GmailService.Mailbox, now: Timestamp, fanOutFails: bool)
    returns (outcome: SyncOutcome, stamped: bool)
    modifies cache, queue
    ensures var key := AccountKey(account.userId, account.id);
      var stored := CountForAccount(store.rows, account.id);
      var fetched := GmailService.FetchClampedSpec(mb, FetchSize(requested, syncLimit, stored));
      if (syncLimit > 0 && syncLimit - stored <= 0) || (fetched.Fetched? && fetched.emails == []) then
        && cache.entries == old(cache.entries)[key := Started(now)] - {key}
        && FannedOut(old(queue.jobs), queue.jobs, PendingFor(store.rows, account.id), fanOutFails)
        && outcome == SyncDone && stamped
      else if fetched.FetchFailed? then
        && cache.entries == old(cache.entries)[key := MarkedFailed(Started(now), fetched.message, now)]
        && queue.jobs == old(queue.jobs)
        && outcome == SyncThrew(fetched.message) && !stamped
      else
        var n := DispatchCount(|fetched.emails|, syncLimit, stored);
        && 0 <= n
        && cache.entries == old(cache.entries)[key := WithTotal(Started(now), n)]
        && queue.jobs == old(queue.jobs) + IngestJobs(account, fetched.emails, n)
        && outcome == SyncDone && !stamped
  {
    var key := AccountKey(account.userId, account.id);
    cache.Put(key, Started(now));
    var stored := CountForAccount(store.rows, account.id);
    if syncLimit > 0 && syncLimit - stored <= 0 {
      cache.Forget(key);
      DispatchPending(store, queue, account.id, fanOutFails);
      return SyncDone, true;
    }
    var size := FetchSize(requested, syncLimit, stored);
    var fetched := GmailService.FetchEmailsClamped(mb, size);
    if fetched.FetchFailed? {
      var record := cache.Get(key);
      cache.Put(key, MarkedFailed(record, fetched.message, now));
      return SyncThrew(fetched.message), false;
    }
    var emails := fetched.emails;
    if emails == [] {
      cache.Forget(key);
      DispatchPending(store, queue, account.id, fanOutFails);
      return SyncDone, true;
    }
    var n := DispatchCount(|emails|, syncLimit, stored);
    var record := cache.Get(key);
    cache.Put(key, WithTotal(record, n));
    DispatchIngestion(queue, account, emails, n);
    return SyncDone, false;
  }

  /** SyncGmailEmailsJob::failed: the same failure merge as the catch block. */
  method Failed(cache: SyncCache, account: Account, message: string, now: Timestamp)
    modifies cache
    ensures var key := AccountKey(account.userId, account.id);
      cache.entries == old(cache.entries)[key := MarkedFailed(old(cache.Get(key)), message, now)]
  {
    var key := AccountKey(account.userId, account.id);
    var record := cache.Get(key);
    cache.Put(key, MarkedFailed(record, message, now));
  }

  /**
   * After a dispatching run the account's record is still `processing` with
   * nothing processed and its total set to the number of jobs dispatched;
   * started with no cap, every fetched message gets a job.
   */
  lemma DispatchedRecord(now: Timestamp, fetched: nat, syncLimit: int, stored: int)
    ensures var r := WithTotal(Started(now), DispatchCount(fetched, syncLimit, stored));
      && r.status == Some(SyncStatus.Processing) && r.processed == Some(0) && r.failed == Some(0)
      && r.completedAt == None
      && (syncLimit <= 0 ==> r.totalEmails == Some(fetched))
  {
  }
}

/** The queue as the jobs see it: a log of dispatched jobs, appended to in order. */
module JobQueue {
  import opened MailStore

  datatype QueuedJob =
    /** ProcessEmailJob for one fetched message, delayed by `delayHalfSeconds` half-seconds. */
    | IngestEmail(userId: int, accountId: int, data: EmailData, delayHalfSeconds: nat)
    /** ProcessEmailWithAIJob for one stored row. */
    | EnrichEmail(key: EmailKey)
    /** SyncGmailEmailsJob as the sync endpoint dispatches it. */
    | SyncMailbox(userId: int, maxResults: int)

  class Queue {
    var jobs: seq<QueuedJob>

    constructor ()
      ensures jobs == []
    {
      jobs := [];
    }

    /** `Job::dispatch(...)`. */
    method Push(j: QueuedJob)
      modifies this
      ensures jobs == old(jobs) + [j]
    {
      jobs := jobs + [j];
    }
  }
}

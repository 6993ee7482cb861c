/**
 * ProcessEmailWithAIJob: one stored row goes to `processing`, through
 * processEmail, then to `completed` (and possibly archived) or back to
 * `pending` with the reason; after the last retry `failed()` marks it
 * `failed`. Gmail's archive call is an oracle.
 */
module AiJob {
  import opened Wrappers
  import opened Clock
  import opened MailStore
  import opened CategoryModel
  import opened OpenAIService

  /** What the archive step observes: an exception (from the token set-up or the call), or the call's result. */
  datatype ArchiveReply = ArchiveThrew | ArchiveReturned(archived: bool)

  datatype AiOutcome = AiDone | AiThrew(message: string)

  /** The job's `$tries`. */
  const Tries: nat := 3

  /** The ids of the user's categories, as `$user->categories()` yields them. */
  function UserCategoryIds(categories: map<int, Category>, userId: int): (ids: set<int>)
    ensures forall id :: id in ids <==> id in categories && categories[id].userId == userId
  {
    set id | id in categories && categories[id].userId == userId
  }

  /** `update(['status' => 'processing'])`. */
  function MarkedProcessing(e: Email): (e': Email)
    ensures e'.status == Some(EmailStatus.Processing)
    ensures e' == e.(status := e'.status)
  {
    e.(status := Some(EmailStatus.Processing))
  }

  /**
   * The success update as it reaches the row: category and summary from the
   * result, completed, reason cleared. The update also passes processed_at,
   * but that column is not mass assignable, so `update` drops it and the
   * row keeps its old value. The unsubscribe columns are not written either.
   */
  function CompletedRow(e: Email, r: ProcessResult): (e': Email)
    ensures e'.categoryId == r.categoryId && e'.aiSummary == r.summary
    ensures e'.status == Some(Completed) && e'.processedAt == e.processedAt && e'.failedReason == None
    ensures e'.isUnsubscribeAvailable == e.isUnsubscribeAvailable && e'.unsubscribeUrl == e.unsubscribeUrl
    ensures IngestionOf(e') == IngestionOf(e) && e'.isArchived == e.isArchived
    ensures e'.userId == e.userId && e'.gmailId == e.gmailId && e'.googleAccountId == e.googleAccountId
  {
    e.(categoryId := r.categoryId, aiSummary := r.summary, status := Some(Completed), failedReason := None)
  }

  /** As written, a row that was never stamped is still unstamped after a successful run. */
  lemma CompletionKeepsProcessedAtNull(e: Email, r: ProcessResult)
    requires e.processedAt == None
    ensures CompletedRow(e, r).processedAt == None
    ensures CompletedRow(e, r).status == Some(Completed)
  {
  }

  /**
   * The intended success update, with processed_at mass assignable: the
   * as-written row plus the completion time.
   */
  function StampedCompletedRow(e: Email, r: ProcessResult, now: Timestamp): (e': Email)
    ensures e'.processedAt == Some(now)
    ensures e'.(processedAt := e.processedAt) == CompletedRow(e, r)
  {
    e.(categoryId := r.categoryId, aiSummary := r.summary, status := Some(Completed),
       processedAt := Some(now), failedReason := None)
  }

  /**
   * The stamped row drops out of the fan-out on processed_at alone: even
   * with its status set back to pending, no account's pending query picks it
   * up again. The as-written row does not have this guarantee.
   */
  lemma StampedRowLeavesFanOut(e: Email, r: ProcessResult, now: Timestamp)
    ensures !NeedsEnrichment(StampedCompletedRow(e, r, now))
    ensures !NeedsEnrichment(StampedCompletedRow(e, r, now).(status := Some(Pending)))
    ensures e.processedAt == None ==> NeedsEnrichment(CompletedRow(e, r).(status := Some(Pending)))
  {
  }

  /** The message the failure path throws and records. */
  function FailureMessage(r: ProcessResult): string {
    r.error.GetOr("AI processing failed")
  }

  /** The retry update: back to pending with the reason; processed_at is untouched. */
  function RetryRow(e: Email, reason: string): (e': Email)
    ensures e'.status == Some(Pending) && e'.failedReason == Some(reason)
    ensures e' == e.(status := e'.status, failedReason := e'.failedReason)
  {
    e.(status := Some(Pending), failedReason := Some(reason))
  }

  /** The update `failed()` makes once the retries are used up. */
  function PermanentlyFailedRow(e: Email, message: string): (e': Email)
    ensures e'.status == Some(EmailStatus.Failed)
    ensures e'.failedReason == Some("Permanently failed after " + PhpText.NatToString(Tries) + " attempts: " + message)
    ensures e' == e.(status := e'.status, failedReason := e'.failedReason)
  {
    e.(status := Some(EmailStatus.Failed),
       failedReason := Some("Permanently failed after " + PhpText.NatToString(Tries) + " attempts: " + message))
  }

  /** The rendered retry count is "3". */
  lemma TriesRendered()
    ensures PhpText.NatToString(Tries) == "3"
  {
  }

  /**
   * The archive gate: global auto-archive on, a truthy category id, the
   * category found, and its archive_after_processing set.
   */
  predicate ArchiveGate(autoArchive: bool, categoryId: Option<int>, categories: map<int, Category>) {
    && autoArchive
    && categoryId.Some? && categoryId.value != 0
    && categoryId.value in categories
    && categories[categoryId.value].archiveAfterProcessing
  }

  /**
   * archiveEmailInGmail: the guard chain, then the archive call. Only a call
   * that returns true marks the row archived; an exception is swallowed.
   */
  method ArchiveEmailInGmail(store: EmailStore, key: EmailKey, autoArchive: bool,
                             categories: map<int, Category>, archive: ArchiveReply) returns (called: bool)
    requires store.Valid() && key in store.rows
    modifies store
    ensures store.Valid()
    ensures called == ArchiveGate(autoArchive, old(store.rows[key]).categoryId, categories)
    ensures store.rows == if called && archive == ArchiveReturned(true)
      then old(store.rows)[key := old(store.rows[key]).(isArchived := true)] else old(store.rows)
  {
    if !autoArchive {
      return false;
    }
    var categoryId := store.rows[key].categoryId;
    if categoryId.None? || categoryId.value == 0 {
      return false;
    }
    if categoryId.value !in categories {
      return false;
    }
    if !categories[categoryId.value].archiveAfterProcessing {
      return false;
    }
    called := true;
    match archive {
      case ArchiveThrew =>
      case ArchiveReturned(archived) =>
        if archived {
          store.Update(key, store.rows[key].(isArchived := true));
        }
    }
  }

  /** What one run of the job does to its row, what it ends with, and whether it called the archive API. */
  datatype JobEffect = JobEffect(row: Email, outcome: AiOutcome, archiveCalled: bool)

  /**
   * One run of the job on row e0. The row ends `completed` exactly when the
   * run succeeds and `pending` otherwise; archiving is attempted only on
   * success; only a successful archive call sets is_archived; the
   * unsubscribe columns and the message columns are never written.
   */
  function EnrichmentEffect(e0: Email, categories: map<int, Category>, o: Oracles,
                            autoArchive: bool, archive: ArchiveReply): (eff: JobEffect)
    ensures eff.row.status == Some(Completed) <==> eff.outcome == AiDone
    ensures eff.row.status == Some(Completed) || eff.row.status == Some(Pending)
    ensures eff.outcome.AiThrew? ==> !eff.archiveCalled && eff.row.failedReason == Some(eff.outcome.message)
    ensures eff.outcome == AiDone ==> eff.row.failedReason == None
    ensures eff.row.processedAt == e0.processedAt
    ensures eff.row.isArchived <==> e0.isArchived || (eff.archiveCalled && archive == ArchiveReturned(true))
    ensures eff.row.isUnsubscribeAvailable == e0.isUnsubscribeAvailable && eff.row.unsubscribeUrl == e0.unsubscribeUrl
    ensures IngestionOf(eff.row) == IngestionOf(e0)
    ensures eff.row.userId == e0.userId && eff.row.gmailId == e0.gmailId && eff.row.googleAccountId == e0.googleAccountId
  {
    var e1 := MarkedProcessing(e0);
    EffectOf(e1, ProcessSpec(e1, UserCategoryIds(categories, e1.userId), o), categories, autoArchive, archive)
  }

  /** The job's updates once processEmail has returned r for the row e1. */
  function EffectOf(e1: Email, r: ProcessResult, categories: map<int, Category>,
                    autoArchive: bool, archive: ArchiveReply): (eff: JobEffect)
    ensures eff.row.status == Some(Completed) <==> r.success
    ensures eff.outcome == AiDone <==> r.success
    ensures !r.success ==> eff.row.status == Some(Pending)
    ensures !r.success ==> && !eff.archiveCalled && eff.outcome == AiThrew(FailureMessage(r))
                           && eff.row.failedReason == Some(FailureMessage(r))
    ensures eff.row.processedAt == e1.processedAt
    ensures r.success ==> && eff.row.failedReason == None
                          && eff.row.categoryId == r.categoryId && eff.row.aiSummary == r.summary
                          && eff.archiveCalled == ArchiveGate(autoArchive, r.categoryId, categories)
    ensures eff.row.isArchived <==> e1.isArchived || (eff.archiveCalled && archive == ArchiveReturned(true))
    ensures eff.row.isUnsubscribeAvailable == e1.isUnsubscribeAvailable && eff.row.unsubscribeUrl == e1.unsubscribeUrl
    ensures IngestionOf(eff.row) == IngestionOf(e1)
    ensures eff.row.userId == e1.userId && eff.row.gmailId == e1.gmailId && eff.row.googleAccountId == e1.googleAccountId
  {
    if r.success then
      var done := CompletedRow(e1, r);
      var called := ArchiveGate(autoArchive, r.categoryId, categories);
      JobEffect(if called && archive == ArchiveReturned(true) then done.(isArchived := true) else done, AiDone, called)
    else
      JobEffect(RetryRow(e1, FailureMessage(r)), AiThrew(FailureMessage(r)), false)
  }

  /** The success path: the completion update, then the archive step. */
  method Complete(store: EmailStore, key: EmailKey, e1: Email, r: ProcessResult,
                  autoArchive: bool, categories: map<int, Category>, archive: ArchiveReply) returns (called: bool)
    requires store.Valid() && key in store.rows
    requires e1.userId == key.userId && e1.gmailId == key.gmailId
    modifies store
    ensures store.Valid()
    ensures var done := CompletedRow(e1, r);
      && called == ArchiveGate(autoArchive, r.categoryId, categories)
      && store.rows == old(store.rows)[key := if called && archive == ArchiveReturned(true) then done.(isArchived := true) else done]
  {
    store.Update(key, CompletedRow(e1, r));
    called := ArchiveEmailInGmail(store, key, autoArchive, categories, archive);
  }

  /** The failure path: the pending update, then the catch block's update with the thrown message. */
  method Retry(store: EmailStore, key: EmailKey, e1: Email, r: ProcessResult) returns (message: string)
    requires store.Valid() && key in store.rows
    requires e1.userId == key.userId && e1.gmailId == key.gmailId
    modifies store
    ensures store.Valid()
    ensures message == FailureMessage(r)
    ensures store.rows == old(store.rows)[key := RetryRow(e1, message)]
  {
    store.Update(key, RetryRow(e1, r.error.GetOr("AI processing failed without specific error")));
    message := FailureMessage(r);
    store.Update(key, RetryRow(e1, message));
  }

  /** ProcessEmailWithAIJob::handle for the row under `key`. */
  method HandleEnrichment(store: EmailStore, key: EmailKey, categories: map<int, Category>, o: Oracles,
                          autoArchive: bool, archive: ArchiveReply)
    returns (outcome: AiOutcome, archiveCalled: bool)
    requires store.Valid() && key in store.rows
    modifies store
    ensures store.Valid()
    ensures var eff := EnrichmentEffect(old(store.rows[key]), categories, o, autoArchive, archive);
      && store.rows == old(store.rows)[key := eff.row]
      && outcome == eff.outcome && archiveCalled == eff.archiveCalled
  {
    var e0 := store.rows[key];
    var e1 := MarkedProcessing(e0);
    store.Update(key, e1);
    var r := ProcessEmail(e1, UserCategoryIds(categories, e1.userId), o);
    outcome, archiveCalled := Finish(store, key, e1, r, categories, autoArchive, archive);
  }

  /** The rest of handle once processEmail has returned. */
  method Finish(store: EmailStore, key: EmailKey, e1: Email, r: ProcessResult, categories: map<int, Category>,
                autoArchive: bool, archive: ArchiveReply)
    returns (outcome: AiOutcome, archiveCalled: bool)
    requires store.Valid() && key in store.rows
    requires e1.userId == key.userId && e1.gmailId == key.gmailId
    modifies store
    ensures store.Valid()
    ensures var eff := EffectOf(e1, r, categories, autoArchive, archive);
      && store.rows == old(store.rows)[key := eff.row]
      && outcome == eff.outcome && archiveCalled == eff.archiveCalled
  {
    if r.success {
      archiveCalled := Complete(store, key, e1, r, autoArchive, categories, archive);
      outcome := AiDone;
    } else {
      var message := Retry(store, key, e1, r);
      outcome, archiveCalled := AiThrew(message), false;
    }
  }

  /** ProcessEmailWithAIJob::failed. */
  method Failed(store: EmailStore, key: EmailKey, message: string)
    requires store.Valid() && key in store.rows
    modifies store
    ensures store.Valid()
    ensures store.rows == old(store.rows)[key := PermanentlyFailedRow(old(store.rows[key]), message)]
  {
    store.Update(key, PermanentlyFailedRow(store.rows[key], message));
  }

  /**
   * Both fallback texts are dead: a run that fails always carries the
   * summary's error, so the recorded reason is exactly processEmail's error.
   */
  lemma FailureReasonIsError(e: Email, categories: map<int, Category>, o: Oracles)
    ensures var r := ProcessSpec(MarkedProcessing(e), UserCategoryIds(categories, e.userId), o);
      !r.success ==> r.error.Some? && FailureMessage(r) == r.error.value
  {
    FailureHasError(MarkedProcessing(e), UserCategoryIds(categories, e.userId), o);
  }

  /**
   * A row the ingestion worker created carries the column default
   * is_unsubscribe_available = false, so its enrichment never runs
   * unsubscribe detection and reports no unsubscribe link.
   */
  lemma FreshRowsSkipDetection(e: Email, categories: map<int, Category>, o: Oracles)
    requires EnrichmentOf(e) == NewRowEnrichment
    ensures var r := ProcessSpec(MarkedProcessing(e), UserCategoryIds(categories, e.userId), o);
      && DetectUnsubscribe !in r.ran
      && !r.isUnsubscribeAvailable && r.unsubscribeUrl == None
  {
    assert MarkedProcessing(e).isUnsubscribeAvailable == Some(false);
    assert MarkedProcessing(e).unsubscribeUrl == None;
  }

  /**
   * With the checked categorisation, a row that had no category is only ever
   * archived under one of its owner's own categories.
   */
  lemma ArchiveOnlyUnderOwnCategory(e: Email, categories: map<int, Category>, o: Oracles, autoArchive: bool)
    requires e.categoryId.None?
    ensures var r := ProcessSpec(MarkedProcessing(e), UserCategoryIds(categories, e.userId), o);
      ArchiveGate(autoArchive, r.categoryId, categories) ==> categories[r.categoryId.value].userId == e.userId
  {
  }
}

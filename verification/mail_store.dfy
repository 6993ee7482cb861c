/**
 * The `emails` table as the pipeline sees it: the normalised message the mail
 * helpers produce, the stored row, and the table as a map keyed on the pair
 * the ingestion worker looks rows up by, (user_id, gmail_id).
 */
module MailStore {
  import opened Wrappers
  import opened Clock

  /** The row's AI workflow status column. */
  datatype EmailStatus = Pending | Processing | Completed | Failed

  /** One normalised message, as GmailService::getEmailDetails returns it. */
  datatype EmailData = EmailData(
    id: string,
    threadId: string,
    subject: Option<string>,
    from: Option<string>,
    to: Option<string>,
    date: Option<string>,
    body: string,
    snippet: string,
    labels: seq<string>,
    isUnread: bool,
    isStarred: bool,
    hasAttachments: bool,
    internalDate: Timestamp)

  /** A parsed "From" header. */
  datatype Sender = Sender(name: Option<string>, email: Option<string>)

  /** One stored row. */
  datatype Email = Email(
    userId: int,
    googleAccountId: Option<int>,
    gmailId: string,
    threadId: string,
    subject: Option<string>,
    fromEmail: Option<string>,
    fromName: Option<string>,
    to: Option<string>,
    date: Option<string>,
    body: Option<string>,
    snippet: Option<string>,
    labels: seq<string>,
    isUnread: bool,
    isStarred: bool,
    hasAttachments: bool,
    internalDate: Timestamp,
    categoryId: Option<int>,
    aiSummary: Option<string>,
    isUnsubscribeAvailable: Option<bool>,
    unsubscribeUrl: Option<string>,
    status: Option<EmailStatus>,
    failedReason: Option<string>,
    processedAt: Option<Timestamp>,
    isArchived: bool)

  datatype EmailKey = EmailKey(userId: int, gmailId: string)

  /** The columns the ingestion worker's `fill` writes. */
  datatype IngestionView = IngestionView(
    threadId: string, subject: Option<string>, fromEmail: Option<string>, fromName: Option<string>,
    to: Option<string>, date: Option<string>, body: Option<string>, snippet: Option<string>,
    labels: seq<string>, isUnread: bool, isStarred: bool, hasAttachments: bool, internalDate: Timestamp)

  /** Every column the ingestion worker must leave alone on an existing row. */
  datatype EnrichmentView = EnrichmentView(
    googleAccountId: Option<int>, categoryId: Option<int>, aiSummary: Option<string>,
    isUnsubscribeAvailable: Option<bool>, unsubscribeUrl: Option<string>, status: Option<EmailStatus>,
    failedReason: Option<string>, processedAt: Option<Timestamp>, isArchived: bool)

  function IngestionOf(e: Email): IngestionView {
    IngestionView(e.threadId, e.subject, e.fromEmail, e.fromName, e.to, e.date, e.body, e.snippet,
                  e.labels, e.isUnread, e.isStarred, e.hasAttachments, e.internalDate)
  }

  function EnrichmentOf(e: Email): EnrichmentView {
    EnrichmentView(e.googleAccountId, e.categoryId, e.aiSummary, e.isUnsubscribeAvailable, e.unsubscribeUrl,
                   e.status, e.failedReason, e.processedAt, e.isArchived)
  }

  /** What one message's ingestion writes into the ingestion columns. */
  function IngestionFrom(d: EmailData, from: Sender): IngestionView {
    IngestionView(d.threadId, d.subject, from.email, from.name, d.to, d.date, Some(d.body), Some(d.snippet),
                  d.labels, d.isUnread, d.isStarred, d.hasAttachments, d.internalDate)
  }

  /**
   * The enrichment columns of a row `firstOrNew` creates: the table's column
   * defaults ('pending' status, is_unsubscribe_available 0) and nothing else;
   * `fill` does not set google_account_id.
   */
  const NewRowEnrichment: EnrichmentView :=
    EnrichmentView(None, None, None, Some(false), None, Some(Pending), None, None, false)

  /**
   * `firstOrNew([...])->fill([...])->save()` for one key: the ingestion
   * columns come from the message, everything else is kept from the existing
   * row, or takes the column defaults when there is none.
   */
  function Filled(existing: Option<Email>, key: EmailKey, d: EmailData, from: Sender): (e: Email)
    requires existing.Some? ==> existing.value.userId == key.userId && existing.value.gmailId == key.gmailId
    ensures e.userId == key.userId && e.gmailId == key.gmailId
    ensures IngestionOf(e) == IngestionFrom(d, from)
    ensures existing.Some? ==> EnrichmentOf(e) == EnrichmentOf(existing.value)
    ensures existing.None? ==> EnrichmentOf(e) == NewRowEnrichment
  {
    var base := if existing.Some? then existing.value
      else Email(key.userId, None, key.gmailId, "", None, None, None, None, None, None, None, [],
                 false, false, false, 0, None, None, Some(false), None, Some(Pending), None, None, false);
    base.(threadId := d.threadId, subject := d.subject, fromEmail := from.email, fromName := from.name,
          to := d.to, date := d.date, body := Some(d.body), snippet := Some(d.snippet), labels := d.labels,
          isUnread := d.isUnread, isStarred := d.isStarred, hasAttachments := d.hasAttachments,
          internalDate := d.internalDate)
  }

  /** Every row sits under the key formed from its own user and message id. */
  ghost predicate KeysMatch(rows: map<EmailKey, Email>) {
    forall k :: k in rows ==> rows[k].userId == k.userId && rows[k].gmailId == k.gmailId
  }

  /** The table after one upsert. */
  function Upserted(rows: map<EmailKey, Email>, key: EmailKey, d: EmailData, from: Sender): (rows': map<EmailKey, Email>)
    requires KeysMatch(rows)
    ensures KeysMatch(rows')
    ensures rows'.Keys == rows.Keys + {key}
  {
    rows[key := Filled(if key in rows then Some(rows[key]) else None, key, d, from)]
  }

  /** The table after ingesting the same message id several times, in order. */
  function UpsertedAll(rows: map<EmailKey, Email>, key: EmailKey, batch: seq<(EmailData, Sender)>): (rows': map<EmailKey, Email>)
    requires KeysMatch(rows)
    ensures KeysMatch(rows')
    decreases |batch|
  {
    if batch == [] then rows
    else Upserted(UpsertedAll(rows, key, batch[..|batch| - 1]), key, batch[|batch| - 1].0, batch[|batch| - 1].1)
  }

  /** The key set and the other rows after repeated ingestion of one key. */
  lemma {:induction false} RepeatedIngestionFrame(rows: map<EmailKey, Email>, key: EmailKey, batch: seq<(EmailData, Sender)>)
    requires KeysMatch(rows)
    requires batch != []
    ensures UpsertedAll(rows, key, batch).Keys == rows.Keys + {key}
    ensures forall k :: k in rows && k != key ==> UpsertedAll(rows, key, batch)[k] == rows[k]
    decreases |batch|
  {
    if |batch| > 1 {
      RepeatedIngestionFrame(rows, key, batch[..|batch| - 1]);
    }
  }

  /**
   * Idempotent ingestion: however often one message id is ingested, there is
   * one row for it (the table gains at most that key), it holds the latest
   * message's ingestion columns, its enrichment columns are those it had
   * before (or the defaults), and every other row is untouched.
   */
  lemma {:induction false} RepeatedIngestion(rows: map<EmailKey, Email>, key: EmailKey, batch: seq<(EmailData, Sender)>)
    requires KeysMatch(rows)
    requires batch != []
    ensures var rows' := UpsertedAll(rows, key, batch);
      && rows'.Keys == rows.Keys + {key}
      && |rows'| <= |rows| + 1
      && IngestionOf(rows'[key]) == IngestionFrom(batch[|batch| - 1].0, batch[|batch| - 1].1)
      && EnrichmentOf(rows'[key]) == (if key in rows then EnrichmentOf(rows[key]) else NewRowEnrichment)
      && (forall k :: k in rows && k != key ==> rows'[k] == rows[k])
    decreases |batch|
  {
    RepeatedIngestionFrame(rows, key, batch);
    var last := batch[|batch| - 1];
    var prev := UpsertedAll(rows, key, batch[..|batch| - 1]);
    var rows' := UpsertedAll(rows, key, batch);
    var before := if key in prev then Some(prev[key]) else None;
    assert rows'[key] == Filled(before, key, last.0, last.1);
    if |batch| > 1 {
      RepeatedIngestion(rows, key, batch[..|batch| - 1]);
    }
    if key !in rows {
      assert |rows.Keys + {key}| == |rows.Keys| + 1;
    }
  }

  /** The fan-out filter: status null or 'pending', and processed_at null. */
  predicate NeedsEnrichment(e: Email) {
    (e.status == None || e.status == Some(Pending)) && e.processedAt == None
  }

  /** The rows of one Google account that still need AI work. */
  function PendingFor(rows: map<EmailKey, Email>, accountId: int): set<EmailKey>
  {
    set k | k in rows && rows[k].googleAccountId == Some(accountId) && NeedsEnrichment(rows[k])
  }

  /** `Email::where('user_id', $u)->count()`. */
  function CountForUser(rows: map<EmailKey, Email>, userId: int): nat {
    |set k | k in rows && k.userId == userId|
  }

  /** `Email::where('google_account_id', $a)->count()`. */
  function CountForAccount(rows: map<EmailKey, Email>, accountId: int): nat {
    |set k | k in rows && rows[k].googleAccountId == Some(accountId)|
  }

  /**
   * The worker's rows never reach an account's count: a row the ingestion
   * worker creates has no google_account_id, so ingesting a new message leaves
   * every account's count where it was.
   */
  lemma {:induction false} NewRowsNotCountedForAccount(rows: map<EmailKey, Email>, key: EmailKey, d: EmailData, from: Sender, accountId: int)
    requires KeysMatch(rows)
    requires key !in rows
    ensures CountForAccount(Upserted(rows, key, d, from), accountId) == CountForAccount(rows, accountId)
  {
    var rows' := Upserted(rows, key, d, from);
    assert rows'[key].googleAccountId == None;
    assert (set k | k in rows' && rows'[k].googleAccountId == Some(accountId))
        == (set k | k in rows && rows[k].googleAccountId == Some(accountId));
  }

  /**
   * Ingestion never feeds the AI fan-out: an upsert keeps an existing row's
   * account, status and processed_at, and a new row has no account, so no
   * account's pending set changes and a newly ingested message is in none.
   */
  lemma {:induction false} IngestionLeavesPendingAlone(rows: map<EmailKey, Email>, key: EmailKey, d: EmailData, from: Sender, accountId: int)
    requires KeysMatch(rows)
    ensures PendingFor(Upserted(rows, key, d, from), accountId) == PendingFor(rows, accountId)
    ensures key !in rows ==> key !in PendingFor(Upserted(rows, key, d, from), accountId)
  {
    var rows' := Upserted(rows, key, d, from);
    var before := if key in rows then EnrichmentOf(rows[key]) else NewRowEnrichment;
    assert EnrichmentOf(rows'[key]) == before;
    assert rows'[key].googleAccountId == before.googleAccountId;
    assert NeedsEnrichment(rows'[key]) <==> (before.status == None || before.status == Some(Pending)) && before.processedAt == None;
  }

  /** The table, updated in place by the jobs. */
  class EmailStore {
    var rows: map<EmailKey, Email>

    ghost predicate Valid()
      reads this
    {
      KeysMatch(rows)
    }

    constructor ()
      ensures Valid() && rows == map[]
    {
      rows := map[];
    }

    /** `firstOrNew` + `fill` + `save` under one key. */
    method Upsert(key: EmailKey, d: EmailData, from: Sender)
      requires Valid()
      modifies this
      ensures Valid()
      ensures rows == Upserted(old(rows), key, d, from)
    {
      rows := Upserted(rows, key, d, from);
    }

    /** `$email->update([...])` on one existing row. */
    method Update(key: EmailKey, e: Email)
      requires Valid() && key in rows
      requires e.userId == key.userId && e.gmailId == key.gmailId
      modifies this
      ensures Valid()
      ensures rows == old(rows)[key := e]
    {
      rows := rows[key := e];
    }
  }
}

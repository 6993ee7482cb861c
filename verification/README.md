# inboxPilot mail pipeline, modelled in Dafny

inboxPilot is a Laravel application. It connects a user's Gmail accounts,
copies their messages into an `emails` table, and enriches each stored message
with an AI summary, a category chosen among the user's own categories, and
unsubscribe information. This project models the core of that pipeline and
the small pure helpers around it:

- the sync orchestrator (`SyncGmailEmailsJob`), which lists a mailbox page by
  page through `GmailService`, respects a per-account cap, and fans out one
  ingestion job per message;
- the ingestion worker (`ProcessEmailJob`), which upserts the row, parses the
  "From" header, and counts progress in a cached record;
- the enrichment worker (`ProcessEmailWithAIJob`), which drives
  `OpenAIService::processEmail`, records the outcome, and may archive the
  message in Gmail;
- the sync endpoints of `Api/GmailController`;
- the cached lookups of `UnsubscribeAutomationService`;
- the presentation helpers `TextFormatter` and `Category`, the primary-account
  rule of `GoogleAccount`, and the rules of `StoreCategoryRequest`.

Each source file becomes one module:

| module | file |
|---|---|
| `SyncJob` | `sync_job.dfy` |
| `Ingestion` | `ingestion.dfy` |
| `AiJob` | `ai_job.dfy` |
| `OpenAIService` | `openai_service.dfy` |
| `GmailService` | `gmail_service.dfy` |
| `Base64` | `base64.dfy` |
| `GmailController` | `gmail_controller.dfy` |
| `UnsubscribeAutomation` | `unsubscribe_automation.dfy` |
| `TextFormatter` | `text_formatter.dfy` |
| `CategoryModel` | `category.dfy` |
| `GoogleAccounts` | `google_account.dfy` |
| `CategoryRequest` | `category_request.dfy` |

Shared modules:

- `MailStore` (`mail_store.dfy`): the `emails` table.
- `SyncProgress` (`sync_progress.dfy`): the cached sync records.
- `JobQueue` (`job_queue.dfy`): the queue.
- `PhpText` (`php_text.dfy`): PHP's string built-ins.
- `Wrappers` and `Clock` (`wrappers.dfy`).

State that the jobs change in place is modelled by classes:

- `MailStore.EmailStore`: the `emails` table, keyed by (user id, Gmail id).
- `SyncProgress.SyncCache`: the cached sync-progress records.
- `JobQueue.Queue`: the log of dispatched jobs.
- `UnsubscribeAutomation.AutomationCache`: the cached automation statuses.
- `GoogleAccounts.AccountTable`: the accounts table.

Loops in the source are methods with loop invariants, each proved against a
specification function.

The outside world is modelled as parameters:

- The Gmail API is a `Mailbox`: the listing pages in request order and the full messages by id.
- Each OpenAI call is a `Reply`, either an exception message or the reply text.
- The unsubscribe API is a `JobsReply`.
- `json_decode`, `filter_var` and `FILTER_VALIDATE_EMAIL` are functions passed in.
- `now()` is an opaque `Timestamp`.

PHP details are modelled explicitly:

- `empty()` on strings: only "" and "0" are falsy.
- `trim`/`rtrim` with their character lists.
- ASCII `strtolower`.
- non-strict `base64_decode`.
- `str_replace` with an array as successive passes.
- the `(int)` cast of a digit run.
- integer truncation of `internalDate / 1000`.
- Laravel's `firstWhere` (first match) and `keyBy` (last match wins).

## Model

| member | source | states |
|---|---|---|
| PhpText.TrimLeft | app/Jobs/ProcessEmailJob.php:122-123 | the result is a suffix of the input; everything removed is a trim character and the result does not start with one |
| PhpText.TrimRightOf | app/Services/TextFormatter.php:27 | `rtrim` with a list: the result is a prefix, everything cut is in the list, and the last kept character is not |
| PhpText.Trim | app/Services/OpenAIService.php:65 | the trimmed text is no longer than the input and neither starts nor ends with a trim character (the slice property is `TrimIsSlice`) |
| PhpText.LeadingTrim | app/Services/OpenAIService.php:65 | the length of the leading run `trim` cuts off, never more than the input |
| PhpText.TrimIsSlice | app/Services/OpenAIService.php:65 | `trim` returns the slice of the input after its leading trim characters (`LeadingTrim` of them), and everything cut off on either side is a trim character |
| PhpText.TrimOfTrimmed | app/Services/OpenAIService.php:65 | trim is the identity on text with nothing to strip |
| PhpText.LowerChar | app/Services/GmailService.php:162 | upper-case ASCII letters move down by 32; every other character is unchanged |
| PhpText.Lower | app/Services/GmailService.php:162 | `strtolower` keeps the length and lowers each character in place |
| PhpText.DigitChar | app/Jobs/ProcessEmailWithAIJob.php:152 | a digit value renders as a decimal digit character |
| PhpText.NatToString | app/Jobs/ProcessEmailWithAIJob.php:152 | the rendering of an int is a non-empty digit string with a leading zero only for 0 |
| PhpText.IntToString | app/Jobs/SyncGmailEmailsJob.php:36 | a non-negative id renders as digits whose `(int)` value is the id, with no leading zero; a negative one as '-' followed by the digits of its magnitude |
| PhpText.DigitsValue | app/Services/OpenAIService.php:71 | `(int)` of an empty digit run is 0 |
| PhpText.DigitsValueOfNatToString | app/Services/OpenAIService.php:71 | reading back a rendered number gives that number: `(int)` inverts interpolation |
| PhpText.ReplaceAllRemoves | app/Services/TextFormatter.php:41 | after `str_replace` (`ReplaceAll`) of a one-character search string, that character is gone unless the replacement holds it |
| PhpText.ReplaceAllKeepsAbsent | app/Services/TextFormatter.php:41 | `str_replace` never introduces a character that neither the input nor the replacement holds |
| Base64.SextetChar | app/Services/GmailService.php:223-226 | each alphabet character decodes back to its sextet, and none is '-', '_' or '=' |
| Base64.Translate | app/Services/GmailService.php:225 | `strtr` with two-character lists keeps the length, maps the first listed character to the first replacement and the second to the second, and keeps every other character |
| Base64.SextetsAppend | app/Services/GmailService.php:225 | the sextets of a concatenation are the concatenation of the sextets |
| Base64.SextetsOfFour | app/Services/GmailService.php:225 | the sextets of a four-character group are those of its characters in order |
| Base64.BytesToString | app/Services/GmailService.php:223-226 | the decoded byte string has one character per byte, with that byte's code |
| Base64.GroupRoundTrip | app/Services/GmailService.php:225 | splitting three bytes into four sextets and joining them again gives the bytes back |
| Base64.EncodeGroup | app/Services/GmailService.php:225 | each encoded group is four characters in the standard alphabet |
| Base64.Encode | app/Services/GmailService.php:225 | the reference encoder never produces '-' or '_' |
| Base64.DecodeEncode | app/Services/GmailService.php:225 | `base64_decode` (Decode) inverts standard encoding for every byte sequence |
| Base64.DecodeShortGroup | app/Services/GmailService.php:225 | a padded final group of one or two bytes decodes back to those bytes |
| Base64.DecodeTwo | app/Services/GmailService.php:225 | three sextets decode to the two bytes they encode |
| Base64.DecodeOne | app/Services/GmailService.php:225 | two sextets decode to the one byte they encode |
| Base64.UrlDecodeEncode | app/Services/GmailService.php:223-226 | base64UrlDecode (UrlDecode) inverts base64url encoding for every byte sequence |
| Base64.TranslateRoundTrip | app/Services/GmailService.php:225 | translating with the lists swapped undoes the translation on text that holds neither target character; so the URL-safe alphabet maps back to the standard one |
| Base64.UrlToStdKeeps | app/Services/GmailService.php:225 | text without '-' or '_' is unchanged by `strtr('-_', '+/')` |
| Base64.QuadSextets | app/Services/GmailService.php:225 | four alphabet characters give exactly their four sextets |
| Base64.HelloSextets | tests/Unit/Services/GmailServiceTest.php:413-423 | the example's four groups give the listed sextets |
| Base64.HelloDecode | tests/Unit/Services/GmailServiceTest.php:413-423 | those sextets decode to the bytes of "Hello World!" |
| Base64.HelloUnchangedByTranslation | tests/Unit/Services/GmailServiceTest.php:413-423 | the example has no URL-safe characters to translate |
| Base64.HelloSextetsOf | tests/Unit/Services/GmailServiceTest.php:413-423 | the sextets of the example string as a whole |
| Base64.HelloWorld | tests/Unit/Services/GmailServiceTest.php:413-423 | "SGVsbG8gV29ybGQh" decodes to "Hello World!" |
| CategoryModel.PriorityLevelsExact | app/Models/Category.php:47-61 | the level table has exactly the keys 1 to 10 and no label reads "Unknown" |
| CategoryModel.PriorityLabel | app/Models/Category.php:69-72 | a known level gets its table label; the label is "Unknown" exactly outside 1..10 |
| CategoryModel.CardColorOf | app/Models/Category.php:136-145 | red-orange exactly from 9 up; green-emerald exactly below 3 |
| CategoryModel.CardColorMonotone | app/Models/Category.php:136-145 | a higher priority never gets a lower colour band |
| CategoryModel.FirstGroupIcon | app/Models/Category.php:154-181 | None exactly when no later group has a keyword in the name; otherwise the icon of a group that has one |
| CategoryModel.CardIconOf | app/Models/Category.php:152-189 | a keyword match gives the first matching group's icon; otherwise sparkles exactly from priority 8, else the tag |
| CategoryModel.CardIconIgnoresCase | app/Models/Category.php:154 | the icon does not depend on the name's ASCII case |
| CategoryModel.WorkNamesGetBriefcase | app/Models/Category.php:157-158 | any name mentioning "work" gets the briefcase, whatever else it mentions |
| CategoryRequest.StringFailures | app/Http/Requests/StoreCategoryRequest.php:36 | no failure exactly for a non-blank string within the limit; a blank value fails `required` alone |
| CategoryRequest.NameFailures | app/Http/Requests/StoreCategoryRequest.php:27-34 | a name passes exactly when it is a non-blank string of at most 255 characters not among the user's names |
| CategoryRequest.PriorityFailures | app/Http/Requests/StoreCategoryRequest.php:35 | a blank priority fails `required` alone |
| CategoryRequest.ArchiveFailures | app/Http/Requests/StoreCategoryRequest.php:37 | passes exactly for null, missing, a boolean, 0, 1, "0" or "1" |
| CategoryRequest.Validate | app/Http/Requests/StoreCategoryRequest.php:24-39 | the request passes exactly when each of the four fields passes |
| CategoryRequest.DigitsValueAtLeast | app/Http/Requests/StoreCategoryRequest.php:35 | a digit string without a leading zero is worth at least 10 with two digits, 100 with three |
| CategoryRequest.PriorityText | app/Http/Requests/StoreCategoryRequest.php:35 | among strings, `integer` with min 1 and max 10 accepts exactly "1" to "10" |
| CategoryRequest.OneDigitValue | app/Http/Requests/StoreCategoryRequest.php:35 | a one-digit string is worth its digit |
| CategoryRequest.PriorityDigitsListed | app/Http/Requests/StoreCategoryRequest.php:35 | every string the priority rules accept is one of "1" to "10" |
| CategoryRequest.ListedPriorityDigits | app/Http/Requests/StoreCategoryRequest.php:35 | each of "1" to "10" passes the priority rules |
| CategoryRequest.PriorityAccepted | app/Http/Requests/StoreCategoryRequest.php:35 | the priority rules (`integer` as `IsIntegral`, `min`/`max` on `Size`) accept exactly 1..10 as a number or a string, or true |
| CategoryRequest.ValidateAccepts | app/Http/Requests/StoreCategoryRequest.php:24-39 | the validator reports nothing exactly when the request meets the directly stated acceptance predicate |
| CategoryRequest.CustomMessage | app/Http/Requests/StoreCategoryRequest.php:46-57 | exactly the seven listed rule failures have custom text |
| CategoryRequest.DuplicateNameMessage | app/Http/Requests/StoreCategoryRequest.php:33 | a repeated valid name fails only `unique`, with its custom message |
| CategoryRequest.PriorityOutOfRange | app/Http/Requests/StoreCategoryRequest.php:35 | 0 fails only the minimum and 11 only the maximum |
| GoogleAccounts.OthersUnset | app/Models/GoogleAccount.php:99-101 | the bulk update clears the flag on the user's other rows and leaves every other row as it was |
| GoogleAccounts.MadePrimary | app/Models/GoogleAccount.php:97-106 | the chosen row is primary, the user's other rows are not, other users' rows and all other columns are untouched |
| GoogleAccounts.ExactlyOnePrimary | app/Models/GoogleAccount.php:89-106 | afterwards the user's primary set (`PrimaryIds`, the user's rows flagged primary) is exactly the chosen account |
| GoogleAccounts.MakePrimaryIdempotent | app/Models/GoogleAccount.php:97-106 | doing it twice is the same as once |
| GoogleAccounts.OtherUsersKeepTheirPrimary | app/Models/GoogleAccount.php:99-101 | other users' primary sets do not change |
| GoogleAccounts.ScopeAfterMakePrimary | app/Models/GoogleAccount.php:89-106 | after makePrimary the `primary()` scope (`ScopePrimary`, the rows flagged primary, unchanged) holds exactly one of that user's accounts, the chosen one |
| GoogleAccounts.AccountTable.constructor | app/Models/GoogleAccount.php:97-106 | the table starts empty |
| GoogleAccounts.AccountTable.MakePrimary | app/Models/GoogleAccount.php:97-106 | the in-place update leaves the table equal to `MadePrimary` of the old table |
| MailStore.Filled | app/Jobs/ProcessEmailJob.php:60-81 | the row keeps its key, takes the message's ingestion columns, keeps its enrichment columns (or gets the column defaults when new) |
| MailStore.Upserted | app/Jobs/ProcessEmailJob.php:60-81 | keys stay consistent with rows; the table gains at most the one key |
| MailStore.UpsertedAll | app/Jobs/ProcessEmailJob.php:60-81 | repeated upserts keep keys consistent with rows |
| MailStore.RepeatedIngestionFrame | app/Jobs/ProcessEmailJob.php:60-81 | repeated ingestion adds only its key and leaves every other row alone |
| MailStore.RepeatedIngestion | app/Jobs/ProcessEmailJob.php:60-81 | idempotent ingestion: one row per message, the latest data, enrichment preserved, other rows untouched |
| MailStore.NewRowsNotCountedForAccount | app/Jobs/ProcessEmailJob.php:60-79 | a row the worker creates carries no account id, so the per-account count (`CountForAccount`) does not grow |
| MailStore.EmailStore.constructor | app/Jobs/ProcessEmailJob.php:60-81 | the table starts empty and consistent |
| MailStore.EmailStore.Upsert | app/Jobs/ProcessEmailJob.php:60-81 | the table becomes `Upserted` of the old one |
| MailStore.EmailStore.Update | app/Jobs/ProcessEmailWithAIJob.php:43-49 | exactly the one row is replaced |
| SyncProgress.MarkedFailed | app/Jobs/SyncGmailEmailsJob.php:127-131 | status failed, the error and the stamp set; the counters and the rest kept |
| SyncProgress.CountedProcessed | app/Jobs/ProcessEmailJob.php:84-96 | processed goes up by one; the sync completes (and stamps) exactly when processed reaches a set total; nothing else moves |
| SyncProgress.CountedFailed | app/Jobs/ProcessEmailJob.php:101-104 | failed goes up by one and nothing else changes |
| SyncProgress.LimitReached | app/Jobs/ProcessEmailJob.php:45-49 | completed with the stamp and the limit message; counters kept |
| SyncProgress.CountOf | app/Jobs/ProcessEmailJob.php:84-104 | a count of events never exceeds the number of events |
| SyncProgress.ReplayCounts | app/Jobs/ProcessEmailJob.php:84-104 | starting from the orchestrator's record with its total set (`WithTotal`, SyncGmailEmailsJob.php:107-109), after any interleaving of worker events the counters equal the successes and failures, and the sync is completed exactly when the successes reach the total |
| SyncProgress.WorkerWritesNeverStartProcessing | app/Jobs/ProcessEmailJob.php:45-104 | no worker write turns a non-processing record into a processing one |
| SyncProgress.SyncCache.constructor | app/Jobs/SyncGmailEmailsJob.php:40-47 | the cache starts empty |
| SyncProgress.SyncCache.Get | app/Jobs/ProcessEmailJob.php:84 | a miss yields the empty record; a hit yields the entry |
| SyncProgress.SyncCache.Put | app/Jobs/SyncGmailEmailsJob.php:40-47 | only the one key changes |
| SyncProgress.SyncCache.Forget | app/Jobs/SyncGmailEmailsJob.php:64 | only the one key goes |
| JobQueue.Queue.constructor | app/Jobs/SyncGmailEmailsJob.php:113-116 | the queue starts empty |
| JobQueue.Queue.Push | app/Jobs/SyncGmailEmailsJob.php:114 | the job is appended at the end |
| SyncJob.FetchSize | app/Jobs/SyncGmailEmailsJob.php:28-76 | the size asked for never exceeds the job's maxResults nor the account's remaining slots, and is one of them |
| SyncJob.DispatchCount | app/Jobs/SyncGmailEmailsJob.php:101-104 | never more jobs than messages nor than remaining slots; all messages without a cap |
| SyncJob.DispatchWithinCap | app/Jobs/SyncGmailEmailsJob.php:101-104 | below the cap, at least one job is dispatched and the account never passes the cap |
| SyncJob.DispatchExample | tests/Feature/Jobs/SyncGmailEmailsJobTest.php:91-172 | limit 2 with 1 stored and 3 fetched dispatches one job |
| SyncJob.IngestJobs | app/Jobs/SyncGmailEmailsJob.php:113-116 | the first n messages in order, one ingestion job each, with non-decreasing delays |
| SyncJob.EnqueueEach | app/Jobs/SyncGmailEmailsJob.php:155-157 | exactly one AI job per pending key is appended |
| SyncJob.DispatchPending | app/Jobs/SyncGmailEmailsJob.php:140-163 | one AI job for each pending row of the account (`PendingFor`: its rows with status null or pending and no processed_at), or nothing when the query fails |
| MailStore.IngestionLeavesPendingAlone | app/Jobs/SyncGmailEmailsJob.php:144-150 | an ingestion upsert changes no account's pending set (`PendingFor`), and a newly ingested message is pending for no account, because ingestion never sets google_account_id |
| SyncJob.DispatchIngestion | app/Jobs/SyncGmailEmailsJob.php:113-116 | the queue gains exactly `IngestJobs` |
| SyncJob.HandleSync | app/Jobs/SyncGmailEmailsJob.php:34-135 | per branch (cap reached, nothing fetched, fetch failure, dispatch): the account record, the queue, the outcome and whether last_synced_at is stamped |
| SyncJob.Failed | app/Jobs/SyncGmailEmailsJob.php:168-177 | the account record gets the failure merge |
| SyncJob.DispatchedRecord | app/Jobs/SyncGmailEmailsJob.php:40-109 | after a dispatching run the record every run writes first (`Started`) is processing with zero counters, not completed, and holds the dispatched total |
| GmailService.FirstHeaderAt | app/Services/GmailService.php:159-167 | the first position whose name matches, or the length when none does |
| GmailService.FindHeader | app/Services/GmailService.php:159-167 | None exactly when no header matches; otherwise the value of the first match |
| GmailService.GetHeader | app/Services/GmailService.php:159-167 | the early-exit loop returns `FindHeader` |
| GmailService.LowerIdempotent | app/Services/GmailService.php:162 | lower-casing twice is lower-casing once |
| GmailService.FindHeaderIgnoresCase | app/Services/GmailService.php:162 | the case of the requested name does not matter |
| GmailService.FirstHeaderIgnoresCase | app/Services/GmailService.php:162 | nor does it move the first match |
| GmailService.FirstData | app/Services/GmailService.php:187-194 | None exactly when no sub-part has data; otherwise the data of the first that has |
| GmailService.ScanParts | app/Services/GmailService.php:179-197 | None exactly when no part is a text part with data and none has a sub-part with data; a result is never falsy |
| GmailService.GetBody | app/Services/GmailService.php:172-200 | the nested loops compute `BodySpec` |
| GmailService.BodyOfEncodedPart | app/Services/GmailService.php:172-200 | a single text part holding base64url data yields exactly that data's bytes |
| GmailService.HasAttachments | app/Services/GmailService.php:205-218 | true exactly when some top-level part has both a non-empty filename and a non-empty attachment id |
| GmailService.SecondsOf | app/Services/GmailService.php:147 | integer seconds of a millisecond stamp, truncated toward zero |
| GmailService.EmailDetailsSpec | app/Services/GmailService.php:112-154 | ids are kept; unread and starred exactly when the label is present; no labels means neither |
| GmailService.GetEmailDetails | app/Services/GmailService.php:112-154 | the method builds `EmailDetailsSpec` |
| GmailService.DetailsMap | app/Services/GmailService.php:88-91 | the details of every message the API would return, by id |
| GmailService.Collected | app/Services/GmailService.php:85-95 | at most one detail per listed id |
| GmailService.TakeDetailsPrefix | app/Services/GmailService.php:85-95 | the inner loop appends a prefix of the available details, all of them unless it stopped |
| GmailService.TakeDetailsStopsAtMax | app/Services/GmailService.php:91-93 | started below the limit, the inner loop stops exactly at the limit |
| GmailService.CollectedAppend | app/Services/GmailService.php:85-95 | collecting over two id lists is collecting over each |
| GmailService.FetchFromOrder | app/Services/GmailService.php:71-99 | from any iteration of the do-while (`FetchFrom`), what is held is kept and the result is a prefix of the remaining pages' details in listing order |
| GmailService.PageIdsAt | app/Services/GmailService.php:71-99 | the ids from page k on are page k's then the rest |
| GmailService.PrefixThrough | app/Services/GmailService.php:71-99 | prefix bounds compose across one iteration |
| GmailService.PrefixGrow | app/Services/GmailService.php:71-99 | a prefix bound survives more pages |
| GmailService.FetchFromBounds | app/Services/GmailService.php:71-99 | from an iteration below the limit: at most max emails, earlier requests kept, the next asks for min(max - held, 100) with the current token, sizes stay in 1..100 |
| GmailService.FetchEmails | app/Services/GmailService.php:65-107 | the do-while loop computes `FetchSpec` |
| GmailService.FetchBounded | app/Services/GmailService.php:65-107 | with a positive limit: at most that many emails, in listing order, requests of 1..100, the first without a token |
| GmailService.FetchFailurePrefixed | app/Services/GmailService.php:103-106 | any listing failure surfaces with the "Failed to fetch emails: " prefix |
| GmailService.FetchFailurePrefixedFrom | app/Services/GmailService.php:103-106 | the same from any iteration |
| GmailService.TwoPagesDetails | tests/Unit/Services/GmailServiceTest.php:200-262 | the example's three messages have details |
| GmailService.TwoPagesSecond | tests/Unit/Services/GmailServiceTest.php:200-262 | the second request appends msg-3 and ends |
| GmailService.TwoPagesListing | tests/Unit/Services/GmailServiceTest.php:200-262 | the two-page listing for any details |
| GmailService.FetchTwoPagesInOrder | tests/Unit/Services/GmailServiceTest.php:200-262 | two pages come back as msg-1, msg-2, msg-3, with requests (10, "") then (8, "page-token-2") |
| GmailService.ZeroLimitListing | app/Services/GmailService.php:85-99 | a one-message listing with limit 0 returns that message |
| GmailService.FetchZeroReturnsOne | app/Services/GmailService.php:85-99 | as written, a limit of 0 still returns one email |
| GmailService.FetchClampedSpec | app/Services/GmailService.php:65-107 | never more emails than the limit, none for a non-positive one; as written for positive limits |
| GmailService.FetchEmailsClamped | app/Services/GmailService.php:65-107 | the method computes `FetchClampedSpec` |
| Ingestion.SpaceRun | app/Jobs/ProcessEmailJob.php:120 | the maximal run of `\s` from a position |
| Ingestion.NonCloseRun | app/Jobs/ProcessEmailJob.php:120 | the maximal run of non-'>' characters from a position |
| Ingestion.ParseFromFieldShapes | app/Jobs/ProcessEmailJob.php:113-140 | `parseFromField` (ParseFromField) is total, with four shapes: nothing for an empty header; trimmed name and address on a pattern match; the whole header as the address when valid; as the name otherwise |
| Ingestion.SenderEmptyExactlyWhenHeaderEmpty | app/Jobs/ProcessEmailJob.php:115-117 | the sender is empty exactly when the header is missing or falsy |
| Ingestion.SenderPairTrimmed | app/Jobs/ProcessEmailJob.php:120-125 | when both name and address are set they are trimmed |
| Ingestion.SenderAddressOnly | app/Jobs/ProcessEmailJob.php:128-133 | an address without a name is the whole header, and the header is a valid email |
| Ingestion.SenderNameOnly | app/Jobs/ProcessEmailJob.php:136-139 | a name without an address is the whole header, and the header is not a valid email |
| Ingestion.NoAngleNoMatch | app/Jobs/ProcessEmailJob.php:120 | a header without '<' never matches |
| Ingestion.BareHeader | app/Jobs/ProcessEmailJob.php:127-139 | a bare header is the address when valid and the name otherwise |
| Ingestion.DisplayLayout | app/Jobs/ProcessEmailJob.php:120 | where the name, the space and the brackets of a formatted header sit |
| Ingestion.NoEarlierMatch | app/Jobs/ProcessEmailJob.php:120 | the lazy `.+?` cannot stop inside the display name |
| Ingestion.SearchSkipsTo | app/Jobs/ProcessEmailJob.php:120 | lengths that neither end the search nor match hand it on |
| Ingestion.NoTailInsideName | app/Jobs/ProcessEmailJob.php:120 | `\s*<` cannot match inside the name |
| Ingestion.NonCloseRunExact | app/Jobs/ProcessEmailJob.php:120 | the non-'>' run stops at the first '>' |
| Ingestion.TailAtName | app/Jobs/ProcessEmailJob.php:120 | at the name's end the rest is the bracketed address |
| Ingestion.MatchOfDisplay | app/Jobs/ProcessEmailJob.php:120 | the pattern splits "name <address>" back into name and address |
| Ingestion.FromFieldRoundTrip | app/Jobs/ProcessEmailJob.php:113-125 | parsing a formatted header gives back its trimmed name and address |
| Ingestion.AliceExample | tests/Feature/Jobs/ProcessEmailJobTest.php:145-212 | "Alice Johnson <alice@example.com>" parses to its name and address |
| Ingestion.AliceParts | tests/Feature/Jobs/ProcessEmailJobTest.php:145-212 | the example's name and address meet the round trip's conditions |
| Ingestion.HandleIngest | app/Jobs/ProcessEmailJob.php:31-108 | per branch (limit gate on `CountForUser`, save failure, success): the table, the user record, the outcome and the stamp; the save fails whenever the From header yields no address, as the NOT NULL from_email column demands, so every row it stores has a from_email |
| Ingestion.Failed | app/Jobs/ProcessEmailJob.php:145-152 | the user record's failed count goes up once more |
| Ingestion.FailuresCounted | app/Jobs/ProcessEmailJob.php:101-104 | counting k failures adds k to `failed` (a missing count starts from 0) and changes nothing else in the record |
| Ingestion.PersistentSaveFailure | app/Jobs/ProcessEmailJob.php:17-152 | a save that fails on each of the `$tries` attempts, then `failed()`: no row changes and the user record is the old one counted `$tries` + 1 times |
| Ingestion.PersistentFailureCountedFourTimes | app/Jobs/ProcessEmailJob.php:17-152 | with `$tries = 3` a persistent failure adds four to `failed` and leaves `processed` alone |
| OpenAIService.PrepareEmailContent | app/Services/OpenAIService.php:338-349 | body, else snippet, else ""; unchanged up to 4000 characters, else the first 4000 plus "..." |
| OpenAIService.DigitRunLength | app/Services/OpenAIService.php:70 | the maximal digit run from a position |
| OpenAIService.FirstDigitFrom | app/Services/OpenAIService.php:70 | the first digit at or after a position |
| OpenAIService.ParseCategoryId | app/Services/OpenAIService.php:70-71 | None exactly when the reply has no digit; otherwise a non-negative number (which number is `ParseFirstRun`) |
| OpenAIService.ParseFirstRun | app/Services/OpenAIService.php:70-71 | for every reply made of text without a digit, a digit run, and text that does not continue the run, the id is that run's value |
| OpenAIService.ParseRendered | app/Services/OpenAIService.php:70-71 | a number written after text without a digit, and not followed by a digit, reads back as that number |
| OpenAIService.CategorizeEmail | app/Services/OpenAIService.php:17-91 | as written: the no-categories and exception errors; no error on a reply; an id is one of the user's or 0 |
| OpenAIService.CategorizeKeepsZero | app/Services/OpenAIService.php:74 | a reply of "0" yields category 0, which the user does not have |
| OpenAIService.ParseZero | app/Services/OpenAIService.php:70-71 | "0" reads as 0 |
| OpenAIService.KeptWhenZeroOrOwn | app/Services/OpenAIService.php:74-82 | as written, a parsed id that is 0 or one of the user's is returned unchanged with no error |
| OpenAIService.CategorizeEmailChecked | app/Services/OpenAIService.php:74-77 | corrected: an id is always one of the user's; same errors; same id as written whenever that id is the user's |
| OpenAIService.CategorizeIgnoresReplyWithoutCategories | app/Services/OpenAIService.php:26-32 | without categories the reply is never looked at |
| OpenAIService.TrimSeven | app/Services/OpenAIService.php:65 | " 7\n" trims to "7" |
| OpenAIService.ParseSeven | app/Services/OpenAIService.php:70-71 | "7" reads as 7 |
| OpenAIService.CategorizeExample | app/Services/OpenAIService.php:65-82 | a reply of " 7\n" picks category 7 among {3, 7} |
| OpenAIService.GenerateSummary | app/Services/OpenAIService.php:99-156 | empty content gives its error; exactly one of summary and error; the summary is the trimmed reply |
| OpenAIService.DetectUnsubscribeInfo | app/Services/OpenAIService.php:217-298 | empty content and bad JSON give their errors; no error exactly on parsed JSON; a returned non-empty URL passed the validator |
| OpenAIService.KeptErrors | app/Services/OpenAIService.php:420 | `array_filter` keeps only truthy errors, never more than were collected, and keeps none exactly when none is truthy (the in-order filter is `KeptErrorsAppend` with `KeptErrorsOne`) |
| OpenAIService.KeptErrorsAppend | app/Services/OpenAIService.php:420 | the filter keeps the order: filtering a concatenation concatenates the filtered parts |
| OpenAIService.KeptErrorsOne | app/Services/OpenAIService.php:420 | one error is kept exactly when it is present and truthy |
| OpenAIService.Implode | app/Services/OpenAIService.php:423 | the joined text starts with the first error and is that error alone for one (the join itself is `ImplodeAppend`) |
| OpenAIService.ImplodeAppend | app/Services/OpenAIService.php:423 | joining two non-empty lists puts exactly one separator (space, bar, space) between their joins |
| OpenAIService.RanOps | app/Services/OpenAIService.php:387-417 | an operation runs exactly when its column is missing, in the fixed order |
| OpenAIService.SummaryStep | app/Services/OpenAIService.php:387-395 | the stored summary, or a fresh generation |
| OpenAIService.CategoryStep | app/Services/OpenAIService.php:397-405 | the stored category, or a fresh checked one among the user's |
| OpenAIService.UnsubscribeStep | app/Services/OpenAIService.php:407-417 | the stored check, or a fresh detection |
| OpenAIService.ErrorOf | app/Services/OpenAIService.php:419-424 | None exactly when no error is truthy (the joined value is `ErrorOfAppend` with `ErrorOfOne`) |
| OpenAIService.ErrorOfAppend | app/Services/OpenAIService.php:419-424 | the error of a concatenation is the two parts' errors, joined by the separator when both are present |
| OpenAIService.ErrorOfOne | app/Services/OpenAIService.php:419-424 | a single error is reported when it is present and truthy, and dropped otherwise |
| OpenAIService.ErrorOfThree | app/Services/OpenAIService.php:419-424 | the three slot errors are joined from left to right, each kept or dropped on its own |
| OpenAIService.AllThreeFail | app/Services/OpenAIService.php:419-424 | three failures report the summary, category and unsubscribe errors in that order, joined by the separator |
| OpenAIService.OnlyCategoryFails | app/Services/OpenAIService.php:419-424 | a lone categorisation failure is reported alone |
| OpenAIService.OpErrors | app/Services/OpenAIService.php:387-417 | one error per operation run, in the order they ran |
| OpenAIService.OpErrorsAppend | app/Services/OpenAIService.php:387-417 | the errors of two runs of operations are concatenated |
| OpenAIService.SlotError | app/Services/OpenAIService.php:387-417 | a slot that ran contributes its operation's error; a skipped slot contributes none |
| OpenAIService.SlotsJoined | app/Services/OpenAIService.php:387-424 | the errors of three slots, each skipped or run once, join slot by slot |
| OpenAIService.SlotErrorsAreRunErrors | app/Services/OpenAIService.php:387-424 | the joined slot errors are the joined errors of the operations that ran, in order |
| OpenAIService.ProcessSpec | app/Services/OpenAIService.php:357-437 | skipped when fully processed; otherwise only the missing operations run; stored columns win; success exactly when some result is present (the error is `ProcessErrorIsRunErrors`) |
| OpenAIService.ProcessErrorIsRunErrors | app/Services/OpenAIService.php:357-437 | when the email is not fully processed, the reported error is the truthy errors of exactly the operations that ran, in that order, joined by the separator (space, bar, space), or None |
| OpenAIService.FailureHasError | app/Services/OpenAIService.php:357-437 | a run that fails always carries an error |
| OpenAIService.FillSummary | app/Services/OpenAIService.php:387-395 | the block computes `SummaryStep` and runs generation only when needed |
| OpenAIService.FillCategory | app/Services/OpenAIService.php:397-405 | the block computes `CategoryStep` and runs categorisation only when needed |
| OpenAIService.FillUnsubscribe | app/Services/OpenAIService.php:407-417 | the block computes `UnsubscribeStep` and runs detection only when needed |
| OpenAIService.ProcessEmail | app/Services/OpenAIService.php:357-437 | the method computes `ProcessSpec` |
| AiJob.UserCategoryIds | app/Services/OpenAIService.php:23-24 | exactly the ids of the user's categories |
| AiJob.MarkedProcessing | app/Jobs/ProcessEmailWithAIJob.php:36 | only the status changes, to processing |
| AiJob.CompletedRow | app/Jobs/ProcessEmailWithAIJob.php:43-49 | category and summary from the result, completed, reason cleared; processed_at kept, because the column is not mass assignable and `update` drops it; unsubscribe, ingestion and archive columns kept |
| AiJob.CompletionKeepsProcessedAtNull | app/Jobs/ProcessEmailWithAIJob.php:43-49 | a completed row that was never stamped is still unstamped |
| AiJob.StampedCompletedRow | app/Jobs/ProcessEmailWithAIJob.php:43-49 | the intended update: the as-written row with processed_at set to the completion time |
| AiJob.StampedRowLeavesFanOut | app/Jobs/SyncGmailEmailsJob.php:144-150 | the stamped row is out of the pending fan-out even if its status goes back to pending; the as-written row would be picked again |
| AiJob.RetryRow | app/Jobs/ProcessEmailWithAIJob.php:77-80 | back to pending with the reason; nothing else moves |
| AiJob.PermanentlyFailedRow | app/Jobs/ProcessEmailWithAIJob.php:150-153 | failed, with "Permanently failed after 3 attempts: " and the message |
| AiJob.TriesRendered | app/Jobs/ProcessEmailWithAIJob.php:17 | the tries count renders as "3" |
| AiJob.ArchiveEmailInGmail | app/Jobs/ProcessEmailWithAIJob.php:91-140 | the API is called exactly when auto-archive is on and the row's category exists with archiving on; only a true answer sets is_archived (the gate is `ArchiveGate`) |
| AiJob.EnrichmentEffect | app/Jobs/ProcessEmailWithAIJob.php:30-84 | completed exactly on success; otherwise pending with the thrown message as reason; archived only by a successful archive call; processed_at, unsubscribe and ingestion columns kept |
| AiJob.EffectOf | app/Jobs/ProcessEmailWithAIJob.php:41-83 | the same in terms of processEmail's result: on success its category and summary, reason cleared, processed_at kept, the archive gate decided by its category |
| AiJob.Complete | app/Jobs/ProcessEmailWithAIJob.php:41-57 | the completion update as it reaches the row (`CompletedRow`, processed_at kept) then the archive step |
| AiJob.Retry | app/Jobs/ProcessEmailWithAIJob.php:58-83 | the thrown message (`FailureMessage`) and the final pending row |
| AiJob.HandleEnrichment | app/Jobs/ProcessEmailWithAIJob.php:30-84 | the row becomes `EnrichmentEffect`'s row with its outcome and archive call |
| AiJob.Finish | app/Jobs/ProcessEmailWithAIJob.php:41-83 | the rest of handle matches `EffectOf` |
| AiJob.Failed | app/Jobs/ProcessEmailWithAIJob.php:145-154 | the row gets the permanent-failure update |
| AiJob.FailureReasonIsError | app/Jobs/ProcessEmailWithAIJob.php:62-79 | the fallback texts are dead: a failure's reason is exactly processEmail's error |
| AiJob.FreshRowsSkipDetection | app/Services/OpenAIService.php:373 | a freshly ingested row never runs unsubscribe detection |
| AiJob.ArchiveOnlyUnderOwnCategory | app/Jobs/ProcessEmailWithAIJob.php:100-118 | with the checked categorisation, a row is archived only under its owner's own category |
| GmailController.ClampedMax | app/Http/Controllers/Api/GmailController.php:41-42 | 100 when absent, never above 500, the request's value or 500 |
| GmailController.SyncEmails | app/Http/Controllers/Api/GmailController.php:17-61 | not connected exactly without a truthy token (`Truthy`: neither "" nor "0"); failed with "Undefined array key" exactly when the user record is non-empty and has no status; already syncing exactly when the user record is processing, with that record; otherwise started with the clamped size |
| GmailController.StatusCode | app/Http/Controllers/Api/GmailController.php:26-59 | 400, 409, 202 and 500 for the four answers, each in both directions |
| GmailController.Dispatched | app/Http/Controllers/Api/GmailController.php:45 | one sync job exactly on 202, for the user with the answered size |
| GmailController.DispatchWithinCap | app/Http/Controllers/Api/GmailController.php:41-45 | a dispatched sync never asks for more than 500 |
| GmailController.SyncStatusOf | app/Http/Controllers/Api/GmailController.php:66-95 | idle exactly on a missing or empty record, with last_synced_at; otherwise the record verbatim |
| GmailController.ConflictShowsCurrentRecord | app/Http/Controllers/Api/GmailController.php:33-87 | a 409 and the status endpoint show the same record |
| GmailController.AccountRecordNeverSeen | app/Http/Controllers/Api/GmailController.php:30-72 | the orchestrator's account-level record changes neither endpoint's answer |
| GmailController.WorkerRecordNeverProcessing | app/Jobs/ProcessEmailJob.php:45-104 | the worker's writes alone never yield a processing record |
| GmailController.GateNeverFires | app/Http/Controllers/Api/GmailController.php:29-59 | with a token and only worker writes, no call answers 409; a call starts another sync exactly when the record is missing, empty or has a status, and otherwise answers 500 |
| GmailController.CountedRecordFailsStart | app/Http/Controllers/Api/GmailController.php:33-59 | after the worker counts one success into an empty user record, the next call answers 500 and queues nothing |
| UnsubscribeAutomation.NormalizeStatus | app/Services/UnsubscribeAutomationService.php:199-209 | running becomes processing; the three others pass; everything else is unknown; never unavailable |
| UnsubscribeAutomation.NormalizeIsNotIdempotent | app/Services/UnsubscribeAutomationService.php:204-207 | "processing" is not an API status, so normalising twice gives unknown |
| UnsubscribeAutomation.FromJob | app/Services/UnsubscribeAutomationService.php:55-60 | the normalised status (unknown when absent) and the job's message and timestamps |
| UnsubscribeAutomation.FirstWhere | app/Services/UnsubscribeAutomationService.php:52 | the first job for the email, None exactly when there is none |
| UnsubscribeAutomation.LastWhere | app/Services/UnsubscribeAutomationService.php:146 | the last job for the email, None exactly when there is none |
| UnsubscribeAutomation.KeyedBy | app/Services/UnsubscribeAutomationService.php:146 | `keyBy` holds every listed id, with its last job |
| UnsubscribeAutomation.BatchEntry | app/Services/UnsubscribeAutomationService.php:148-165 | the last job's record, or pending "No automation job found" |
| UnsubscribeAutomation.SingleSpec | app/Services/UnsubscribeAutomationService.php:17-85 | a cached record without a request; a request exactly when the API URL is truthy (`Configured`); only a found job is cached; every default (`DefaultStatus`) has no timestamps; a connection failure reports unavailable with "Connection failed" |
| UnsubscribeAutomation.SingleDefaults | app/Services/UnsubscribeAutomationService.php:33-85 | an uncached lookup that finds no job answers, uncached: unknown "API not configured" without a request; unavailable "Connection failed" on a connection error; unavailable "Status unavailable" on an error status or any other exception; pending "No automation job found" when the list has no job for the email |
| UnsubscribeAutomation.FetchedPuts | app/Services/UnsubscribeAutomationService.php:148-159 | the cache writes: exactly the missed ids with a job |
| UnsubscribeAutomation.BatchSpec | app/Services/UnsubscribeAutomationService.php:93-191 | a result for every id (`IdsOf`); cached ids keep their records (`CachedPart`); a request exactly when something is missed (`MissedIds`) and configured; writes only after a successful reply |
| UnsubscribeAutomation.EmptyBatch | app/Services/UnsubscribeAutomationService.php:95-97 | an empty batch reports nothing and makes no request |
| UnsubscribeAutomation.BatchMissedEntry | app/Services/UnsubscribeAutomationService.php:118-190 | a missed id gets the unconfigured default, the unavailable default (`AllDefault` fills them), or its last job (`Fetched` reports them; cached exactly when there is one) |
| UnsubscribeAutomation.SingleAgreesWithBatch | app/Services/UnsubscribeAutomationService.php:17-191 | with at most one job per email, the single and batch lookups agree on an uncached id |
| UnsubscribeAutomation.FirstAndLastJobDisagree | app/Services/UnsubscribeAutomationService.php:52-146 | with two jobs for one email the single lookup reports the first and the batch the last |
| UnsubscribeAutomation.AllDefaultStep | app/Services/UnsubscribeAutomationService.php:175-177 | one loop step adds one default |
| UnsubscribeAutomation.FetchedStep | app/Services/UnsubscribeAutomationService.php:148-166 | one loop step adds one entry |
| UnsubscribeAutomation.PutsStep | app/Services/UnsubscribeAutomationService.php:158-159 | one loop step adds at most one cache write |
| UnsubscribeAutomation.AutomationCache.constructor | app/Services/UnsubscribeAutomationService.php:20 | the cache starts empty |
| UnsubscribeAutomation.AutomationCache.Put | app/Services/UnsubscribeAutomationService.php:159 | only that id's entry changes |
| UnsubscribeAutomation.AutomationCache.ClearCache | app/Services/UnsubscribeAutomationService.php:234-239 | only that email's entry goes; every other entry stays |
| UnsubscribeAutomation.GetAutomationStatus | app/Services/UnsubscribeAutomationService.php:17-85 | the method reports `SingleSpec` and writes its cache entry |
| UnsubscribeAutomation.SplitCached | app/Services/UnsubscribeAutomationService.php:103-110 | the first loop yields the cached part and exactly the missed ids |
| UnsubscribeAutomation.FillDefaults | app/Services/UnsubscribeAutomationService.php:175-177 | the loop adds `AllDefault` |
| UnsubscribeAutomation.FillFetched | app/Services/UnsubscribeAutomationService.php:148-166 | the loop adds `Fetched` and writes `FetchedPuts` |
| UnsubscribeAutomation.GetBatchAutomationStatus | app/Services/UnsubscribeAutomationService.php:93-191 | the method reports `BatchSpec` and writes its cache entries |
| TextFormatter.Run | app/Services/TextFormatter.php:23 | the longest prefix whose characters satisfy the class |
| TextFormatter.RunIs | app/Services/TextFormatter.php:23 | the run is the one length with the class before it and failing at it |
| TextFormatter.ContainsSuffix | app/Services/TextFormatter.php:19 | a needle in a suffix is in the whole |
| TextFormatter.EscapeChar | app/Services/TextFormatter.php:16 | plain characters pass; none of `< > " '` survives |
| TextFormatter.EscapeHtml | app/Services/TextFormatter.php:16 | no `< > " '` remains, and the text never shrinks |
| TextFormatter.EscapeKeepsPlainText | app/Services/TextFormatter.php:16 | text without `& < > " '` is its own escape |
| TextFormatter.EntityAt | app/Services/TextFormatter.php:16 | reading one entity or character consumes 1 to all characters |
| TextFormatter.EntityAtEscape | app/Services/TextFormatter.php:16 | an escaped character reads back as itself |
| TextFormatter.UnescapeEscape | app/Services/TextFormatter.php:16 | escaping loses nothing: the shown text reads back as the original |
| TextFormatter.LineEnd | app/Services/TextFormatter.php:19 | the first newline, or the end |
| TextFormatter.Separators | app/Services/TextFormatter.php:19 | a single line becomes the tag exactly when it is a rule line, and is kept otherwise |
| TextFormatter.SeparatorsLine | app/Services/TextFormatter.php:19 | each line is handled on its own: a line of five or more dashes becomes the tag, any other is kept, and the rest follows after the newline |
| TextFormatter.RuleLineContainsDashes | app/Services/TextFormatter.php:19 | a rule line has five dashes in a row |
| TextFormatter.SeparatorsKeepPlainText | app/Services/TextFormatter.php:19 | text without five dashes in a row is unchanged |
| TextFormatter.CrlfSeparatorNotConverted | app/Services/TextFormatter.php:19 | a separator in CRLF text stays text |
| TextFormatter.UrlMatch | app/Services/TextFormatter.php:23 | a match starts with "http", has a scheme, and runs over non-space, non-'<' characters to the first other |
| TextFormatter.SchemeIsHttp | app/Services/TextFormatter.php:23 | both schemes start with "http", are seven or eight characters, and are made of characters the pattern allows |
| TextFormatter.UrlMatchOfToken | app/Services/TextFormatter.php:23 | a URL token followed by a character the pattern stops at is matched whole |
| TextFormatter.TrimUrl | app/Services/TextFormatter.php:27 | the trimmed URL is a prefix that keeps its scheme and does not end in the punctuation |
| TextFormatter.LinkUrlsKeepPlainText | app/Services/TextFormatter.php:22-31 | text that never says "http" is unchanged by `LinkUrls` |
| TextFormatter.NoUrlBefore | app/Services/TextFormatter.php:22-31 | no match starts inside text without "http" that is followed by "http" |
| TextFormatter.LinkUrlsSkipsFirst | app/Services/TextFormatter.php:22-31 | such text is copied one character at a time |
| TextFormatter.LinkUrlsPlainPrefix | app/Services/TextFormatter.php:22-31 | text without "http" in front of a URL is copied as it is |
| TextFormatter.UrlLinkedAtStart | app/Services/TextFormatter.php:22-31 | a URL token at the start becomes one anchor on the trimmed URL and the scan resumes after it |
| TextFormatter.UrlLinked | app/Services/TextFormatter.php:22-31 | for all text: a URL token between text without "http" and a character the pattern stops at becomes one anchor on the URL without its trailing punctuation; the text before is kept and the text after is scanned on its own |
| TextFormatter.TrailingPunctuationDropped | app/Services/TextFormatter.php:22-31 | for every URL token, one of `.,;:!?)` right after it is matched with it, then cut off and dropped: it reaches neither the link nor the output |
| TextFormatter.TldDot | app/Services/TextFormatter.php:35 | the backtracking picks the last dot before the limit with two letters after it |
| TextFormatter.EmailMatch | app/Services/TextFormatter.php:35 | a match is a local run of at least one character up to '@', and ends on two letters that are not followed by a third (which prefix is matched is `EmailMatchOfAddress`) |
| TextFormatter.EmailMatchOfParts | app/Services/TextFormatter.php:35 | the match length is the local run, '@', the domain up to the chosen dot, the dot and the letter run after it |
| TextFormatter.LocalPartRun | app/Services/TextFormatter.php:35 | over an address the local run stops at its '@' |
| TextFormatter.DomainPartRuns | app/Services/TextFormatter.php:35 | the domain run reaches past the top-level domain and the backtracking chooses the dot before it |
| TextFormatter.AddressDomainRuns | app/Services/TextFormatter.php:35 | the same inside a whole address |
| TextFormatter.EmailMatchOfAddress | app/Services/TextFormatter.php:35 | for every address local@domain.tld followed by a character a domain cannot hold, the match is exactly the address |
| TextFormatter.LinkEmailsKeepPlainText | app/Services/TextFormatter.php:34-38 | text without '@' is unchanged by `LinkEmails` |
| TextFormatter.NoAddressBefore | app/Services/TextFormatter.php:35 | no match starts in text without '@' that does not end in a local-part character |
| TextFormatter.LinkEmailsSkipsFirst | app/Services/TextFormatter.php:34-38 | such text is copied one character at a time |
| TextFormatter.LinkEmailsPlainPrefix | app/Services/TextFormatter.php:34-38 | text without '@' in front of an address, not running into it, is copied as it is |
| TextFormatter.AddressLinkedAtStart | app/Services/TextFormatter.php:34-38 | an address at the start becomes one mailto anchor and the scan resumes after it |
| TextFormatter.AddressLinkedIn | app/Services/TextFormatter.php:34-38 | for all text: an address between such text and a character a domain cannot hold becomes one mailto anchor on the whole address; the text after is scanned on its own |
| TextFormatter.EmailMatchExample | app/Services/TextFormatter.php:35 | "b@x.y.io." matches its first 8 characters |
| TextFormatter.AddressLinked | app/Services/TextFormatter.php:34-38 | the whole address with its subdomain is one link; the full stop stays text |
| TextFormatter.BreakLines | app/Services/TextFormatter.php:41 | no CR or LF is left (that each break becomes one `<br>` is `LineFeedBreak`, `CrlfBreak` and `LoneCrBreak`) |
| TextFormatter.ReplaceCharAppend | app/Services/TextFormatter.php:41 | replacing one character works piece by piece |
| TextFormatter.SinglePassesAppend | app/Services/TextFormatter.php:41 | so do the "\r" and "\n" passes together |
| TextFormatter.SinglePassesOf | app/Services/TextFormatter.php:41 | those passes turn a CR or LF into `<br>`, keep any other character, and keep `<br>` |
| TextFormatter.CrlfPassStep | app/Services/TextFormatter.php:41 | the "\r\n" pass steps over a character that does not start a pair |
| TextFormatter.BreakLinesIsEachBreak | app/Services/TextFormatter.php:41 | the three passes in order equal one left-to-right scan that turns each CRLF, CR or LF into one `<br>` |
| TextFormatter.EachBreakAppend | app/Services/TextFormatter.php:41 | the scan works piece by piece when the first piece does not end in CR |
| TextFormatter.LineFeedBreak | app/Services/TextFormatter.php:41 | for all text: a LF not preceded by CR becomes one `<br>` between the two sides, each converted on its own |
| TextFormatter.CrlfBreak | app/Services/TextFormatter.php:41 | for all text: a CRLF pair becomes one `<br>`, not two |
| TextFormatter.LoneCrBreak | app/Services/TextFormatter.php:41 | for all text: a CR not followed by LF becomes one `<br>` |
| TextFormatter.NoBreakKept | app/Services/TextFormatter.php:41 | text without CR or LF passes unchanged |
| TextFormatter.CrlfIsOneBreak | app/Services/TextFormatter.php:41 | CRLF is one break, not two |
| TextFormatter.ReplaceAllIdentity | app/Services/TextFormatter.php:41 | a search whose first character is absent changes nothing |
| TextFormatter.BreakSpan | app/Services/TextFormatter.php:44 | the repeated break span covers at least four characters per break |
| TextFormatter.CollapseBreaks | app/Services/TextFormatter.php:44 | the text never grows and introduces no character besides those of `<br>` |
| TextFormatter.CollapseKeepsPlainText | app/Services/TextFormatter.php:44 | text without a break is unchanged |
| TextFormatter.BreakRunStep | app/Services/TextFormatter.php:44 | one break and its blanks add one to the count and their length to the span |
| TextFormatter.CollapseAt | app/Services/TextFormatter.php:44 | where three or more breaks start they become two and scanning resumes after them |
| TextFormatter.ThreeBreaksBecomeTwo | app/Services/TextFormatter.php:44 | three breaks with blanks between become exactly two |
| TextFormatter.NoBreakTagAppend | app/Services/TextFormatter.php:44 | text where no `<br>` can start stays so when joined to text not starting with 'b' |
| TextFormatter.NoBreakTagOfNoLt | app/Services/TextFormatter.php:44 | text without '<' has nowhere for `<br>` to start |
| TextFormatter.CollapseKeepsNoBreakTag | app/Services/TextFormatter.php:44 | text where no `<br>` can start is left as it is by the collapse |
| TextFormatter.ToHtml | app/Services/TextFormatter.php:13-47 | the result has no raw line breaks (its output on plain text and on a URL is `ToHtmlOfPlainText` and `ToHtmlOfUrl`) |
| TextFormatter.UrlTokenOneLine | app/Services/TextFormatter.php:19-23 | a URL token is one line, starts with 'h' and is no separator line |
| TextFormatter.MarkupLacks | app/Services/TextFormatter.php:28 | the fixed markup of a link holds no '@', CR or LF |
| TextFormatter.AnchorAvoids | app/Services/TextFormatter.php:28 | so a link holds '@', CR or LF only where its URL or class does |
| TextFormatter.LinkClassPlain | app/Services/TextFormatter.php:28 | the default link class holds no '<' or '@' and starts with 't' |
| TextFormatter.LinkClassOneLine | app/Services/TextFormatter.php:28 | the default link class is one line |
| TextFormatter.MarkupHasNoBreakTag | app/Services/TextFormatter.php:28 | no `<br>` can start in the fixed markup of a link |
| TextFormatter.AnchorHasNoBreakTag | app/Services/TextFormatter.php:28-44 | nor in a link whose URL and class hold no '<' |
| TextFormatter.AnchorPassesLaterSteps | app/Services/TextFormatter.php:33-44 | a link the URL step made passes the address, line-break and collapse steps unchanged |
| TextFormatter.ToHtmlOfPlainText | app/Services/TextFormatter.php:13-47 | text with nothing to escape, no separator, no URL and no address goes through the line-break steps only |
| TextFormatter.ToHtmlOfUrl | app/Services/TextFormatter.php:13-47 | a message that is one URL comes out as exactly one link to the URL without its trailing punctuation |
| TextFormatter.Merged | app/Services/TextFormatter.php:58-67 | a given option wins over its default |
| TextFormatter.ToHtmlWithOptions | app/Services/TextFormatter.php:56-108 | the result has no raw line breaks (its output on plain text is `ToHtmlWithOptionsOfPlainText`) |
| TextFormatter.ToHtmlWithOptionsOfPlainText | app/Services/TextFormatter.php:56-108 | the same plain text goes through the line-break steps only, whatever the options say |
| TextFormatter.DefaultsReproduceToHtml | app/Services/TextFormatter.php:56-108 | with no options it is exactly toHtml |
| TextFormatter.AllStepsOff | app/Services/TextFormatter.php:70-105 | with every flag off only the line-break steps run |
| TextFormatter.EscapeOffPassesMarkup | app/Services/TextFormatter.php:70-72 | with escaping off, markup the later steps do not touch comes out as it went in |

## Left out

- TextFormatter.ToHtmlWithOptions: the `hr_class` and `link_class` options are pasted into the separator and mailto anchors literally; the source splices them into `preg_replace` replacement templates (app/Services/TextFormatter.php:76, :96), where `$n`, `${n}` and `\n` in an option would be expanded as backreferences. The URL anchor is built in a callback and takes its class literally in both.
- The Gmail, OpenAI and unsubscribe HTTP APIs are oracles. The model does not include requests, timeouts, rate limits or retries by the queue.
- `json_decode`, `filter_var(FILTER_VALIDATE_URL)` and `FILTER_VALIDATE_EMAIL` are functions passed in.
- The prompt texts, model names and token limits of the OpenAI calls are left out.
- Logging is left out.
- Cache expiry times are left out: one or two hours for sync records, five minutes for automation statuses.
- Date formatting is left out. `now()` is an opaque timestamp.
- `GmailService::setAccessToken`, token refresh and `archiveEmail` are left out. The archive call is an oracle (`ArchiveReply`), and an exception from the token set-up is folded into it.
- Typed job arguments are not checked:
  - The controller dispatches `SyncGmailEmailsJob` with a User, while the job's constructor takes a GoogleAccount. PHP raises a TypeError here, which `catch (\Exception)` does not catch.
  - The orchestrator dispatches `ProcessEmailJob` with a GoogleAccount, while its constructor takes a User.
  - SyncJob.HandleSync: runs past `$gmailService->setAccessToken($this->googleAccount)` (app/Jobs/SyncGmailEmailsJob.php:50), although that parameter is typed User (app/Services/GmailService.php:35). As written, PHP raises a TypeError right after the started record is written. `catch (\Exception)` does not catch it, so the count, the fetch and both fan-outs never run, and the queue's `failed()` marks the record failed.
  - The model dispatches abstract jobs (`SyncMailbox(user, max)`, `IngestEmail`) and keys the ingestion worker by user id.
- The cache key mismatch is modelled as written, not corrected. The orchestrator writes "gmail_sync:{user}:{account}", while the workers and the controller use "gmail_sync:{user}". `GmailController.GateNeverFires` and `GmailController.AccountRecordNeverSeen` state the consequence.
- The extra `created_at` argument that the orchestrator passes to `fetchEmails` is ignored by the callee, so it is left out.
- The auto-sync middleware and the dashboard composer are not part of this model.
- Authentication is left out. Of the controller's HTTP 500 answers, only the missing `status` key of `syncEmails` is modelled (`GmailController.StartFailed`); other exceptions, such as a failing cache, are left out.
- `max_results` given as null or as a non-numeric string is not modelled. The request value is an optional int.
- GmailService.HasAttachments: looks only at top-level parts, as the source does.
- In MIME parts, missing body data and "" are one value. Both are falsy for `getBody`.
- Characters stand for bytes. `strlen`/`substr` count characters, and invalid UTF-8 is not modelled. `htmlspecialchars`' rejection of invalid UTF-8 is left out.
- The PCRE patterns use the default newline convention: `$` in multiline mode matches before LF only.
- `(int)` of a digit run does not saturate at PHP_INT_MAX.
- The `internal_date` column stores a formatted date. The model keeps the whole seconds (`GmailService.SecondsOf`).
- Soft deletes, Eloquent events and other columns of the tables are left out.
- The SVG paths and gradient class strings of the category card are left out. The icon and the colour are enumerations.
- PHP array order of the batch results is left out. Results are a map from email id.
- `item_id` is compared as an integer. Loose comparison against string ids is left out.
- In `StoreCategoryRequest`:
  - Numeric strings with a sign, a decimal point or surrounding blanks are not modelled for `integer`/`min`/`max`.
  - `max:255` on a non-string name is not modelled (`size` reads the string length or number value only).
  - The unique rule compares names exactly. Database collation is left out.
  - The framework's default messages for the other failures are left out.
- The unsubscribe columns that `processEmail` returns are not written by `ProcessEmailWithAIJob`, as in the source. `AiJob.CompletedRow` keeps them.
- OpenAIService.ProcessSpec: categorises with the corrected `CategorizeEmailChecked` rather than the as-written `CategorizeEmail` (see Findings).
- SyncJob.HandleSync: fetches through the corrected `GmailService.FetchClampedSpec` rather than the as-written `FetchSpec`. The two agree whenever the size asked for is positive (see Findings).
- A cached sync record whose values are all null is treated like the empty record. The code base never writes one.

## Findings

| source | as written | input that shows it | evidently intended | confidence | as-written member | corrected member |
|---|---|---|---|---|---|---|
| app/Services/GmailService.php:85-99 | the limit is compared only after an email has been appended, so `fetchEmails(0)` (or a negative limit) still returns the first available message | a mailbox listing one message "m", with `maxResults` 0 | no email for a non-positive limit | not executed | GmailService.FetchZeroReturnsOne | GmailService.FetchClampedSpec |
| app/Services/OpenAIService.php:74 | `$categoryId && ...` treats the id 0 as "no id", so a reply of "0" is returned as category 0 without checking it against the user's categories | categories {1}, reply "0" | only one of the user's category ids, or null | not executed | OpenAIService.CategorizeKeepsZero | OpenAIService.CategorizeEmailChecked |
| app/Jobs/ProcessEmailWithAIJob.php:43-49 | the success update passes `'processed_at' => now()`, but processed_at is not in `Email::$fillable` (app/Models/Email.php:19-43), so mass assignment drops it and the column stays as it was | any successful run on a row whose processed_at is null | the completed row carries its completion time, as tests/Feature/Jobs/ProcessEmailWithAIJobTest.php:63 and :121 expect | not executed | AiJob.CompletionKeepsProcessedAtNull | AiJob.StampedCompletedRow |

For the processed_at row the jobs keep the as-written `AiJob.CompletedRow`: the defect lies in the model class's mass-assignment list, not in the job, and a completed row already leaves the fan-out through its status. `AiJob.StampedRowLeavesFanOut` states what the stamp would add.

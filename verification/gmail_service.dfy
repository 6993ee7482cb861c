/**
 * GmailService: turning Gmail API messages into the normalised EmailData
 * record, and the paginated listing loop of fetchEmails. The Gmail API is an
 * oracle: a scripted sequence of listing pages and a map from message id to
 * the full message (an id missing from the map is a message whose details
 * could not be fetched, for which getEmailDetails returns null).
 */
module GmailService {
  import opened Wrappers
  import PhpText
  import Base64
  import MailStore

  datatype Header = Header(name: string, value: string)

  /** A MIME part. Absent body data, filename or attachment id are "". */
  datatype Part = Part(mimeType: string, filename: string, data: string, attachmentId: string, parts: seq<Part>)

  datatype Payload = Payload(headers: seq<Header>, data: string, parts: seq<Part>)

  datatype RawMessage = RawMessage(
    id: string,
    threadId: string,
    payload: Payload,
    labelIds: Option<seq<string>>,
    snippet: string,
    internalDateMs: int)

  // ---------------------------------------------------------------- headers

  predicate SameName(a: string, b: string) {
    PhpText.Lower(a) == PhpText.Lower(b)
  }

  /** The position of the first header whose name matches, or |headers| when none does. */
  function FirstHeaderAt(headers: seq<Header>, name: string): (i: nat)
    ensures i <= |headers|
    ensures forall j :: 0 <= j < i ==> !SameName(headers[j].name, name)
    ensures i < |headers| ==> SameName(headers[i].name, name)
  {
    if headers == [] then 0
    else if SameName(headers[0].name, name) then 0
    else 1 + FirstHeaderAt(headers[1..], name)
  }

  /** The value of the first header whose name matches case-insensitively. */
  function FindHeader(headers: seq<Header>, name: string): (r: Option<string>)
    ensures r.None? <==> forall i :: 0 <= i < |headers| ==> !SameName(headers[i].name, name)
    ensures r.Some? ==> (exists i :: 0 <= i < |headers| && SameName(headers[i].name, name)
                                     && r.value == headers[i].value
                                     && forall j :: 0 <= j < i ==> !SameName(headers[j].name, name))
  {
    var i := FirstHeaderAt(headers, name);
    if i < |headers| then Some(headers[i].value) else None
  }

  /** GmailService::getHeader: a scan that returns at the first match. */
  method GetHeader(headers: seq<Header>, name: string) returns (r: Option<string>)
    ensures r == FindHeader(headers, name)
  {
    var wanted := PhpText.Lower(name);
    var i := 0;
    while i < |headers|
      invariant 0 <= i <= |headers|
      invariant FindHeader(headers, name) == FindHeader(headers[i..], name)
    {
      assert headers[i..][1..] == headers[i + 1..];
      if PhpText.Lower(headers[i].name) == wanted {
        return Some(headers[i].value);
      }
      i := i + 1;
    }
    return None;
  }

  lemma LowerIdempotent(s: string)
    ensures PhpText.Lower(PhpText.Lower(s)) == PhpText.Lower(s)
  {
  }

  /** The case of the requested name does not matter. */
  lemma FindHeaderIgnoresCase(headers: seq<Header>, name: string)
    ensures FindHeader(headers, PhpText.Lower(name)) == FindHeader(headers, name)
  {
    FirstHeaderIgnoresCase(headers, name);
  }

  lemma {:induction false} FirstHeaderIgnoresCase(headers: seq<Header>, name: string)
    ensures FirstHeaderAt(headers, PhpText.Lower(name)) == FirstHeaderAt(headers, name)
  {
    LowerIdempotent(name);
    if headers != [] {
      FirstHeaderIgnoresCase(headers[1..], name);
    }
  }

  // ------------------------------------------------------------------- body

  /** base64UrlDecode, as the PHP byte string it returns. */
  function Decoded(data: string): string {
    Base64.BytesToString(Base64.UrlDecode(data))
  }

  predicate IsText(mimeType: string) {
    mimeType == "text/plain" || mimeType == "text/html"
  }

  /** A part that getBody takes directly: text/plain or text/html with data. */
  predicate Chosen(p: Part) {
    IsText(p.mimeType) && PhpText.Truthy(p.data)
  }

  /** The data of the first sub-part that has any, whatever its type. */
  function FirstData(parts: seq<Part>): (r: Option<string>)
    ensures r.None? <==> forall j :: 0 <= j < |parts| ==> !PhpText.Truthy(parts[j].data)
    ensures r.Some? ==> (PhpText.Truthy(r.value)
                         && exists j :: 0 <= j < |parts| && r.value == parts[j].data)
  {
    if parts == [] then None
    else if PhpText.Truthy(parts[0].data) then Some(parts[0].data)
    else
      var r := FirstData(parts[1..]);
      assert r.None? ==> forall j :: 0 <= j < |parts| ==> !PhpText.Truthy(parts[j].data) by {
        if r.None? {
          forall j | 0 <= j < |parts| ensures !PhpText.Truthy(parts[j].data) {
            if j > 0 { assert parts[j] == parts[1..][j - 1]; }
          }
        }
      }
      r
  }

  /** The part scan of getBody: per part, a chosen part wins, else its first sub-part with data. */
  function ScanParts(parts: seq<Part>): (r: Option<string>)
    ensures r.None? <==> forall i :: 0 <= i < |parts| ==> !Chosen(parts[i]) && FirstData(parts[i].parts).None?
    ensures r.Some? ==> PhpText.Truthy(r.value)
  {
    if parts == [] then None
    else if Chosen(parts[0]) then Some(parts[0].data)
    else if FirstData(parts[0].parts).Some? then FirstData(parts[0].parts)
    else
      var r := ScanParts(parts[1..]);
      assert r.None? ==> forall i :: 0 <= i < |parts| ==> !Chosen(parts[i]) && FirstData(parts[i].parts).None? by {
        if r.None? {
          forall i | 0 <= i < |parts| ensures !Chosen(parts[i]) && FirstData(parts[i].parts).None? {
            if i > 0 { assert parts[i] == parts[1..][i - 1]; }
          }
        }
      }
      r
  }

  /** The body getBody selects: top-level data, else the part scan, else "". */
  function BodySpec(p: Payload): string {
    if PhpText.Truthy(p.data) then Decoded(p.data)
    else match ScanParts(p.parts)
      case Some(d) => Decoded(d)
      case None => ""
  }

  /** GmailService::getBody: two nested scans with early exit. */
  method GetBody(p: Payload) returns (body: string)
    ensures body == BodySpec(p)
  {
    body := "";
    if PhpText.Truthy(p.data) {
      body := Decoded(p.data);
    } else if p.parts != [] {
      var i := 0;
      while i < |p.parts|
        invariant 0 <= i <= |p.parts|
        invariant ScanParts(p.parts) == ScanParts(p.parts[i..])
        invariant body == ""
      {
        var part := p.parts[i];
        assert p.parts[i..][1..] == p.parts[i + 1..];
        if IsText(part.mimeType) && PhpText.Truthy(part.data) {
          body := Decoded(part.data);
          return;
        }
        if part.parts != [] {
          var j := 0;
          while j < |part.parts|
            invariant 0 <= j <= |part.parts|
            invariant FirstData(part.parts) == FirstData(part.parts[j..])
          {
            assert part.parts[j..][1..] == part.parts[j + 1..];
            if PhpText.Truthy(part.parts[j].data) {
              body := Decoded(part.parts[j].data);
              return;
            }
            j := j + 1;
          }
        }
        i := i + 1;
      }
    }
  }

  /** A message with one text part holding base64url data has that data's bytes as its body. */
  lemma BodyOfEncodedPart(bytes: seq<Base64.Byte>, mimeType: string, headers: seq<Header>)
    requires IsText(mimeType)
    requires PhpText.Truthy(Base64.UrlEncode(bytes))
    ensures BodySpec(Payload(headers, "", [Part(mimeType, "", Base64.UrlEncode(bytes), "", [])]))
      == Base64.BytesToString(bytes)
  {
    Base64.UrlDecodeEncode(bytes);
  }

  // ------------------------------------------------------------ attachments

  predicate IsAttachment(p: Part) {
    PhpText.Truthy(p.filename) && PhpText.Truthy(p.attachmentId)
  }

  /** GmailService::hasAttachments: only top-level parts are looked at. */
  method HasAttachments(parts: seq<Part>) returns (r: bool)
    ensures r <==> exists i :: 0 <= i < |parts| && IsAttachment(parts[i])
  {
    if parts == [] {
      return false;
    }
    var i := 0;
    while i < |parts|
      invariant 0 <= i <= |parts|
      invariant forall k :: 0 <= k < i ==> !IsAttachment(parts[k])
    {
      if PhpText.Truthy(parts[i].filename) && PhpText.Truthy(parts[i].attachmentId) {
        return true;
      }
      i := i + 1;
    }
    return false;
  }

  // ---------------------------------------------------------------- details

  /** PHP's integer conversion of `ms / 1000`: truncation toward zero. */
  function SecondsOf(ms: int): (s: int)
    ensures ms >= 0 ==> 0 <= s * 1000 <= ms < s * 1000 + 1000
    ensures ms < 0 ==> -1000 < ms - s * 1000 <= 0
  {
    if ms >= 0 then ms / 1000 else -((-ms) / 1000)
  }

  /** The record getEmailDetails builds from a full message. */
  function EmailDetailsSpec(m: RawMessage): (d: MailStore.EmailData)
    ensures d.id == m.id && d.threadId == m.threadId
    ensures d.isUnread <==> "UNREAD" in d.labels
    ensures d.isStarred <==> "STARRED" in d.labels
    ensures m.labelIds.None? ==> d.labels == [] && !d.isUnread && !d.isStarred
  {
    var labels := m.labelIds.GetOr([]);
    MailStore.EmailData(
      m.id, m.threadId,
      FindHeader(m.payload.headers, "Subject"),
      FindHeader(m.payload.headers, "From"),
      FindHeader(m.payload.headers, "To"),
      FindHeader(m.payload.headers, "Date"),
      BodySpec(m.payload),
      m.snippet,
      labels,
      "UNREAD" in labels,
      "STARRED" in labels,
      exists i :: 0 <= i < |m.payload.parts| && IsAttachment(m.payload.parts[i]),
      SecondsOf(m.internalDateMs))
  }

  /** GmailService::getEmailDetails for a message the API returned. */
  method GetEmailDetails(m: RawMessage) returns (d: MailStore.EmailData)
    ensures d == EmailDetailsSpec(m)
  {
    var subject := GetHeader(m.payload.headers, "Subject");
    var from := GetHeader(m.payload.headers, "From");
    var to := GetHeader(m.payload.headers, "To");
    var date := GetHeader(m.payload.headers, "Date");
    var body := GetBody(m.payload);
    var labels := m.labelIds.GetOr([]);
    var attached := HasAttachments(m.payload.parts);
    d := MailStore.EmailData(m.id, m.threadId, subject, from, to, date, body, m.snippet,
      labels, "UNREAD" in labels, "STARRED" in labels, attached, SecondsOf(m.internalDateMs));
  }

  // ------------------------------------------------------------ pagination

  /** One listing response: an error, or message ids and a next-page token ("" when absent). */
  datatype ListPage = ListFailed(error: string) | Listed(ids: seq<string>, nextPageToken: string)

  /** The API as an oracle: the k-th listing request gets pages[k] (an empty page past the end). */
  datatype Mailbox = Mailbox(pages: seq<ListPage>, messages: map<string, RawMessage>)

  /** The parameters of one listing request. */
  datatype PageRequest = PageRequest(maxResults: int, pageToken: string)

  datatype FetchResult =
    | FetchFailed(message: string)
    | Fetched(emails: seq<MailStore.EmailData>, requests: seq<PageRequest>)

  function PageAt(pages: seq<ListPage>, k: nat): ListPage {
    if k < |pages| then pages[k] else Listed([], "")
  }

  function Min(a: int, b: int): int { if a <= b then a else b }

  /** The normalised details of every message the API would return, by id. */
  function DetailsMap(msgs: map<string, RawMessage>): (dm: map<string, MailStore.EmailData>)
    ensures dm.Keys == msgs.Keys
    ensures forall id :: id in msgs ==> dm[id] == EmailDetailsSpec(msgs[id])
  {
    map id | id in msgs :: EmailDetailsSpec(msgs[id])
  }

  /** The details of the listed ids whose details are available, in listing order. */
  function Collected(msgs: map<string, MailStore.EmailData>, ids: seq<string>): (r: seq<MailStore.EmailData>)
    ensures |r| <= |ids|
  {
    if ids == [] then []
    else (if ids[0] in msgs then [msgs[ids[0]]] else []) + Collected(msgs, ids[1..])
  }

  /**
   * The inner foreach: append the available details of `ids` to `acc`,
   * stopping (second component true) as soon as `acc` reaches `max`.
   */
  function TakeDetails(msgs: map<string, MailStore.EmailData>, ids: seq<string>, max: int, acc: seq<MailStore.EmailData>)
    : (res: (seq<MailStore.EmailData>, bool))
    decreases |ids|
  {
    if ids == [] then (acc, false)
    else if ids[0] in msgs then
      var acc' := acc + [msgs[ids[0]]];
      if |acc'| >= max then (acc', true) else TakeDetails(msgs, ids[1..], max, acc')
    else TakeDetails(msgs, ids[1..], max, acc)
  }

  /** The inner loop appends a prefix of the available details, all of them unless it stopped at `max`. */
  lemma {:induction false} TakeDetailsPrefix(msgs: map<string, MailStore.EmailData>, ids: seq<string>, max: int, acc: seq<MailStore.EmailData>)
    ensures var res := TakeDetails(msgs, ids, max, acc);
      acc <= res.0 && res.0 <= acc + Collected(msgs, ids)
      && (!res.1 ==> res.0 == acc + Collected(msgs, ids))
    decreases |ids|
  {
    var res := TakeDetails(msgs, ids, max, acc);
    if ids == [] {
      assert acc + Collected(msgs, ids) == acc;
    } else if ids[0] in msgs {
      var d := msgs[ids[0]];
      var acc' := acc + [d];
      assert Collected(msgs, ids) == [d] + Collected(msgs, ids[1..]);
      assert acc + Collected(msgs, ids) == acc' + Collected(msgs, ids[1..]);
      if |acc'| < max {
        TakeDetailsPrefix(msgs, ids[1..], max, acc');
        assert res == TakeDetails(msgs, ids[1..], max, acc');
      } else {
        assert res == (acc', true);
        assert acc' <= acc' + Collected(msgs, ids[1..]);
      }
    } else {
      assert Collected(msgs, ids) == Collected(msgs, ids[1..]);
      TakeDetailsPrefix(msgs, ids[1..], max, acc);
      assert res == TakeDetails(msgs, ids[1..], max, acc);
    }
  }

  /** Started below `max`, the inner loop stops exactly when `max` is reached. */
  lemma {:induction false} TakeDetailsStopsAtMax(msgs: map<string, MailStore.EmailData>, ids: seq<string>, max: int, acc: seq<MailStore.EmailData>)
    requires |acc| < max
    ensures var res := TakeDetails(msgs, ids, max, acc);
      (res.1 ==> |res.0| == max) && (!res.1 ==> |res.0| < max)
    decreases |ids|
  {
    if ids != [] {
      if ids[0] in msgs {
        var acc' := acc + [msgs[ids[0]]];
        if |acc'| < max {
          TakeDetailsStopsAtMax(msgs, ids[1..], max, acc');
        }
      } else {
        TakeDetailsStopsAtMax(msgs, ids[1..], max, acc);
      }
    }
  }

  /** The ids of every listing page, in order. */
  function PageIds(pages: seq<ListPage>): seq<string> {
    if pages == [] then []
    else (if pages[0].Listed? then pages[0].ids else []) + PageIds(pages[1..])
  }

  lemma {:induction false} CollectedAppend(msgs: map<string, MailStore.EmailData>, a: seq<string>, b: seq<string>)
    ensures Collected(msgs, a + b) == Collected(msgs, a) + Collected(msgs, b)
    decreases |a|
  {
    if a == [] {
      assert a + b == b;
    } else {
      assert (a + b)[0] == a[0];
      assert (a + b)[1..] == a[1..] + b;
      CollectedAppend(msgs, a[1..], b);
    }
  }

  predicate RequestSizesInRange(reqs: seq<PageRequest>) {
    forall q :: q in reqs ==> 1 <= q.maxResults <= 100
  }

  /** The do-while of fetchEmails from the k-th request on. */
  function FetchFrom(pages: seq<ListPage>, dm: map<string, MailStore.EmailData>, max: int, k: nat, token: string,
                     acc: seq<MailStore.EmailData>, reqs: seq<PageRequest>): (r: FetchResult)
    decreases |pages| - k
  {
    var reqs' := reqs + [PageRequest(Min(max - |acc|, 100), token)];
    match PageAt(pages, k)
    case ListFailed(e) => FetchFailed("Failed to fetch emails: " + e)
    case Listed(ids, next) =>
      if ids == [] then Fetched(acc, reqs')
      else
        var (acc', full) := TakeDetails(dm, ids, max, acc);
        if full then Fetched(acc', reqs')
        else if PhpText.Truthy(next) && |acc'| < max then FetchFrom(pages, dm, max, k + 1, next, acc', reqs')
        else Fetched(acc', reqs')
  }

  /**
   * From any point of the loop, the emails gathered so far are kept and the
   * result is a prefix of the available details of the remaining pages.
   */
  lemma {:induction false} FetchFromOrder(pages: seq<ListPage>, dm: map<string, MailStore.EmailData>, max: int, k: nat, token: string,
                                          acc: seq<MailStore.EmailData>, reqs: seq<PageRequest>)
    requires k <= |pages|
    ensures var r := FetchFrom(pages, dm, max, k, token, acc, reqs);
      r.Fetched? ==> acc <= r.emails && r.emails <= acc + Collected(dm, PageIds(pages[k..]))
    decreases |pages| - k
  {
    match PageAt(pages, k)
    case ListFailed(e) =>
    case Listed(ids, next) =>
      if ids != [] {
        var res := TakeDetails(dm, ids, max, acc);
        TakeDetailsPrefix(dm, ids, max, acc);
        var rest := PageIds(pages[k + 1..]);
        PageIdsAt(pages, k);
        CollectedAppend(dm, ids, rest);
        var r := FetchFrom(pages, dm, max, k, token, acc, reqs);
        if !res.1 && PhpText.Truthy(next) && |res.0| < max {
          var reqs' := reqs + [PageRequest(Min(max - |acc|, 100), token)];
          FetchFromOrder(pages, dm, max, k + 1, next, res.0, reqs');
          assert r == FetchFrom(pages, dm, max, k + 1, next, res.0, reqs');
          if r.Fetched? {
            PrefixThrough(acc, res.0, r.emails, Collected(dm, ids), Collected(dm, rest));
          }
        } else {
          assert r.Fetched? && r.emails == res.0;
          PrefixGrow(acc, res.0, Collected(dm, ids), Collected(dm, rest));
        }
      }
  }

  /** The ids of the pages from `k` on: those of page `k`, then those after it. */
  lemma PageIdsAt(pages: seq<ListPage>, k: nat)
    requires k < |pages| && pages[k].Listed?
    ensures PageIds(pages[k..]) == pages[k].ids + PageIds(pages[k + 1..])
  {
    assert pages[k..][1..] == pages[k + 1..];
  }

  lemma PrefixThrough<T>(a: seq<T>, b: seq<T>, r: seq<T>, x: seq<T>, y: seq<T>)
    requires b == a + x && b <= r && r <= b + y
    ensures a <= r && r <= a + (x + y)
  {
    assert b + y == a + (x + y);
  }

  lemma PrefixGrow<T>(a: seq<T>, b: seq<T>, x: seq<T>, y: seq<T>)
    requires a <= b && b <= a + x
    ensures b <= a + (x + y)
  {
    assert (a + x) + y == a + (x + y);
    assert forall i :: 0 <= i < |b| ==> b[i] == (a + (x + y))[i];
  }

  /**
   * From any point of the loop with fewer than `max` emails held: no more
   * than `max` are returned, the requests made so far are kept, the next one
   * asks for `min(max - fetched, 100)`, and every request asks for 1 to 100.
   */
  lemma {:induction false} FetchFromBounds(pages: seq<ListPage>, dm: map<string, MailStore.EmailData>, max: int, k: nat, token: string,
                                           acc: seq<MailStore.EmailData>, reqs: seq<PageRequest>)
    requires |acc| < max
    ensures var r := FetchFrom(pages, dm, max, k, token, acc, reqs);
      r.Fetched? ==>
        && |r.emails| <= max
        && |reqs| < |r.requests| && r.requests[..|reqs|] == reqs
        && r.requests[|reqs|] == PageRequest(Min(max - |acc|, 100), token)
        && (RequestSizesInRange(reqs) ==> RequestSizesInRange(r.requests))
    decreases |pages| - k
  {
    var reqs' := reqs + [PageRequest(Min(max - |acc|, 100), token)];
    assert reqs'[..|reqs|] == reqs;
    match PageAt(pages, k)
    case ListFailed(e) =>
    case Listed(ids, next) =>
      if ids != [] {
        var (acc', full) := TakeDetails(dm, ids, max, acc);
        TakeDetailsStopsAtMax(dm, ids, max, acc);
        if !full && PhpText.Truthy(next) && |acc'| < max {
          FetchFromBounds(pages, dm, max, k + 1, next, acc', reqs');
          var r := FetchFrom(pages, dm, max, k + 1, next, acc', reqs');
          assert r.Fetched? ==> r.requests[..|reqs|] == reqs'[..|reqs|];
        }
      }
  }

  /** fetchEmails(maxResults) as written. */
  function FetchSpec(mb: Mailbox, max: int): FetchResult {
    FetchFrom(mb.pages, DetailsMap(mb.messages), max, 0, "", [], [])
  }

  /** GmailService::fetchEmails: the paginated listing loop as written. */
  method FetchEmails(mb: Mailbox, max: int) returns (r: FetchResult)
    ensures r == FetchSpec(mb, max)
  {
    var emails: seq<MailStore.EmailData> := [];
    var requests: seq<PageRequest> := [];
    var token := "";
    var k := 0;
    while true
      invariant FetchSpec(mb, max) == FetchFrom(mb.pages, DetailsMap(mb.messages), max, k, token, emails, requests)
      decreases |mb.pages| - k
    {
      var request := PageRequest(Min(max - |emails|, 100), token);
      var page := PageAt(mb.pages, k);
      requests := requests + [request];
      if page.ListFailed? {
        return FetchFailed("Failed to fetch emails: " + page.error);
      }
      var ids := page.ids;
      if ids == [] {
        break;
      }
      ghost var before := emails;
      var j := 0;
      while j < |ids|
        invariant 0 <= j <= |ids|
        invariant TakeDetails(DetailsMap(mb.messages), ids, max, before) == TakeDetails(DetailsMap(mb.messages), ids[j..], max, emails)
      {
        assert ids[j..][1..] == ids[j + 1..];
        if ids[j] in mb.messages {
          var d := GetEmailDetails(mb.messages[ids[j]]);
          emails := emails + [d];
          if |emails| >= max {
            return Fetched(emails, requests);
          }
        }
        j := j + 1;
      }
      token := page.nextPageToken;
      if !(PhpText.Truthy(token) && |emails| < max) {
        break;
      }
      k := k + 1;
    }
    return Fetched(emails, requests);
  }

  /**
   * fetchEmails with a positive limit returns at most that many emails, in
   * listing order with unavailable messages skipped, and every listing request
   * asks for between 1 and 100 messages; the first request carries no token.
   */
  lemma FetchBounded(mb: Mailbox, max: int)
    requires max >= 1
    ensures var r := FetchSpec(mb, max);
      r.Fetched? ==>
        && |r.emails| <= max
        && r.emails <= Collected(DetailsMap(mb.messages), PageIds(mb.pages))
        && RequestSizesInRange(r.requests)
        && |r.requests| > 0 && r.requests[0] == PageRequest(Min(max, 100), "")
  {
    FetchFromOrder(mb.pages, DetailsMap(mb.messages), max, 0, "", [], []);
    FetchFromBounds(mb.pages, DetailsMap(mb.messages), max, 0, "", [], []);
    assert mb.pages[0..] == mb.pages;
  }

  /** Any listing failure surfaces with the "Failed to fetch emails: " prefix. */
  lemma FetchFailurePrefixed(mb: Mailbox, max: int)
    ensures var r := FetchSpec(mb, max);
      r.FetchFailed? ==> exists e :: r.message == "Failed to fetch emails: " + e
  {
    FetchFailurePrefixedFrom(mb.pages, DetailsMap(mb.messages), max, 0, "", [], []);
  }

  lemma {:induction false} FetchFailurePrefixedFrom(pages: seq<ListPage>, dm: map<string, MailStore.EmailData>, max: int, k: nat, token: string,
                                                    acc: seq<MailStore.EmailData>, reqs: seq<PageRequest>)
    ensures var r := FetchFrom(pages, dm, max, k, token, acc, reqs);
      r.FetchFailed? ==> exists e :: r.message == "Failed to fetch emails: " + e
    decreases |pages| - k
  {
    var reqs' := reqs + [PageRequest(Min(max - |acc|, 100), token)];
    match PageAt(pages, k)
    case ListFailed(e) =>
      assert FetchFrom(pages, dm, max, k, token, acc, reqs).message == "Failed to fetch emails: " + e;
    case Listed(ids, next) =>
      if ids != [] {
        var (acc', full) := TakeDetails(dm, ids, max, acc);
        if !full && PhpText.Truthy(next) && |acc'| < max {
          FetchFailurePrefixedFrom(pages, dm, max, k + 1, next, acc', reqs');
        }
      }
  }

  function Plain(id: string): RawMessage {
    RawMessage(id, "thread-" + id, Payload([], "", []), None, "", 0)
  }

  const TwoPages: Mailbox :=
    Mailbox([Listed(["msg-1", "msg-2"], "page-token-2"), Listed(["msg-3"], "")],
            map["msg-1" := Plain("msg-1"), "msg-2" := Plain("msg-2"), "msg-3" := Plain("msg-3")])

  /** The details map of the two-page example mailbox. */
  lemma TwoPagesDetails(msgs: map<string, RawMessage>)
    requires msgs == TwoPages.messages
    ensures var dm := DetailsMap(msgs);
      && "msg-1" in dm && dm["msg-1"] == EmailDetailsSpec(Plain("msg-1"))
      && "msg-2" in dm && dm["msg-2"] == EmailDetailsSpec(Plain("msg-2"))
      && "msg-3" in dm && dm["msg-3"] == EmailDetailsSpec(Plain("msg-3"))
  {
    assert "msg-1" in msgs && msgs["msg-1"] == Plain("msg-1");
    assert "msg-2" in msgs && msgs["msg-2"] == Plain("msg-2");
    assert "msg-3" in msgs && msgs["msg-3"] == Plain("msg-3");
  }

  /** The second request of the two-page listing: msg-3 is appended and the loop ends. */
  lemma TwoPagesSecond(dm: map<string, MailStore.EmailData>, d1: MailStore.EmailData, d2: MailStore.EmailData)
    requires "msg-3" in dm
    ensures FetchFrom(TwoPages.pages, dm, 10, 1, "page-token-2", [d1, d2], [PageRequest(10, "")])
      == Fetched([d1, d2, dm["msg-3"]], [PageRequest(10, ""), PageRequest(8, "page-token-2")])
  {
    var d3 := dm["msg-3"];
    assert PageAt(TwoPages.pages, 1) == Listed(["msg-3"], "");
    assert ["msg-3"][1..] == [];
    assert [d1, d2] + [d3] == [d1, d2, d3];
    assert TakeDetails(dm, ["msg-3"], 10, [d1, d2]) == ([d1, d2, d3], false);
  }

  /** The two-page listing with every message available, for any details. */
  lemma TwoPagesListing(dm: map<string, MailStore.EmailData>)
    requires "msg-1" in dm && "msg-2" in dm && "msg-3" in dm
    ensures FetchFrom(TwoPages.pages, dm, 10, 0, "", [], [])
      == Fetched([dm["msg-1"], dm["msg-2"], dm["msg-3"]], [PageRequest(10, ""), PageRequest(8, "page-token-2")])
  {
    var d1, d2 := dm["msg-1"], dm["msg-2"];
    assert PageAt(TwoPages.pages, 0) == Listed(["msg-1", "msg-2"], "page-token-2");
    assert ["msg-1", "msg-2"][1..] == ["msg-2"] && ["msg-2"][1..] == [];
    assert TakeDetails(dm, [], 10, [d1, d2]) == ([d1, d2], false);
    assert [d1] + [d2] == [d1, d2];
    assert TakeDetails(dm, ["msg-2"], 10, [d1]) == ([d1, d2], false);
    assert [] + [d1] == [d1];
    assert TakeDetails(dm, ["msg-1", "msg-2"], 10, []) == ([d1, d2], false);
    assert PhpText.Truthy("page-token-2");
    TwoPagesSecond(dm, d1, d2);
  }

  /** Two pages, msg-1 and msg-2 then msg-3, come back in listing order. */
  lemma FetchTwoPagesInOrder(mb: Mailbox)
    requires mb == TwoPages
    ensures var r := FetchSpec(mb, 10);
      r.Fetched? && |r.emails| == 3
      && r.emails[0].id == "msg-1" && r.emails[1].id == "msg-2" && r.emails[2].id == "msg-3"
      && r.requests == [PageRequest(10, ""), PageRequest(8, "page-token-2")]
  {
    TwoPagesDetails(mb.messages);
    TwoPagesListing(DetailsMap(mb.messages));
  }

  /** A one-message listing with a limit of 0. */
  lemma ZeroLimitListing(dm: map<string, MailStore.EmailData>)
    requires "m" in dm
    ensures FetchFrom([Listed(["m"], "")], dm, 0, 0, "", [], []) == Fetched([dm["m"]], [PageRequest(0, "")])
  {
    assert [] + [dm["m"]] == [dm["m"]];
    assert TakeDetails(dm, ["m"], 0, []) == ([dm["m"]], true);
  }

  /**
   * As written, a non-positive limit still lets the first available message
   * through: the limit is only compared after an email has been appended.
   */
  lemma FetchZeroReturnsOne(mb: Mailbox)
    requires mb == Mailbox([Listed(["m"], "")], map["m" := Plain("m")])
    ensures var r := FetchSpec(mb, 0);
      r.Fetched? && |r.emails| == 1
  {
    assert "m" in mb.messages;
    ZeroLimitListing(DetailsMap(mb.messages));
  }

  /** fetchEmails with the limit honoured for every input: nothing is listed for a non-positive limit. */
  function FetchClampedSpec(mb: Mailbox, max: int): (r: FetchResult)
    ensures r.Fetched? ==> |r.emails| <= if max <= 0 then 0 else max
    ensures max >= 1 ==> r == FetchSpec(mb, max)
  {
    if max <= 0 then Fetched([], [])
    else
      FetchBounded(mb, max);
      FetchSpec(mb, max)
  }

  /** The corrected fetch the sync orchestrator uses. */
  method FetchEmailsClamped(mb: Mailbox, max: int) returns (r: FetchResult)
    ensures r == FetchClampedSpec(mb, max)
  {
    if max <= 0 {
      return Fetched([], []);
    }
    r := FetchEmails(mb, max);
  }
}

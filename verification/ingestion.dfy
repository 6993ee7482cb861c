/**
 * ProcessEmailJob: the ingestion worker. One fetched message becomes one row
 * keyed on (user_id, gmail_id), and the worker reports its progress into the
 * per-user sync record.
 */
module Ingestion {
  import opened Wrappers
  import opened Clock
  import PhpText
  import opened MailStore
  import opened SyncProgress

  // ------------------------------------------------------- the From header

  /** PCRE `\s`: space, tab, newline, vertical tab, form feed, carriage return. */
  predicate IsSpace(c: char) {
    c == ' ' || c == '\t' || c == '\n' || c == '\U{B}' || c == '\U{C}' || c == '\r'
  }

  /** The length of the run of `\s` characters starting at i. */
  function SpaceRun(s: string, i: nat): (n: nat)
    requires i <= |s|
    ensures i + n <= |s|
    ensures forall k :: i <= k < i + n ==> IsSpace(s[k])
    ensures i + n == |s| || !IsSpace(s[i + n])
    decreases |s| - i
  {
    if i < |s| && IsSpace(s[i]) then 1 + SpaceRun(s, i + 1) else 0
  }

  /** The length of the run of characters other than '>' starting at i. */
  function NonCloseRun(s: string, i: nat): (n: nat)
    requires i <= |s|
    ensures i + n <= |s|
    ensures forall k :: i <= k < i + n ==> s[k] != '>'
    ensures i + n == |s| || s[i + n] == '>'
    decreases |s| - i
  {
    if i < |s| && s[i] != '>' then 1 + NonCloseRun(s, i + 1) else 0
  }

  /**
   * `\s*<([^>]+)>$` matched from position a (the greedy runs cannot give
   * back: no `\s` is '<', no `[^>]` is '>'). `$` accepts the end of the
   * string or a final newline. The result is the captured address.
   */
  function TailAt(s: string, a: nat): (r: Option<string>)
    requires a <= |s|
  {
    var p := a + SpaceRun(s, a);
    if p < |s| && s[p] == '<' then
      var m := NonCloseRun(s, p + 1);
      var q := p + 1 + m;
      if m >= 1 && q < |s| && (q + 1 == |s| || (q + 2 == |s| && s[q + 1] == '\n'))
      then Some(s[p + 1..q]) else None
    else None
  }

  /**
   * `^(.+?)` tries name lengths a = 1, 2, ... in turn; `.` does not match a
   * newline, so the search ends at the first one.
   */
  function SearchFrom(s: string, a: nat): (r: Option<(string, string)>)
    requires 1 <= a
    decreases |s| - a
  {
    if a > |s| || s[a - 1] == '\n' then None
    else match TailAt(s, a)
      case Some(addr) => Some((s[..a], addr))
      case None => SearchFrom(s, a + 1)
  }

  /** `preg_match('/^(.+?)\s*<([^>]+)>$/', $from, $matches)`: the two captures. */
  function NameAddrMatch(s: string): Option<(string, string)> {
    SearchFrom(s, 1)
  }

  /** ProcessEmailJob::parseFromField. The email validator is a parameter. */
  function ParseFromField(from: Option<string>, isValidEmail: string -> bool): Sender {
    if from.None? || !PhpText.Truthy(from.value) then Sender(None, None)
    else match NameAddrMatch(from.value)
      case Some((name, addr)) => Sender(Some(PhpText.Trim(name)), Some(PhpText.Trim(addr)))
      case None =>
        if isValidEmail(from.value) then Sender(None, Some(from.value))
        else Sender(Some(from.value), None)
  }

  predicate Trimmed(s: string) {
    s == [] || (!PhpText.IsTrimChar(s[0]) && !PhpText.IsTrimChar(s[|s| - 1]))
  }

  /**
   * The parser is total and yields one of four shapes: nothing for an empty
   * header; a trimmed name and address when the "Name <addr>" pattern
   * matches; the whole header as the address when it is a valid email; the
   * whole header as the name otherwise.
   */
  lemma ParseFromFieldShapes(from: Option<string>, isValidEmail: string -> bool)
    ensures var r := ParseFromField(from, isValidEmail);
      && (r == Sender(None, None) <==> from.None? || !PhpText.Truthy(from.value))
      && (r.name.Some? && r.email.Some? ==> Trimmed(r.name.value) && Trimmed(r.email.value))
      && (r.name.None? && r.email.Some? ==> from == r.email && isValidEmail(from.value))
      && (r.name.Some? && r.email.None? ==> from == r.name && !isValidEmail(from.value))
  {
    SenderEmptyExactlyWhenHeaderEmpty(from, isValidEmail);
    SenderPairTrimmed(from, isValidEmail);
    SenderAddressOnly(from, isValidEmail);
    SenderNameOnly(from, isValidEmail);
  }

  lemma SenderEmptyExactlyWhenHeaderEmpty(from: Option<string>, isValidEmail: string -> bool)
    ensures ParseFromField(from, isValidEmail) == Sender(None, None) <==> from.None? || !PhpText.Truthy(from.value)
  {
  }

  lemma SenderPairTrimmed(from: Option<string>, isValidEmail: string -> bool)
    ensures var r := ParseFromField(from, isValidEmail);
      r.name.Some? && r.email.Some? ==> Trimmed(r.name.value) && Trimmed(r.email.value)
  {
  }

  lemma SenderAddressOnly(from: Option<string>, isValidEmail: string -> bool)
    ensures var r := ParseFromField(from, isValidEmail);
      r.name.None? && r.email.Some? ==> from == r.email && isValidEmail(from.value)
  {
  }

  lemma SenderNameOnly(from: Option<string>, isValidEmail: string -> bool)
    ensures var r := ParseFromField(from, isValidEmail);
      r.name.Some? && r.email.None? ==> from == r.name && !isValidEmail(from.value)
  {
  }

  /** A header with no '<' never matches the "Name <addr>" pattern. */
  lemma {:induction false} NoAngleNoMatch(s: string, a: nat)
    requires 1 <= a && '<' !in s
    ensures SearchFrom(s, a) == None
    decreases |s| - a
  {
    if a <= |s| && s[a - 1] != '\n' {
      var p := a + SpaceRun(s, a);
      assert p < |s| ==> s[p] in s;
      NoAngleNoMatch(s, a + 1);
    }
  }

  /** A bare address: kept whole as the address when valid, else as the name. */
  lemma BareHeader(s: string, isValidEmail: string -> bool)
    requires PhpText.Truthy(s) && '<' !in s
    ensures isValidEmail(s) ==> ParseFromField(Some(s), isValidEmail) == Sender(None, Some(s))
    ensures !isValidEmail(s) ==> ParseFromField(Some(s), isValidEmail) == Sender(Some(s), None)
  {
    NoAngleNoMatch(s, 1);
  }

  /** The header a mail client writes for a display name and an address. */
  function Display(n: string, x: string): string {
    n + " <" + x + ">"
  }

  lemma DisplayLayout(n: string, x: string)
    ensures var s := Display(n, x);
      && |s| == |n| + |x| + 3
      && s[..|n|] == n && s[|n|] == ' ' && s[|n| + 1] == '<'
      && s[|n| + 2..|n| + 2 + |x|] == x && s[|n| + 2 + |x|] == '>'
      && (forall k :: 0 <= k < |n| ==> s[k] == n[k])
      && (forall k :: 0 <= k < |x| ==> s[|n| + 2 + k] == x[k])
  {
  }

  /** Name lengths shorter than the real name do not match. */
  lemma NoEarlierMatch(n: string, x: string)
    requires n != [] && '<' !in n && '\n' !in n && !IsSpace(n[|n| - 1])
    ensures SearchFrom(Display(n, x), 1) == SearchFrom(Display(n, x), |n|)
  {
    var s := Display(n, x);
    DisplayLayout(n, x);
    forall a | 1 <= a < |n|
      ensures Skippable(s, a)
    {
      assert s[a - 1] == n[a - 1] && n[a - 1] in n;
      NoTailInsideName(n, x, a);
    }
    SearchSkipsTo(s, 1, |n|);
  }

  /** Name length `a` neither ends the search nor matches. */
  predicate Skippable(s: string, a: nat)
    requires 1 <= a <= |s|
  {
    s[a - 1] != '\n' && TailAt(s, a) == None
  }

  /** Name lengths `a` up to `m` where the tail does not match hand the search on to `m`. */
  lemma {:induction false} SearchSkipsTo(s: string, a: nat, m: nat)
    requires 1 <= a <= m <= |s|
    requires forall j :: a <= j < m ==> Skippable(s, j)
    ensures SearchFrom(s, a) == SearchFrom(s, m)
    decreases m - a
  {
    if a < m {
      assert Skippable(s, a);
      SearchSkipsTo(s, a + 1, m);
    }
  }

  /** Inside the name, `\s*<` cannot match: the name has no '<' and does not end in `\s`. */
  lemma NoTailInsideName(n: string, x: string, a: nat)
    requires 1 <= a < |n|
    requires '<' !in n && !IsSpace(n[|n| - 1])
    ensures TailAt(Display(n, x), a) == None
  {
    var s := Display(n, x);
    DisplayLayout(n, x);
    assert s[|n| - 1] == n[|n| - 1];
    var p := a + SpaceRun(s, a);
    assert p < |n|;
    assert s[p] == n[p] && n[p] in n;
  }

  lemma NonCloseRunExact(s: string, i: nat, n: nat)
    requires i + n < |s| && s[i + n] == '>'
    requires forall k :: i <= k < i + n ==> s[k] != '>'
    ensures NonCloseRun(s, i) == n
  {
  }

  /** At the real name length, the rest of the header is the address in angle brackets. */
  lemma TailAtName(n: string, x: string)
    requires n != [] && x != [] && '>' !in x
    ensures TailAt(Display(n, x), |n|) == Some(x)
  {
    var s := Display(n, x);
    DisplayLayout(n, x);
    assert SpaceRun(s, |n| + 1) == 0;
    assert SpaceRun(s, |n|) == 1;
    forall k | |n| + 2 <= k < |n| + 2 + |x| ensures s[k] != '>' {
      assert s[k] == x[k - |n| - 2] && x[k - |n| - 2] in x;
    }
    NonCloseRunExact(s, |n| + 2, |x|);
  }

  /** The pattern splits a formatted header back into its name and address. */
  lemma MatchOfDisplay(n: string, x: string)
    requires n != [] && '<' !in n && '\n' !in n && !IsSpace(n[|n| - 1])
    requires x != [] && '>' !in x
    ensures NameAddrMatch(Display(n, x)) == Some((n, x))
  {
    var s := Display(n, x);
    DisplayLayout(n, x);
    NoEarlierMatch(n, x);
    assert s[|n| - 1] == n[|n| - 1] && n[|n| - 1] in n;
    TailAtName(n, x);
  }

  /**
   * Round trip: formatting a display name and an address as "Name <addr>"
   * and parsing the header gives both back.
   */
  lemma FromFieldRoundTrip(n: string, x: string, isValidEmail: string -> bool)
    requires n != [] && '<' !in n && '\n' !in n
    requires Trimmed(n) && !IsSpace(n[|n| - 1])
    requires x != [] && '>' !in x && Trimmed(x)
    ensures ParseFromField(Some(Display(n, x)), isValidEmail) == Sender(Some(n), Some(x))
  {
    MatchOfDisplay(n, x);
    DisplayLayout(n, x);
    assert PhpText.Truthy(Display(n, x));
    PhpText.TrimOfTrimmed(n);
    PhpText.TrimOfTrimmed(x);
  }

  /** "Alice Johnson <alice@example.com>" parses to its name and address. */
  lemma AliceExample(from: string, name: string, address: string, isValidEmail: string -> bool)
    requires from == "Alice Johnson <alice@example.com>"
    requires name == "Alice Johnson" && address == "alice@example.com"
    ensures ParseFromField(Some(from), isValidEmail) == Sender(Some(name), Some(address))
  {
    AliceParts(name, address);
    assert Display(name, address) == from;
    FromFieldRoundTrip(name, address, isValidEmail);
  }

  lemma AliceParts(name: string, address: string)
    requires name == "Alice Johnson" && address == "alice@example.com"
    ensures name != [] && '<' !in name && '\n' !in name && Trimmed(name) && !IsSpace(name[|name| - 1])
    ensures address != [] && '>' !in address && Trimmed(address)
  {
  }

  // ----------------------------------------------------------- the worker

  datatype Outcome = Done | Threw(message: string)

  /**
   * ProcessEmailJob::handle for user `userId`. `saveError` is the exception
   * the row save raises, if any. from_email is a NOT NULL column, so a save
   * of a message whose From header yields no address always raises one. The
   * second result says whether the user's last_synced_at was stamped with `now`.
   */
  method HandleIngest(store: EmailStore, cache: SyncCache, userId: int, data: EmailData, syncLimit: int,
                      now: Timestamp, isValidEmail: string -> bool, saveError: Option<string>)
    returns (outcome: Outcome, stamped: bool)
    requires store.Valid()
    requires ParseFromField(data.from, isValidEmail).email.None? ==> saveError.Some?
    modifies store, cache
    ensures store.Valid()
    ensures outcome == Done && !(syncLimit > 0 && CountForUser(old(store.rows), userId) >= syncLimit) ==>
              EmailKey(userId, data.id) in store.rows && store.rows[EmailKey(userId, data.id)].fromEmail.Some?
    ensures var key := UserKey(userId);
      var before := if key in old(cache.entries) then old(cache.entries)[key] else NoRecord;
      if syncLimit > 0 && CountForUser(old(store.rows), userId) >= syncLimit then
        && store.rows == old(store.rows)
        && cache.entries == old(cache.entries)[key := LimitReached(before, syncLimit, now)]
        && outcome == Done && !stamped
      else if saveError.Some? then
        && store.rows == old(store.rows)
        && cache.entries == old(cache.entries)[key := CountedFailed(before)]
        && outcome == Threw(saveError.value) && !stamped
      else
        && store.rows == Upserted(old(store.rows), EmailKey(userId, data.id), data,
                                  ParseFromField(data.from, isValidEmail))
        && cache.entries == old(cache.entries)[key := CountedProcessed(before, now).0]
        && outcome == Done && stamped == CountedProcessed(before, now).1
  {
    var key := UserKey(userId);
    if syncLimit > 0 {
      var current := CountForUser(store.rows, userId);
      if current >= syncLimit {
        var status := cache.Get(key);
        cache.Put(key, LimitReached(status, syncLimit, now));
        return Done, false;
      }
    }
    var fromParts := ParseFromField(data.from, isValidEmail);
    if saveError.Some? {
      var status := cache.Get(key);
      cache.Put(key, CountedFailed(status));
      return Threw(saveError.value), false;
    }
    store.Upsert(EmailKey(userId, data.id), data, fromParts);
    var status := cache.Get(key);
    var counted := CountedProcessed(status, now);
    cache.Put(key, counted.0);
    return Done, counted.1;
  }

  /** ProcessEmailJob::failed: counts the failure once more. */
  method Failed(cache: SyncCache, userId: int)
    modifies cache
    ensures cache.entries == old(cache.entries)[UserKey(userId) := CountedFailed(old(cache.Get(UserKey(userId))))]
  {
    var status := cache.Get(UserKey(userId));
    cache.Put(UserKey(userId), CountedFailed(status));
  }

  /** `$tries`: how many times the queue runs handle before it calls failed(). */
  const Tries: nat := 3

  /** The record after k failures have each been counted once. */
  function FailedTimes(r: SyncRecord, k: nat): SyncRecord {
    if k == 0 then r else CountedFailed(FailedTimes(r, k - 1))
  }

  /**
   * Counting k failures adds k to `failed` (a missing count starts from 0)
   * and changes nothing else in the record.
   */
  lemma {:induction false} FailuresCounted(r: SyncRecord, k: nat)
    requires k >= 1
    ensures FailedTimes(r, k).failed == Some(r.failed.GetOr(0) + k)
    ensures FailedTimes(r, k) == r.(failed := FailedTimes(r, k).failed)
  {
    if k > 1 {
      FailuresCounted(r, k - 1);
    }
  }

  /**
   * A save that fails on every attempt: each of the `$tries` runs of handle
   * counts the failure in its catch block and rethrows, and failed() counts
   * it once more when the queue gives up, so `failed` grows by four while
   * nothing else in the record and no row changes.
   */
  method PersistentSaveFailure(store: EmailStore, cache: SyncCache, userId: int, data: EmailData, syncLimit: int,
                               now: Timestamp, isValidEmail: string -> bool, saveError: string)
    requires store.Valid()
    requires syncLimit <= 0 || CountForUser(store.rows, userId) < syncLimit
    modifies store, cache
    ensures store.rows == old(store.rows)
    ensures var key := UserKey(userId);
      cache.entries == old(cache.entries)[key := FailedTimes(old(cache.Get(key)), Tries + 1)]
  {
    var key := UserKey(userId);
    ghost var before := cache.Get(key);
    var attempt := 0;
    while attempt < Tries
      invariant 0 <= attempt <= Tries
      invariant store.Valid() && store.rows == old(store.rows)
      invariant attempt == 0 ==> cache.entries == old(cache.entries)
      invariant attempt > 0 ==> cache.entries == old(cache.entries)[key := FailedTimes(before, attempt)]
      invariant cache.Get(key) == FailedTimes(before, attempt)
    {
      var outcome, _ := HandleIngest(store, cache, userId, data, syncLimit, now, isValidEmail, Some(saveError));
      attempt := attempt + 1;
    }
    Failed(cache, userId);
  }

  /** With `$tries = 3` a persistent failure is counted four times and never as processed. */
  lemma PersistentFailureCountedFourTimes(r: SyncRecord)
    ensures FailedTimes(r, Tries + 1).failed == Some(r.failed.GetOr(0) + 4)
    ensures FailedTimes(r, Tries + 1).processed == r.processed
  {
    FailuresCounted(r, Tries + 1);
  }
}

/**
 * Status of the external unsubscribe automation for stored emails: the job
 * list the automation API reports, the status record shown for one email,
 * the five-minute status cache, and the single and batch lookups. The API
 * is an oracle: the reply to the `/jobs` request is a parameter.
 */
module UnsubscribeAutomation {
  import opened Wrappers
  import PhpText

  /** The status values the service reports. */
  datatype AutomationState = Pending | Processing | Completed | Failed | Unavailable | Unknown

  /** The string each state is reported as. */
  function StateName(s: AutomationState): string {
    match s
    case Pending => "pending"
    case Processing => "processing"
    case Completed => "completed"
    case Failed => "failed"
    case Unavailable => "unavailable"
    case Unknown => "unknown"
  }

  /** The status record: `status`, `message`, `attempted_at`, `completed_at`. */
  datatype AutomationStatus = AutomationStatus(
    status: AutomationState, message: Option<string>, attemptedAt: Option<string>, completedAt: Option<string>)

  /** One entry of the API's job list; every key but `item_id` may be absent. */
  datatype Job = Job(itemId: int, status: Option<string>, errorMessage: Option<string>,
                     startedAt: Option<string>, completedAt: Option<string>)

  /**
   * What the `/jobs` request ends with: a connection exception, another
   * exception, or a response (2xx or not) with its `jobs` list, an absent
   * list read as empty.
   */
  datatype JobsReply = ConnectionFailed | Threw | Responded(successful: bool, jobs: seq<Job>)

  /**
   * normalizeStatus: the API's "running" is reported as processing, the three
   * shared names pass through, and every other string is unknown.
   */
  function NormalizeStatus(apiStatus: string): (s: AutomationState)
    ensures s != Unavailable
    ensures s == Processing <==> apiStatus == "running"
    ensures s == Unknown <==> apiStatus !in {"running", "pending", "completed", "failed"}
    ensures s in {Pending, Completed, Failed} ==> StateName(s) == apiStatus
  {
    match apiStatus
    case "running" => Processing
    case "pending" => Pending
    case "completed" => Completed
    case "failed" => Failed
    case _ => Unknown
  }

  /** The internal name "processing" is not an API status, so it does not survive normalisation. */
  lemma NormalizeIsNotIdempotent()
    ensures NormalizeStatus(StateName(NormalizeStatus("running"))) == Unknown
  {
  }

  /** getDefaultStatus: a status with a message and neither timestamp. */
  function DefaultStatus(status: AutomationState, message: string): AutomationStatus
  {
    AutomationStatus(status, Some(message), None, None)
  }

  /** The record built from a matched job; a job without a status reads as "unknown". */
  function FromJob(j: Job): (s: AutomationStatus)
    ensures s.status == NormalizeStatus(j.status.GetOr("unknown"))
    ensures j.status.None? ==> s.status == Unknown
    ensures s.message == j.errorMessage && s.attemptedAt == j.startedAt && s.completedAt == j.completedAt
  {
    AutomationStatus(NormalizeStatus(j.status.GetOr("unknown")), j.errorMessage, j.startedAt, j.completedAt)
  }

  /** `empty($apiUrl)`: a missing, empty or "0" URL counts as not configured. */
  predicate Configured(apiUrl: Option<string>) {
    apiUrl.Some? && PhpText.Truthy(apiUrl.value)
  }

  /** `firstWhere('item_id', $id)`: the index of the first job for the email. */
  function FirstWhere(jobs: seq<Job>, id: int): (r: Option<nat>)
    ensures r.Some? ==> r.value < |jobs| && jobs[r.value].itemId == id
    ensures r.Some? ==> forall k :: 0 <= k < r.value ==> jobs[k].itemId != id
    ensures r.None? <==> forall k :: 0 <= k < |jobs| ==> jobs[k].itemId != id
  {
    if jobs == [] then None
    else if jobs[0].itemId == id then Some(0)
    else match FirstWhere(jobs[1..], id)
      case None => None
      case Some(k) => Some(k + 1)
  }

  /** The index of the last job for the email. */
  function LastWhere(jobs: seq<Job>, id: int): (r: Option<nat>)
    ensures r.Some? ==> r.value < |jobs| && jobs[r.value].itemId == id
    ensures r.Some? ==> forall k :: r.value < k < |jobs| ==> jobs[k].itemId != id
    ensures r.None? <==> forall k :: 0 <= k < |jobs| ==> jobs[k].itemId != id
  {
    if jobs == [] then None
    else if jobs[|jobs| - 1].itemId == id then Some(|jobs| - 1)
    else LastWhere(jobs[..|jobs| - 1], id)
  }

  /**
   * `collect($jobs)->keyBy('item_id')`: one entry per item id, and a later
   * job replaces an earlier one with the same id, so each entry is the last
   * job listed for its email.
   */
  function KeyedBy(jobs: seq<Job>): (m: map<int, Job>)
    ensures forall id :: id in m <==> LastWhere(jobs, id).Some?
    ensures forall id :: id in m ==> m[id] == jobs[LastWhere(jobs, id).value]
    decreases |jobs|
  {
    if jobs == [] then map[]
    else KeyedBy(jobs[..|jobs| - 1])[jobs[|jobs| - 1].itemId := jobs[|jobs| - 1]]
  }

  /** The record the batch reports for an uncached email once the job list arrived. */
  function BatchEntry(jobs: seq<Job>, id: int): (s: AutomationStatus)
    ensures LastWhere(jobs, id).Some? ==> s == FromJob(jobs[LastWhere(jobs, id).value])
    ensures LastWhere(jobs, id).None? ==> s == DefaultStatus(Pending, "No automation job found")
  {
    var m := KeyedBy(jobs);
    if id in m then FromJob(m[id]) else DefaultStatus(Pending, "No automation job found")
  }

  /** What one single lookup reports, whether it cached a record, and whether it made the request. */
  datatype SingleResult = SingleResult(status: AutomationStatus, put: Option<AutomationStatus>, requested: bool)

  /**
   * getAutomationStatus for one email: a cached record is returned as it is
   * without a request; otherwise the first job for the email gives the
   * record, which is cached; no job gives pending, not cached; each failure
   * has its own default, never cached.
   */
  function SingleSpec(cache: map<int, AutomationStatus>, id: int, apiUrl: Option<string>, reply: JobsReply): (r: SingleResult)
    ensures id in cache ==> r == SingleResult(cache[id], None, false)
    ensures id !in cache ==> (r.requested <==> Configured(apiUrl))
    ensures r.put.Some? ==> && id !in cache && r.put.value == r.status
                            && reply.Responded? && reply.successful && FirstWhere(reply.jobs, id).Some?
                            && r.status == FromJob(reply.jobs[FirstWhere(reply.jobs, id).value])
    ensures r.put.None? && id !in cache ==> r.status.attemptedAt == None && r.status.completedAt == None
    ensures id !in cache && Configured(apiUrl) && reply == ConnectionFailed ==>
      r.status == DefaultStatus(Unavailable, "Connection failed")
  {
    if id in cache then SingleResult(cache[id], None, false)
    else if !Configured(apiUrl) then SingleResult(DefaultStatus(Unknown, "API not configured"), None, false)
    else match reply
      case ConnectionFailed => SingleResult(DefaultStatus(Unavailable, "Connection failed"), None, true)
      case Threw => SingleResult(DefaultStatus(Unavailable, "Status unavailable"), None, true)
      case Responded(ok, jobs) =>
        if !ok then SingleResult(DefaultStatus(Unavailable, "Status unavailable"), None, true)
        else match FirstWhere(jobs, id)
          case Some(k) => SingleResult(FromJob(jobs[k]), Some(FromJob(jobs[k])), true)
          case None => SingleResult(DefaultStatus(Pending, "No automation job found"), None, true)
  }

  /**
   * The four answers of an uncached single lookup that find no record: not
   * configured, a connection failure, any other failure, and no job for the
   * email. None of them is cached.
   */
  lemma SingleDefaults(cache: map<int, AutomationStatus>, id: int, apiUrl: Option<string>, reply: JobsReply)
    requires id !in cache
    ensures var r := SingleSpec(cache, id, apiUrl, reply);
      !Configured(apiUrl) ==> r == SingleResult(DefaultStatus(Unknown, "API not configured"), None, false)
    ensures var r := SingleSpec(cache, id, apiUrl, reply);
      Configured(apiUrl) && reply == ConnectionFailed ==>
        r == SingleResult(DefaultStatus(Unavailable, "Connection failed"), None, true)
    ensures var r := SingleSpec(cache, id, apiUrl, reply);
      Configured(apiUrl) && (reply == Threw || (reply.Responded? && !reply.successful)) ==>
        r == SingleResult(DefaultStatus(Unavailable, "Status unavailable"), None, true)
    ensures var r := SingleSpec(cache, id, apiUrl, reply);
      Configured(apiUrl) && reply.Responded? && reply.successful && FirstWhere(reply.jobs, id).None? ==>
        r == SingleResult(DefaultStatus(Pending, "No automation job found"), None, true)
  {
  }

  /** The ids of a batch, as a set. */
  function IdsOf(ids: seq<int>): set<int>
  {
    set id | id in ids
  }

  /** The ids of a batch that are not in the cache, as a set. */
  function MissedIds(cache: map<int, AutomationStatus>, ids: seq<int>): set<int>
  {
    set id | id in ids && id !in cache
  }

  /** The records the first loop takes from the cache. */
  function CachedPart(cache: map<int, AutomationStatus>, ids: seq<int>): map<int, AutomationStatus>
  {
    map id | id in ids && id in cache :: cache[id]
  }

  /** The same default for every id of a set. */
  function AllDefault(miss: set<int>, d: AutomationStatus): map<int, AutomationStatus>
  {
    map id | id in miss :: d
  }

  /** The records the batch reports for the missed ids once the job list arrived. */
  function Fetched(miss: set<int>, jobs: seq<Job>): map<int, AutomationStatus>
  {
    map id | id in miss :: BatchEntry(jobs, id)
  }

  /** The records the batch writes to the cache: those of the missed ids that have a job. */
  function FetchedPuts(miss: set<int>, jobs: seq<Job>): (m: map<int, AutomationStatus>)
    ensures forall id :: id in m <==> id in miss && LastWhere(jobs, id).Some?
    ensures forall id :: id in m ==> m[id] == FromJob(jobs[LastWhere(jobs, id).value])
  {
    map id | id in miss && id in KeyedBy(jobs) :: FromJob(KeyedBy(jobs)[id])
  }

  /** What a batch lookup reports, what it caches, and whether it made the request. */
  datatype BatchResult = BatchResult(results: map<int, AutomationStatus>, puts: map<int, AutomationStatus>, requested: bool)

  /** getBatchAutomationStatus over the cache contents and the request's outcome. */
  function BatchSpec(cache: map<int, AutomationStatus>, ids: seq<int>, apiUrl: Option<string>, reply: JobsReply): (b: BatchResult)
    ensures b.results.Keys == IdsOf(ids)
    ensures forall id :: id in ids && id in cache ==> b.results[id] == cache[id]
    ensures b.requested <==> MissedIds(cache, ids) != {} && Configured(apiUrl)
    ensures forall id :: id in b.puts ==> id in ids && id !in cache && b.results[id] == b.puts[id]
    ensures b.puts != map[] ==> reply.Responded? && reply.successful
  {
    var hits := CachedPart(cache, ids);
    var miss := MissedIds(cache, ids);
    assert forall id :: id in ids && id !in cache ==> id in miss;
    if miss == {} then BatchResult(hits, map[], false)
    else if !Configured(apiUrl) then BatchResult(hits + AllDefault(miss, DefaultStatus(Unknown, "API not configured")), map[], false)
    else if reply.Responded? && reply.successful then
      BatchResult(hits + Fetched(miss, reply.jobs), FetchedPuts(miss, reply.jobs), true)
    else BatchResult(hits + AllDefault(miss, DefaultStatus(Unavailable, "Status unavailable")), map[], true)
  }

  /** An empty batch reports nothing and makes no request. */
  lemma EmptyBatch(cache: map<int, AutomationStatus>, apiUrl: Option<string>, reply: JobsReply)
    ensures BatchSpec(cache, [], apiUrl, reply) == BatchResult(map[], map[], false)
  {
    assert CachedPart(cache, []) == map[];
  }

  /**
   * The record a batch reports for an email missing from the cache: the last
   * job listed for it (cached), pending when there is none (not cached), or
   * the default of the failure that stopped the request.
   */
  lemma BatchMissedEntry(cache: map<int, AutomationStatus>, ids: seq<int>, apiUrl: Option<string>, reply: JobsReply, id: int)
    requires id in ids && id !in cache
    ensures var b := BatchSpec(cache, ids, apiUrl, reply);
      && (!Configured(apiUrl) ==> b.results[id] == DefaultStatus(Unknown, "API not configured"))
      && (Configured(apiUrl) && !(reply.Responded? && reply.successful) ==>
            b.results[id] == DefaultStatus(Unavailable, "Status unavailable"))
      && (Configured(apiUrl) && reply.Responded? && reply.successful ==>
            && b.results[id] == BatchEntry(reply.jobs, id)
            && (id in b.puts <==> LastWhere(reply.jobs, id).Some?))
  {
    assert id in MissedIds(cache, ids);
  }

  /**
   * The single and the batch lookup agree on one uncached email as long as
   * the job list has at most one job for it and the failure is not a
   * connection error (which the batch reports as "Status unavailable").
   */
  lemma SingleAgreesWithBatch(cache: map<int, AutomationStatus>, id: int, apiUrl: Option<string>, reply: JobsReply)
    requires id !in cache
    requires reply != ConnectionFailed
    requires reply.Responded? ==> FirstWhere(reply.jobs, id) == LastWhere(reply.jobs, id)
    ensures BatchSpec(cache, [id], apiUrl, reply).results[id] == SingleSpec(cache, id, apiUrl, reply).status
    ensures BatchSpec(cache, [id], apiUrl, reply).requested == SingleSpec(cache, id, apiUrl, reply).requested
  {
    assert id in MissedIds(cache, [id]);
    BatchMissedEntry(cache, [id], apiUrl, reply, id);
  }

  /** With two jobs for one email the single lookup reports the first and the batch the last. */
  lemma FirstAndLastJobDisagree(cache: map<int, AutomationStatus>, apiUrl: Option<string>, jobs: seq<Job>)
    requires 7 !in cache && Configured(apiUrl)
    requires jobs == [Job(7, Some("pending"), None, None, None), Job(7, Some("running"), None, None, None)]
    ensures SingleSpec(cache, 7, apiUrl, Responded(true, jobs)).status.status == Pending
    ensures BatchSpec(cache, [7], apiUrl, Responded(true, jobs)).results[7].status == Processing
  {
    assert FirstWhere(jobs, 7) == Some(0);
    assert LastWhere(jobs, 7) == Some(1);
    BatchMissedEntry(cache, [7], apiUrl, Responded(true, jobs), 7);
  }

  /** The status cache ("unsubscribe_automation_{id}"), keyed by email id; expiry is not modelled. */
  class AutomationCache {
    var entries: map<int, AutomationStatus>

    constructor ()
      ensures entries == map[]
    {
      entries := map[];
    }

    method Put(id: int, s: AutomationStatus)
      modifies this
      ensures entries == old(entries)[id := s]
    {
      entries := entries[id := s];
    }

    /** clearCache: only that email's entry goes. */
    method ClearCache(id: int)
      modifies this
      ensures entries == old(entries) - {id}
      ensures forall k :: k in old(entries) && k != id ==> k in entries && entries[k] == old(entries)[k]
    {
      entries := entries - {id};
    }
  }

  /** getAutomationStatus. */
  method GetAutomationStatus(cache: AutomationCache, id: int, apiUrl: Option<string>, reply: JobsReply)
    returns (status: AutomationStatus, requested: bool)
    modifies cache
    ensures var r := SingleSpec(old(cache.entries), id, apiUrl, reply);
      && status == r.status && requested == r.requested
      && cache.entries == (if r.put.Some? then old(cache.entries)[id := r.put.value] else old(cache.entries))
  {
    if id in cache.entries {
      return cache.entries[id], false;
    }
    if !Configured(apiUrl) {
      return DefaultStatus(Unknown, "API not configured"), false;
    }
    requested := true;
    match reply
    case ConnectionFailed =>
      status := DefaultStatus(Unavailable, "Connection failed");
    case Threw =>
      status := DefaultStatus(Unavailable, "Status unavailable");
    case Responded(ok, jobs) =>
      if !ok {
        status := DefaultStatus(Unavailable, "Status unavailable");
      } else {
        var k := FirstWhere(jobs, id);
        if k.Some? {
          status := FromJob(jobs[k.value]);
          cache.Put(id, status);
        } else {
          status := DefaultStatus(Pending, "No automation job found");
        }
      }
  }

  /** The first loop: split the batch into cached records and the ids to fetch, in order. */
  method SplitCached(cache: map<int, AutomationStatus>, ids: seq<int>)
    returns (results: map<int, AutomationStatus>, uncached: seq<int>)
    ensures results == CachedPart(cache, ids)
    ensures IdsOf(uncached) == MissedIds(cache, ids)
  {
    results, uncached := map[], [];
    for i := 0 to |ids|
      invariant results == CachedPart(cache, ids[..i])
      invariant IdsOf(uncached) == MissedIds(cache, ids[..i])
    {
      assert ids[..i + 1] == ids[..i] + [ids[i]];
      if ids[i] in cache {
        results := results[ids[i] := cache[ids[i]]];
      } else {
        assert IdsOf(uncached + [ids[i]]) == IdsOf(uncached) + {ids[i]};
        uncached := uncached + [ids[i]];
      }
    }
    assert ids[..|ids|] == ids;
  }

  lemma AllDefaultStep(results: map<int, AutomationStatus>, done: seq<int>, id: int, d: AutomationStatus)
    ensures results + AllDefault(IdsOf(done + [id]), d) == (results + AllDefault(IdsOf(done), d))[id := d]
  {
    assert IdsOf(done + [id]) == IdsOf(done) + {id};
  }

  lemma FetchedStep(results: map<int, AutomationStatus>, done: seq<int>, id: int, jobs: seq<Job>)
    ensures results + Fetched(IdsOf(done + [id]), jobs) == (results + Fetched(IdsOf(done), jobs))[id := BatchEntry(jobs, id)]
  {
    assert IdsOf(done + [id]) == IdsOf(done) + {id};
  }

  lemma PutsStep(entries: map<int, AutomationStatus>, done: seq<int>, id: int, jobs: seq<Job>)
    ensures var before := entries + FetchedPuts(IdsOf(done), jobs);
      entries + FetchedPuts(IdsOf(done + [id]), jobs)
        == if id in KeyedBy(jobs) then before[id := FromJob(KeyedBy(jobs)[id])] else before
  {
    assert IdsOf(done + [id]) == IdsOf(done) + {id};
  }

  /** A loop writing the same default for every listed id. */
  method FillDefaults(results: map<int, AutomationStatus>, ids: seq<int>, d: AutomationStatus)
    returns (r: map<int, AutomationStatus>)
    ensures r == results + AllDefault(IdsOf(ids), d)
  {
    r := results;
    for j := 0 to |ids|
      invariant r == results + AllDefault(IdsOf(ids[..j]), d)
    {
      AllDefaultStep(results, ids[..j], ids[j], d);
      assert ids[..j + 1] == ids[..j] + [ids[j]];
      r := r[ids[j] := d];
    }
    assert ids[..|ids|] == ids;
  }

  /** The success loop: report and cache each id that has a job, report pending for the others. */
  method FillFetched(cache: AutomationCache, results: map<int, AutomationStatus>, ids: seq<int>, jobs: seq<Job>)
    returns (r: map<int, AutomationStatus>)
    modifies cache
    ensures r == results + Fetched(IdsOf(ids), jobs)
    ensures cache.entries == old(cache.entries) + FetchedPuts(IdsOf(ids), jobs)
  {
    var jobMap := KeyedBy(jobs);
    r := results;
    for j := 0 to |ids|
      invariant r == results + Fetched(IdsOf(ids[..j]), jobs)
      invariant cache.entries == old(cache.entries) + FetchedPuts(IdsOf(ids[..j]), jobs)
    {
      assert ids[..j + 1] == ids[..j] + [ids[j]];
      FetchedStep(results, ids[..j], ids[j], jobs);
      PutsStep(old(cache.entries), ids[..j], ids[j], jobs);
      var id := ids[j];
      if id in jobMap {
        var s := FromJob(jobMap[id]);
        cache.Put(id, s);
        r := r[id := s];
      } else {
        r := r[id := DefaultStatus(Pending, "No automation job found")];
      }
    }
    assert ids[..|ids|] == ids;
  }

  /** getBatchAutomationStatus. */
  method GetBatchAutomationStatus(cache: AutomationCache, ids: seq<int>, apiUrl: Option<string>, reply: JobsReply)
    returns (results: map<int, AutomationStatus>, requested: bool)
    modifies cache
    ensures var b := BatchSpec(old(cache.entries), ids, apiUrl, reply);
      && results == b.results && requested == b.requested
      && cache.entries == old(cache.entries) + b.puts
  {
    if ids == [] {
      assert CachedPart(cache.entries, ids) == map[];
      return map[], false;
    }
    var uncached;
    results, uncached := SplitCached(cache.entries, ids);
    if uncached == [] {
      return results, false;
    }
    assert uncached[0] in MissedIds(cache.entries, ids);
    if !Configured(apiUrl) {
      results := FillDefaults(results, uncached, DefaultStatus(Unknown, "API not configured"));
      return results, false;
    }
    requested := true;
    if reply.Responded? && reply.successful {
      results := FillFetched(cache, results, uncached, reply.jobs);
    } else {
      results := FillDefaults(results, uncached, DefaultStatus(Unavailable, "Status unavailable"));
    }
  }
}

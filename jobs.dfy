/**
 * The enrichment job table (`ai_content_jobs`) and the idempotent enqueue
 * endpoint that adds pending jobs to it.
 */
module Jobs {
  import opened Wrappers
  import opened Text
  import opened JsonValue
  import opened JobTypes

  /** A job's status column. */
  datatype Status = Pending | Processing | AwaitingReview | Approved | Rejected | Failed | Completed

  /** The status as the database stores it. */
  function StatusName(s: Status): string {
    match s
    case Pending => "pending"
    case Processing => "processing"
    case AwaitingReview => "awaiting_review"
    case Approved => "approved"
    case Rejected => "rejected"
    case Failed => "failed"
    case Completed => "completed"
  }

  /** Distinct statuses have distinct names. */
  lemma StatusNameInjective(s: Status, t: Status)
    requires s != t
    ensures StatusName(s) != StatusName(t)
  {
  }

  /** A row of the job table; timestamps are instants, `null` JSON columns are `JNull`. */
  datatype Job = Job(
    id: string,
    pubId: string,
    jobType: string,
    status: Status,
    payload: Json,
    output: Json,
    error: Json,
    createdAt: int,
    updatedAt: int,
    completedAt: Option<int>)

  /** The optional columns an update sets besides `status` and `updated_at`. */
  datatype Extra = Extra(error: Option<Json>, output: Option<Json>, completedAt: Option<int>)

  /** A row after an update: the status, the stamp and whatever `extra` names. */
  function Updated(j: Job, status: Status, extra: Extra, now: int): (r: Job)
    ensures r.id == j.id && r.pubId == j.pubId && r.jobType == j.jobType
    ensures r.payload == j.payload && r.createdAt == j.createdAt
    ensures r.status == status && r.updatedAt == now
    ensures r.error == extra.error.GetOr(j.error) && r.output == extra.output.GetOr(j.output)
    ensures r.completedAt == if extra.completedAt.Some? then extra.completedAt else j.completedAt
  {
    j.(status := status, updatedAt := now,
       error := extra.error.GetOr(j.error), output := extra.output.GetOr(j.output),
       completedAt := if extra.completedAt.Some? then extra.completedAt else j.completedAt)
  }

  /** `update(...).eq("id", id)`: every row with the id is updated, whatever its status. */
  function ApplyUpdate(jobs: seq<Job>, id: string, status: Status, extra: Extra, now: int): (r: seq<Job>)
    ensures |r| == |jobs|
    ensures forall k :: 0 <= k < |jobs| && jobs[k].id == id ==> r[k] == Updated(jobs[k], status, extra, now)
    ensures forall k :: 0 <= k < |jobs| && jobs[k].id != id ==> r[k] == jobs[k]
  {
    seq(|jobs|, k requires 0 <= k < |jobs| => if jobs[k].id == id then Updated(jobs[k], status, extra, now) else jobs[k])
  }

  /** The ids of the table. */
  function Ids(jobs: seq<Job>): (ids: seq<string>)
    ensures |ids| == |jobs| && forall k :: 0 <= k < |jobs| ==> ids[k] == jobs[k].id
  {
    seq(|jobs|, k requires 0 <= k < |jobs| => jobs[k].id)
  }

  /** An update keeps every row's identity and creation columns. */
  lemma UpdateKeepsIds(jobs: seq<Job>, id: string, status: Status, extra: Extra, now: int)
    ensures Ids(ApplyUpdate(jobs, id, status, extra, now)) == Ids(jobs)
    ensures forall k :: 0 <= k < |jobs| ==>
      ApplyUpdate(jobs, id, status, extra, now)[k].pubId == jobs[k].pubId
      && ApplyUpdate(jobs, id, status, extra, now)[k].jobType == jobs[k].jobType
  {
  }

  /** The status update has no guard: any status, final ones included, can be overwritten. */
  lemma UpdateIgnoresStatus(j: Job, status: Status, extra: Extra, now: int)
    ensures ApplyUpdate([j], j.id, status, extra, now) == [Updated(j, status, extra, now)]
    ensures ApplyUpdate([j], j.id, status, extra, now)[0].status == status
  {
  }

  /** The job ids are distinct and every job type is one of the six. */
  predicate WellFormed(jobs: seq<Job>) {
    (forall i, j :: 0 <= i < j < |jobs| ==> jobs[i].id != jobs[j].id)
    && forall k :: 0 <= k < |jobs| ==> jobs[k].jobType in JobTypeNames
  }

  // ---------------------------------------------------------------------------
  // The request

  predicate IsHexDigit(c: char) {
    ('0' <= c <= '9') || ('a' <= c <= 'f') || ('A' <= c <= 'F')
  }

  /** The layout `z.string().uuid()` checks: 8-4-4-4-12 hexadecimal digits separated by hyphens. */
  predicate IsUuid(s: string) {
    |s| == 36
    && forall k :: 0 <= k < 36 ==> if k == 8 || k == 13 || k == 18 || k == 23 then s[k] == '-' else IsHexDigit(s[k])
  }

  /** A request that passed the schema: a UUID `pubId` and, when present, a string `jobType`. */
  datatype EnqueueRequest = EnqueueRequest(pubId: string, jobType: Option<string>)

  /**
   * `RequestSchema.safeParse(body)`: the body must be an object whose `pubId`
   * is a UUID string and whose `jobType` is absent or a string (`null` is
   * rejected).
   */
  function ParseRequest(body: Json): (r: Option<EnqueueRequest>)
    ensures r.Some? <==> (body.JObj? && Get(body, "pubId").Some? && Get(body, "pubId").value.JStr?
                          && IsUuid(Get(body, "pubId").value.s)
                          && (Get(body, "jobType").None? || Get(body, "jobType").value.JStr?))
    ensures r.Some? ==> Get(body, "pubId") == Some(JStr(r.value.pubId)) && IsUuid(r.value.pubId)
    ensures r.Some? ==> (r.value.jobType.None? <==> Get(body, "jobType").None?)
    ensures r.Some? && r.value.jobType.Some? ==> Get(body, "jobType") == Some(JStr(r.value.jobType.value))
  {
    var pubId := Get(body, "pubId");
    var jobType := Get(body, "jobType");
    if !body.JObj? || pubId.None? || !pubId.value.JStr? || !IsUuid(pubId.value.s) then None
    else if jobType.None? then Some(EnqueueRequest(pubId.value.s, None))
    else if jobType.value.JStr? then Some(EnqueueRequest(pubId.value.s, Some(jobType.value.s)))
    else None
  }

  /** `coerceJobType(parsed.data.jobType)`. */
  function RequestedType(req: EnqueueRequest): (t: string)
    ensures t in JobTypeNames
  {
    CoerceJobType(if req.jobType.Some? then Some(JStr(req.jobType.value)) else None, DefaultJobType)
  }

  /** The pending jobs for a pub and job type, in table order. */
  function PendingMatches(jobs: seq<Job>, pubId: string, jobType: string): (r: seq<Job>)
    ensures forall j :: j in r <==> j in jobs && j.pubId == pubId && j.jobType == jobType && j.status == Pending
    ensures |r| <= |jobs|
  {
    if jobs == [] then []
    else
      var rest := PendingMatches(jobs[1..], pubId, jobType);
      assert forall j :: j in jobs <==> j == jobs[0] || j in jobs[1..];
      if jobs[0].pubId == pubId && jobs[0].jobType == jobType && jobs[0].status == Pending then [jobs[0]] + rest else rest
  }

  /**
   * `.maybeSingle()` on the lookup: the id when exactly one row matches; no
   * data when none does, when several do (an error the route ignores) or when
   * the lookup itself fails.
   */
  function ExistingPending(jobs: seq<Job>, pubId: string, jobType: string, lookupFails: bool): (r: Option<string>)
    ensures r.Some? ==> exists j :: j in jobs && j.id == r.value && j.pubId == pubId && j.jobType == jobType && j.status == Pending
  {
    var matches := PendingMatches(jobs, pubId, jobType);
    if !lookupFails && |matches| == 1 then
      assert matches[0] in matches;
      Some(matches[0].id)
    else None
  }

  /** The row the insert adds: pending, with a `null` payload and no output yet. */
  function NewJob(id: string, pubId: string, jobType: string, now: int): Job {
    Job(id, pubId, jobType, Pending, JNull, JNull, JNull, now, now, None)
  }

  /** The route's reply. */
  datatype EnqueueReply =
    | BadRequest
    | AlreadyQueued(id: string)
    | Queued(id: string)
    | ServerError(message: string)

  /** The HTTP status of a reply. */
  function HttpStatus(reply: EnqueueReply): int {
    match reply
    case BadRequest => 400
    case AlreadyQueued(_) => 200
    case Queued(_) => 201
    case ServerError(_) => 500
  }

  /** The JSON body of a success reply: `{success: true, id, status: "pending"}`. */
  function SuccessBody(id: string): (v: Json)
    ensures Get(v, "status") == Some(JStr("pending")) && Get(v, "id") == Some(JStr(id))
  {
    var fields := [("success", JBool(true)), ("id", JStr(id)), ("status", JStr("pending"))];
    assert fields[..2][..1] == [fields[0]] && fields[..2][1] == fields[1];
    JObj(fields)
  }

  /**
   * What a POST does to the table and replies, given the parsed request body
   * (an `Err` when `request.json()` throws), the id the database assigns, whether
   * the lookup fails and the insert's error.
   */
  function EnqueueNext(jobs: seq<Job>, body: Result<Json>, newId: string, now: int,
                       lookupFails: bool, insertError: Option<string>): (seq<Job>, EnqueueReply)
  {
    if body.Err? then (jobs, ServerError(body.message))
    else
      var req := ParseRequest(body.value);
      if req.None? then (jobs, BadRequest)
      else
        var jobType := RequestedType(req.value);
        var existing := ExistingPending(jobs, req.value.pubId, jobType, lookupFails);
        if existing.Some? then (jobs, AlreadyQueued(existing.value))
        else if insertError.Some? then (jobs, ServerError(insertError.value))
        else (jobs + [NewJob(newId, req.value.pubId, jobType, now)], Queued(newId))
  }

  /** The job table the route reads and writes. */
  class JobQueue {
    var jobs: seq<Job>

    constructor (initial: seq<Job>)
      ensures jobs == initial
    {
      jobs := initial;
    }

    /**
     * `POST /api/ai/enqueue`: a malformed request gives 400 and writes nothing;
     * an existing pending job for the pub and coerced job type is returned
     * without a write; otherwise one pending job is inserted (201), or the insert
     * error is returned (500).
     */
    method Enqueue(body: Result<Json>, newId: string, now: int, lookupFails: bool, insertError: Option<string>)
      returns (reply: EnqueueReply)
      requires WellFormed(jobs)
      requires forall k :: 0 <= k < |jobs| ==> jobs[k].id != newId
      modifies this
      ensures (jobs, reply) == EnqueueNext(old(jobs), body, newId, now, lookupFails, insertError)
      ensures WellFormed(jobs)
    {
      if body.Err? {
        return ServerError(body.message);
      }
      var req := ParseRequest(body.value);
      if req.None? {
        return BadRequest;
      }
      var jobType := RequestedType(req.value);
      var matches := PendingMatches(jobs, req.value.pubId, jobType);
      if !lookupFails && |matches| == 1 {
        return AlreadyQueued(matches[0].id);
      }
      if insertError.Some? {
        return ServerError(insertError.value);
      }
      jobs := jobs + [NewJob(newId, req.value.pubId, jobType, now)];
      reply := Queued(newId);
    }
  }

  // ---------------------------------------------------------------------------
  // Properties of the enqueue route

  /** A body that fails the schema gives 400 and leaves the table as it was. */
  lemma BadRequestWritesNothing(jobs: seq<Job>, body: Json, newId: string, now: int, lookupFails: bool, insertError: Option<string>)
    requires ParseRequest(body).None?
    ensures EnqueueNext(jobs, Ok(body), newId, now, lookupFails, insertError) == (jobs, BadRequest)
    ensures HttpStatus(BadRequest) == 400
  {
  }

  /** A `pubId` that is not a UUID string is a bad request. */
  lemma NonUuidRejected(body: Json)
    requires Get(body, "pubId").None? || !Get(body, "pubId").value.JStr? || !IsUuid(Get(body, "pubId").value.s)
    ensures ParseRequest(body).None?
  {
  }

  /** A missing or unknown job type is queued as `full_enrichment`. */
  lemma DefaultTypeQueued(pubId: string, jobType: Option<string>)
    requires jobType.None? || jobType.value !in JobTypeNames
    ensures RequestedType(EnqueueRequest(pubId, jobType)) == "full_enrichment"
  {
  }

  /** Every reply and table change the route can produce, by case. */
  lemma EnqueueOutcomes(jobs: seq<Job>, body: Result<Json>, newId: string, now: int, lookupFails: bool, insertError: Option<string>)
    ensures var (after, reply) := EnqueueNext(jobs, body, newId, now, lookupFails, insertError);
      (reply.Queued? ==> (reply.id == newId && |after| == |jobs| + 1
                          && after == jobs + [NewJob(newId, after[|jobs|].pubId, after[|jobs|].jobType, now)]
                          && after[|jobs|].status == Pending && after[|jobs|].payload == JNull
                          && after[|jobs|].jobType in JobTypeNames))
      && (!reply.Queued? ==> after == jobs)
      && (reply.ServerError? <==> body.Err? || (HttpStatus(reply) != 400 && !reply.AlreadyQueued? && insertError.Some?))
  {
  }

  /** An existing pending job for the same pub and job type is returned, and nothing is inserted. */
  lemma ExistingReturned(jobs: seq<Job>, existing: Job, body: Json, newId: string, now: int, insertError: Option<string>)
    requires ParseRequest(body).Some?
    requires PendingMatches(jobs, ParseRequest(body).value.pubId, RequestedType(ParseRequest(body).value)) == [existing]
    ensures EnqueueNext(jobs, Ok(body), newId, now, false, insertError) == (jobs, AlreadyQueued(existing.id))
  {
  }

  /**
   * Enqueueing is idempotent: after a request inserted a job, the same request
   * returns that job's id and inserts nothing (when its lookup succeeds).
   */
  lemma EnqueueIdempotent(jobs: seq<Job>, body: Json, id1: string, id2: string, t1: int, t2: int, e2: Option<string>)
    requires ParseRequest(body).Some?
    requires PendingMatches(jobs, ParseRequest(body).value.pubId, RequestedType(ParseRequest(body).value)) == []
    ensures var (after, reply) := EnqueueNext(jobs, Ok(body), id1, t1, false, None);
      reply == Queued(id1) && EnqueueNext(after, Ok(body), id2, t2, false, e2) == (after, AlreadyQueued(id1))
  {
    var req := ParseRequest(body).value;
    var t := RequestedType(req);
    var after := jobs + [NewJob(id1, req.pubId, t, t1)];
    PendingMatchesAppend(jobs, NewJob(id1, req.pubId, t, t1), req.pubId, t);
  }

  lemma {:induction false} PendingMatchesAppend(jobs: seq<Job>, j: Job, pubId: string, jobType: string)
    ensures PendingMatches(jobs + [j], pubId, jobType)
      == PendingMatches(jobs, pubId, jobType) + (if j.pubId == pubId && j.jobType == jobType && j.status == Pending then [j] else [])
  {
    if jobs == [] {
      assert [j][1..] == [];
    } else {
      assert (jobs + [j])[1..] == jobs[1..] + [j];
      PendingMatchesAppend(jobs[1..], j, pubId, jobType);
    }
  }

  /** At most one pending job per pub and job type. */
  ghost predicate NoDuplicatePending(jobs: seq<Job>) {
    forall pubId, jobType :: |PendingMatches(jobs, pubId, jobType)| <= 1
  }

  /** While lookups succeed, the route never creates a second pending job for a pub and job type. */
  lemma EnqueueKeepsNoDuplicate(jobs: seq<Job>, body: Result<Json>, newId: string, now: int, insertError: Option<string>)
    requires NoDuplicatePending(jobs)
    ensures NoDuplicatePending(EnqueueNext(jobs, body, newId, now, false, insertError).0)
  {
    var (after, reply) := EnqueueNext(jobs, body, newId, now, false, insertError);
    if reply.Queued? {
      var req := ParseRequest(body.value).value;
      var t := RequestedType(req);
      var j := NewJob(newId, req.pubId, t, now);
      forall pubId, jobType ensures |PendingMatches(after, pubId, jobType)| <= 1 {
        PendingMatchesAppend(jobs, j, pubId, jobType);
        if pubId == req.pubId && jobType == t {
          assert |PendingMatches(jobs, pubId, jobType)| != 1;
        }
      }
    }
  }

  /** A failed lookup makes the route insert a second pending job for the same pub and job type. */
  lemma FailedLookupDuplicates(existing: Job, body: Json, newId: string, now: int)
    requires ParseRequest(body).Some?
    requires existing.status == Pending && existing.pubId == ParseRequest(body).value.pubId
    requires existing.jobType == RequestedType(ParseRequest(body).value)
    ensures var (after, reply) := EnqueueNext([existing], Ok(body), newId, now, true, None);
      reply == Queued(newId) && |PendingMatches(after, existing.pubId, existing.jobType)| == 2
  {
    var t := RequestedType(ParseRequest(body).value);
    PendingMatchesAppend([existing], NewJob(newId, existing.pubId, t, now), existing.pubId, t);
    assert PendingMatches([existing], existing.pubId, t) == [existing] by {
      assert [existing][1..] == [];
    }
  }
}

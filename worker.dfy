/**
 * The enrichment worker: it fetches the oldest pending jobs, and for each one
 * marks it processing, loads the pub, runs the generator the job type names
 * and marks the job awaiting review with the generated output, or failed with
 * the error's message. An error outside a job's own error handling stops the
 * whole run.
 */
module Worker {
  import opened Wrappers
  import opened Text
  import opened JsonValue
  import opened ValueCodec
  import opened Sorting
  import opened Jobs
  import opened Queries

  // ---------------------------------------------------------------------------
  // Fetching the batch

  /** `Number(process.env.AI_BATCH_LIMIT ?? "5")`; `None` is NaN. */
  function BatchLimit(env: Option<string>): Option<real> {
    JsNumber(env.GetOr("5"))
  }

  /** Without the variable the batch limit is 5. */
  lemma BatchLimitDefault()
    ensures BatchLimit(None) == Some(5.0)
  {
    assert NatToString(5) == "5";
    JsNumberOfDigits(5);
  }

  /** The jobs whose status is pending, in table order. */
  function PendingJobs(jobs: seq<Job>): (r: seq<Job>)
    ensures forall j :: j in r <==> j in jobs && j.status == Pending
    ensures |r| <= |jobs|
  {
    if jobs == [] then []
    else
      var rest := PendingJobs(jobs[1..]);
      assert forall j :: j in jobs <==> j == jobs[0] || j in jobs[1..];
      if jobs[0].status == Pending then [jobs[0]] + rest else rest
  }

  function CreatedAt(j: Job): real {
    j.createdAt as real
  }

  /**
   * `fetchPendingJobs(limit)`: the pending jobs ordered by `created_at`
   * ascending, at most `limit` of them.
   */
  function PendingBatch(jobs: seq<Job>, limit: nat): (batch: seq<Job>)
    ensures |batch| == if limit < |PendingJobs(jobs)| then limit else |PendingJobs(jobs)|
    ensures forall j :: j in batch ==> j in jobs && j.status == Pending
    ensures SortedBy(batch, CreatedAt)
  {
    var sorted := SortBy(PendingJobs(jobs), CreatedAt);
    var batch := sorted[..if limit < |sorted| then limit else |sorted|];
    forall j | j in batch ensures j in jobs && j.status == Pending {
      assert j in sorted;
      assert j in multiset(sorted);
      assert j in PendingJobs(jobs);
    }
    batch
  }

  /** A pending job left out of the batch was created no earlier than any job in it. */
  lemma OldestFirst(jobs: seq<Job>, limit: nat, left: Job)
    requires left in jobs && left.status == Pending && left !in PendingBatch(jobs, limit)
    ensures forall b :: b in PendingBatch(jobs, limit) ==> b.createdAt <= left.createdAt
  {
    var sorted := SortBy(PendingJobs(jobs), CreatedAt);
    var n := if limit < |sorted| then limit else |sorted|;
    assert left in multiset(PendingJobs(jobs));
    assert left in sorted;
    if n > 0 {
      SortedPrefixBound(sorted, CreatedAt, n, left);
    }
    forall b | b in PendingBatch(jobs, limit) ensures b.createdAt <= left.createdAt {
      var i :| 0 <= i < n && sorted[..n][i] == b;
      assert sorted[i] == b;
    }
  }

  // ---------------------------------------------------------------------------
  // Status updates

  /** The error column's `{ message }` object. */
  function ErrorJson(message: string): (v: Json)
    ensures Get(v, "message") == Some(JStr(message))
  {
    JObj([("message", JStr(message))])
  }

  function FailedExtra(message: string): Extra {
    Extra(Some(ErrorJson(message)), None, None)
  }

  /** The message `markJobStatus` throws when the update fails. */
  function UpdateError(id: string, message: string): string {
    "Failed to update job " + id + ": " + message
  }

  /** `markJobStatus`: the table after the update and the error it throws, if any. */
  function Mark(jobs: seq<Job>, id: string, status: Status, extra: Extra, now: int, failure: Option<string>)
    : (r: (seq<Job>, Option<string>))
    ensures failure.Some? ==> r == (jobs, Some(UpdateError(id, failure.value)))
    ensures failure.None? ==> r == (ApplyUpdate(jobs, id, status, extra, now), None)
  {
    if failure.Some? then (jobs, Some(UpdateError(id, failure.value)))
    else (ApplyUpdate(jobs, id, status, extra, now), None)
  }

  /**
   * `markJobStatus(id, status, extra)`: updates every row with the id, stamps
   * `updated_at`, and on a database error changes nothing and returns the
   * error it throws.
   */
  method MarkJobStatus(q: JobQueue, id: string, status: Status, extra: Extra, now: int, failure: Option<string>)
    returns (thrown: Option<string>)
    modifies q
    ensures (q.jobs, thrown) == Mark(old(q.jobs), id, status, extra, now, failure)
  {
    if failure.Some? {
      return Some(UpdateError(id, failure.value));
    }
    q.jobs := ApplyUpdate(q.jobs, id, status, extra, now);
    thrown := None;
  }

  // ---------------------------------------------------------------------------
  // Generation

  /** What `fetchPubDetail` does for the job's pub. */
  datatype PubOutcome = PubFound | PubMissing | PubLoadError(message: string)

  /** A generator's reply: its validated object, if any, and what `JSON.parse(content)` gives. */
  datatype Response = Response(parsed: Option<Json>, parsedContent: Result<Json>)

  /**
   * Everything outside the table one job's processing depends on: the clock,
   * the pub lookup, the two generators and the database errors of the three
   * status updates it can make (processing, the outcome, and the one in the
   * error handler).
   */
  datatype JobEnv = JobEnv(
    now: int,
    pub: PubOutcome,
    description: Result<Response>,
    attributes: Result<Response>,
    markProcessing: Option<string>,
    markOutcome: Option<string>,
    markRecovery: Option<string>)

  /** `response.parsed ?? JSON.parse(response.content)`. */
  function ResponseValue(r: Response): (v: Result<Json>)
    ensures r.parsed.Some? && !r.parsed.value.JNull? ==> v == Ok(r.parsed.value)
    ensures (r.parsed.None? || r.parsed.value.JNull?) ==> v == r.parsedContent
  {
    if r.parsed.Some? && !r.parsed.value.JNull? then Ok(r.parsed.value) else r.parsedContent
  }

  /** The own properties object spread copies: fields of an object, indices of an array or string, none otherwise. */
  function SpreadEntries(v: Json): (r: seq<(string, Json)>)
    ensures v.JObj? ==> r == v.fields
    ensures !v.JObj? && !v.JArr? && !v.JStr? ==> r == []
  {
    match v
    case JObj(fields) => fields
    case JArr(items) => seq(|items|, k requires 0 <= k < |items| => (NatToString(k), items[k]))
    case JStr(s) => seq(|s|, k requires 0 <= k < |s| => (NatToString(k), JStr([s[k]])))
    case _ => []
  }

  /** `{ ...a, ...b }`: the own properties of `a`, then those of `b`, a later key overriding. */
  function Spread(a: Json, b: Json): (r: Json)
    ensures r.JObj? && UniqueKeys(r.fields)
  {
    JObj(FromEntries(SpreadEntries(a) + SpreadEntries(b)))
  }

  /**
   * The `result` the try block builds for a job type: `None` for a type
   * without a generator, an `Err` for the error a generator or a parse throws.
   * For `full_enrichment` both generators run; when both fail, the description's
   * error is the one reported.
   */
  function GenerationResult(jobType: string, env: JobEnv): (r: Option<Result<Json>>)
    ensures r.None? <==> jobType != "description" && jobType != "attributes" && jobType != "full_enrichment"
  {
    if jobType == "description" || jobType == "attributes" then
      var resp := if jobType == "description" then env.description else env.attributes;
      if resp.Err? then Some(Err(resp.message))
      else
        var parsed := ResponseValue(resp.value);
        if parsed.Err? then Some(parsed) else Some(Ok(Spread(JObj([]), parsed.value)))
    else if jobType == "full_enrichment" then
      if env.description.Err? then Some(Err(env.description.message))
      else if env.attributes.Err? then Some(Err(env.attributes.message))
      else
        var d := ResponseValue(env.description.value);
        if d.Err? then Some(d)
        else
          var a := ResponseValue(env.attributes.value);
          if a.Err? then Some(a) else Some(Ok(Spread(d.value, a.value)))
    else None
  }

  // ---------------------------------------------------------------------------
  // Processing one job

  /**
   * The try block of `processJob`: the outcome update, or the error it throws.
   * `JSON.parse(JSON.stringify(result))` gives back `result`.
   */
  function TryBlock(jobs: seq<Job>, job: Job, env: JobEnv): (seq<Job>, Option<string>) {
    var g := GenerationResult(job.jobType, env);
    if g.None? then
      Mark(jobs, job.id, Failed, FailedExtra("Unsupported job_type: " + job.jobType), env.now, env.markOutcome)
    else if g.value.Err? then (jobs, Some(g.value.message))
    else Mark(jobs, job.id, AwaitingReview, Extra(None, Some(g.value.value), Some(env.now)), env.now, env.markOutcome)
  }

  /** `processJob(job)`: the table afterwards and the error that escapes it, if any. */
  function ProcessNext(jobs: seq<Job>, job: Job, env: JobEnv): (seq<Job>, Option<string>) {
    var (started, e1) := Mark(jobs, job.id, Processing, Extra(Some(JNull), None, None), env.now, env.markProcessing);
    if e1.Some? then (started, e1)
    else
      match env.pub
      case PubLoadError(m) => (started, Some("Failed to load pub " + job.pubId + ": " + m))
      case PubMissing => Mark(started, job.id, Failed, FailedExtra("Pub not found"), env.now, env.markOutcome)
      case PubFound =>
        var (tried, thrown) := TryBlock(started, job, env);
        if thrown.None? then (tried, None)
        else Mark(tried, job.id, Failed, FailedExtra(thrown.value), env.now, env.markRecovery)
  }

  /** `processJob`, one status update at a time. */
  method ProcessJob(q: JobQueue, job: Job, env: JobEnv) returns (fatal: Option<string>)
    modifies q
    ensures (q.jobs, fatal) == ProcessNext(old(q.jobs), job, env)
  {
    fatal := MarkJobStatus(q, job.id, Processing, Extra(Some(JNull), None, None), env.now, env.markProcessing);
    if fatal.Some? {
      return;
    }
    match env.pub {
      case PubLoadError(m) =>
        return Some("Failed to load pub " + job.pubId + ": " + m);
      case PubMissing =>
        fatal := MarkJobStatus(q, job.id, Failed, FailedExtra("Pub not found"), env.now, env.markOutcome);
        return;
      case PubFound =>
    }
    var thrown: Option<string>;
    var result := GenerationResult(job.jobType, env);
    if result.None? {
      thrown := MarkJobStatus(q, job.id, Failed, FailedExtra("Unsupported job_type: " + job.jobType), env.now, env.markOutcome);
    } else if result.value.Err? {
      thrown := Some(result.value.message);
    } else {
      var output := result.value.value;
      thrown := MarkJobStatus(q, job.id, AwaitingReview, Extra(None, Some(output), Some(env.now)), env.now, env.markOutcome);
    }
    if thrown.Some? {
      fatal := MarkJobStatus(q, job.id, Failed, FailedExtra(thrown.value), env.now, env.markRecovery);
    }
  }

  // ---------------------------------------------------------------------------
  // Properties of one job

  /** The row with the job's id after processing, when there is one such row. */
  predicate RowIs(jobs: seq<Job>, id: string, p: Job -> bool) {
    forall k :: 0 <= k < |jobs| && jobs[k].id == id ==> p(jobs[k])
  }

  /** Processing touches only rows with the job's id and keeps every row's identity. */
  lemma ProcessTouchesOnlyJob(jobs: seq<Job>, job: Job, env: JobEnv)
    ensures var after := ProcessNext(jobs, job, env).0;
      Ids(after) == Ids(jobs)
      && forall k :: 0 <= k < |jobs| && jobs[k].id != job.id ==> after[k] == jobs[k]
  {
    var after := ProcessNext(jobs, job, env).0;
    var started := ApplyUpdate(jobs, job.id, Processing, Extra(Some(JNull), None, None), env.now);
    UpdateKeepsIds(jobs, job.id, Processing, Extra(Some(JNull), None, None), env.now);
    assert |after| == |jobs|;
    forall k | 0 <= k < |jobs| ensures Ids(after)[k] == Ids(jobs)[k] && (jobs[k].id != job.id ==> after[k] == jobs[k]) {
    }
  }

  /** Without an escaping error, the job's row ends awaiting review or failed. */
  lemma ProcessSettles(jobs: seq<Job>, job: Job, env: JobEnv)
    requires ProcessNext(jobs, job, env).1.None?
    ensures forall k :: 0 <= k < |jobs| && ProcessNext(jobs, job, env).0[k].id == job.id ==>
      ProcessNext(jobs, job, env).0[k].status in {AwaitingReview, Failed}
  {
    ProcessTouchesOnlyJob(jobs, job, env);
  }

  /** A job that generates successfully ends awaiting review with the result as output, a completion time and no error. */
  lemma SuccessAwaitsReview(jobs: seq<Job>, job: Job, env: JobEnv, output: Json)
    requires env.markProcessing.None? && env.markOutcome.None? && env.pub.PubFound?
    requires GenerationResult(job.jobType, env) == Some(Ok(output))
    ensures ProcessNext(jobs, job, env).1.None?
    ensures forall k :: 0 <= k < |jobs| && jobs[k].id == job.id ==>
      (ProcessNext(jobs, job, env).0[k].status == AwaitingReview
       && ProcessNext(jobs, job, env).0[k].output == output
       && ProcessNext(jobs, job, env).0[k].error == JNull
       && ProcessNext(jobs, job, env).0[k].completedAt == Some(env.now)
       && ProcessNext(jobs, job, env).0[k].updatedAt == env.now)
  {
  }

  /** A missing pub ends the job failed with "Pub not found". */
  lemma MissingPubFails(jobs: seq<Job>, job: Job, env: JobEnv)
    requires env.markProcessing.None? && env.markOutcome.None? && env.pub == PubMissing
    ensures ProcessNext(jobs, job, env).1.None?
    ensures forall k :: 0 <= k < |jobs| && jobs[k].id == job.id ==>
      (ProcessNext(jobs, job, env).0[k].status == Failed
       && ProcessNext(jobs, job, env).0[k].error == ErrorJson("Pub not found"))
  {
  }

  /** A job type without a generator (faq, schema, insight, …) ends failed with "Unsupported job_type: <type>". */
  lemma UnsupportedTypeFails(jobs: seq<Job>, job: Job, env: JobEnv)
    requires env.markProcessing.None? && env.markOutcome.None? && env.pub.PubFound?
    requires job.jobType !in ["description", "attributes", "full_enrichment"]
    ensures ProcessNext(jobs, job, env).1.None?
    ensures forall k :: 0 <= k < |jobs| && jobs[k].id == job.id ==>
      (ProcessNext(jobs, job, env).0[k].status == Failed
       && ProcessNext(jobs, job, env).0[k].error == ErrorJson("Unsupported job_type: " + job.jobType))
  {
    assert GenerationResult(job.jobType, env).None?;
  }

  /** An error thrown by a generator or a parse ends the job failed with that error's message. */
  lemma GenerationErrorFails(jobs: seq<Job>, job: Job, env: JobEnv, message: string)
    requires env.markProcessing.None? && env.markRecovery.None? && env.pub.PubFound?
    requires GenerationResult(job.jobType, env) == Some(Err(message))
    ensures ProcessNext(jobs, job, env).1.None?
    ensures forall k :: 0 <= k < |jobs| && jobs[k].id == job.id ==>
      (ProcessNext(jobs, job, env).0[k].status == Failed
       && ProcessNext(jobs, job, env).0[k].error == ErrorJson(message))
  {
  }

  /** A failed outcome update is caught: the job ends failed with the update's error. */
  lemma OutcomeUpdateErrorFails(jobs: seq<Job>, job: Job, env: JobEnv, message: string)
    requires env.markProcessing.None? && env.markRecovery.None? && env.pub.PubFound?
    requires GenerationResult(job.jobType, env).Some? && GenerationResult(job.jobType, env).value.Ok?
    requires env.markOutcome == Some(message)
    ensures ProcessNext(jobs, job, env).1.None?
    ensures forall k :: 0 <= k < |jobs| && jobs[k].id == job.id ==>
      (ProcessNext(jobs, job, env).0[k].status == Failed
       && ProcessNext(jobs, job, env).0[k].error == ErrorJson(UpdateError(job.id, message)))
  {
  }

  /** A pub that cannot be loaded escapes the job's error handling and leaves the job processing. */
  lemma PubLoadErrorLeavesProcessing(jobs: seq<Job>, job: Job, env: JobEnv, message: string)
    requires env.markProcessing.None? && env.pub == PubLoadError(message)
    ensures ProcessNext(jobs, job, env).1 == Some("Failed to load pub " + job.pubId + ": " + message)
    ensures forall k :: 0 <= k < |jobs| && jobs[k].id == job.id ==>
      (ProcessNext(jobs, job, env).0[k].status == Processing
       && ProcessNext(jobs, job, env).0[k].error == JNull)
  {
  }

  /** The error of a missing lookup: in `full_enrichment` the attribute side's keys override the description's. */
  lemma FullEnrichmentPrecedence(d: Json, a: Json, key: string)
    requires d.JObj? && a.JObj?
    ensures Lookup(Spread(d, a).fields, key) == if Lookup(a.fields, key).Some? then Lookup(a.fields, key) else Lookup(d.fields, key)
  {
    LookupFromEntries(d.fields + a.fields, key);
    LookupAppend(d.fields, a.fields, key);
  }

  /** `Object.fromEntries` finds the last value given for a key. */
  lemma {:induction false} LookupFromEntries(pairs: seq<(string, Json)>, key: string)
    ensures Lookup(FromEntries(pairs), key) == Lookup(pairs, key)
  {
    if pairs != [] {
      var init := pairs[..|pairs| - 1];
      var last := pairs[|pairs| - 1];
      LookupFromEntries(init, key);
      var r := FromEntries(init);
      if last.0 == key {
        assert Lookup(SetField(r, last.0, last.1), key) == Some(last.1);
      } else {
        LookupSetOther(r, last.0, last.1, key);
      }
    }
  }

  /** Setting one key leaves the lookup of another unchanged. */
  lemma LookupSetOther(fields: seq<(string, Json)>, k: string, v: Json, key: string)
    requires UniqueKeys(fields) && k != key
    ensures Lookup(SetField(fields, k, v), key) == Lookup(fields, key)
  {
    var r := SetField(fields, k, v);
    var i := KeyIndex(fields, k);
    if i < |fields| {
      LookupUpdateOther(fields, i, (k, v), key);
    } else {
      assert r == fields + [(k, v)];
      assert r[..|r| - 1] == fields;
    }
  }

  lemma {:induction false} LookupUpdateOther(fields: seq<(string, Json)>, i: nat, p: (string, Json), key: string)
    requires i < |fields| && fields[i].0 != key && p.0 != key
    ensures Lookup(fields[i := p], key) == Lookup(fields, key)
  {
    var r := fields[i := p];
    var n := |fields| - 1;
    if r[n].0 != key {
      if i < n {
        assert r[..n] == fields[..n][i := p];
        LookupUpdateOther(fields[..n], i, p, key);
      } else {
        assert r[..n] == fields[..n];
      }
    }
  }

  /** A lookup in a concatenation finds the right part's value first. */
  lemma {:induction false} LookupAppend(a: seq<(string, Json)>, b: seq<(string, Json)>, key: string)
    ensures Lookup(a + b, key) == if Lookup(b, key).Some? then Lookup(b, key) else Lookup(a, key)
    decreases |b|
  {
    if b == [] {
      assert a + b == a;
    } else {
      var n := |b| - 1;
      assert (a + b)[..|a + b| - 1] == a + b[..n];
      assert (a + b)[|a + b| - 1] == b[n];
      LookupAppend(a, b[..n], key);
    }
  }

  // ---------------------------------------------------------------------------
  // The run

  /** Processes the batch in order and stops at the first error that escapes a job. */
  function RunBatch(jobs: seq<Job>, batch: seq<Job>, env: string -> JobEnv): (r: (seq<Job>, Option<string>))
    ensures |r.0| == |jobs|
    decreases |batch|
  {
    if batch == [] then (jobs, None)
    else
      var (next, fatal) := ProcessNext(jobs, batch[0], env(batch[0].id));
      ProcessTouchesOnlyJob(jobs, batch[0], env(batch[0].id));
      assert |Ids(next)| == |Ids(jobs)|;
      if fatal.Some? then (next, fatal) else RunBatch(next, batch[1..], env)
  }

  /**
   * `main`: fetch the batch (a fetch error escapes at once), then process its
   * jobs one after the other; the returned error is the one that makes the
   * script exit with status 1.
   */
  method RunPendingJobs(q: JobQueue, limit: nat, fetchError: Option<string>, env: string -> JobEnv)
    returns (fatal: Option<string>)
    modifies q
    ensures fetchError.Some? ==> q.jobs == old(q.jobs) && fatal == Some("Failed to fetch pending jobs: " + fetchError.value)
    ensures fetchError.None? ==> (q.jobs, fatal) == RunBatch(old(q.jobs), PendingBatch(old(q.jobs), limit), env)
  {
    if fetchError.Some? {
      return Some("Failed to fetch pending jobs: " + fetchError.value);
    }
    var batch := PendingBatch(q.jobs, limit);
    ghost var start := q.jobs;
    fatal := None;
    var i := 0;
    while i < |batch|
      invariant 0 <= i <= |batch|
      invariant fatal.None?
      invariant RunBatch(start, batch, env) == RunBatch(q.jobs, batch[i..], env)
      decreases |batch| - i
    {
      ghost var before := q.jobs;
      assert batch[i..][0] == batch[i] && batch[i..][1..] == batch[i + 1..];
      fatal := ProcessJob(q, batch[i], env(batch[i].id));
      RunBatchStep(before, batch[i..], env, q.jobs, fatal);
      if fatal.Some? {
        return;
      }
      i := i + 1;
    }
    assert batch[i..] == [];
  }

  /** One step of the run: the first job, then the rest unless an error escaped. */
  lemma RunBatchStep(jobs: seq<Job>, batch: seq<Job>, env: string -> JobEnv, next: seq<Job>, fatal: Option<string>)
    requires batch != [] && (next, fatal) == ProcessNext(jobs, batch[0], env(batch[0].id))
    ensures fatal.Some? ==> RunBatch(jobs, batch, env) == (next, fatal)
    ensures fatal.None? ==> RunBatch(jobs, batch, env) == RunBatch(next, batch[1..], env)
  {
  }

  /** A batch that runs to the end leaves every row of its jobs awaiting review or failed, and no other row changed. */
  lemma {:induction false} RunBatchSettles(jobs: seq<Job>, batch: seq<Job>, env: string -> JobEnv)
    requires RunBatch(jobs, batch, env).1.None?
    ensures Ids(RunBatch(jobs, batch, env).0) == Ids(jobs)
    ensures forall k :: 0 <= k < |jobs| && (exists b :: b in batch && b.id == jobs[k].id) ==>
      RunBatch(jobs, batch, env).0[k].status in {AwaitingReview, Failed}
    ensures forall k :: 0 <= k < |jobs| && (forall b :: b in batch ==> b.id != jobs[k].id) ==>
      RunBatch(jobs, batch, env).0[k] == jobs[k]
    decreases |batch|
  {
    if batch != [] {
      var b0 := batch[0];
      var next := ProcessNext(jobs, b0, env(b0.id)).0;
      ProcessTouchesOnlyJob(jobs, b0, env(b0.id));
      ProcessSettles(jobs, b0, env(b0.id));
      RunBatchSettles(next, batch[1..], env);
      var after := RunBatch(jobs, batch, env).0;
      assert after == RunBatch(next, batch[1..], env).0;
      forall k | 0 <= k < |jobs| && (exists b :: b in batch && b.id == jobs[k].id)
        ensures after[k].status in {AwaitingReview, Failed}
      {
        assert Ids(next)[k] == Ids(jobs)[k];
        if !(exists b :: b in batch[1..] && b.id == jobs[k].id) {
          assert b0.id == jobs[k].id;
          assert after[k] == next[k];
        }
      }
      forall k | 0 <= k < |jobs| && (forall b :: b in batch ==> b.id != jobs[k].id)
        ensures after[k] == jobs[k]
      {
        assert b0 in batch;
        assert Ids(next)[k] == Ids(jobs)[k];
        assert forall b :: b in batch[1..] ==> b in batch;
      }
    }
  }

  /** An error escaping a job stops the run: the later jobs of the batch are not touched. */
  lemma FatalStopsRun(jobs: seq<Job>, batch: seq<Job>, env: string -> JobEnv)
    requires batch != [] && ProcessNext(jobs, batch[0], env(batch[0].id)).1.Some?
    ensures RunBatch(jobs, batch, env) == ProcessNext(jobs, batch[0], env(batch[0].id))
  {
  }

  // ---------------------------------------------------------------------------
  // The worker's own attribute decoder

  /** The worker's range separator, as the characters its source file holds where an en dash was meant. */
  const WorkerDash: string := " \U{00E2}\U{20AC}\U{201C} "

  /**
   * The value and display `fetchPubDetail` decodes from a row, by the priority
   * boolean > non-empty tags > range > rating > non-empty text > truthy
   * schedule. It never reads `int_value` and has no display fallback.
   */
  function WorkerValue(r: Row): (d: (Json, Option<string>))
    ensures IsAttributeValue(d.0)
    ensures d.1.None? <==> d.0.JNull?
  {
    if r.booleanValue.Some? then (JBool(r.booleanValue.value), Some(if r.booleanValue.value then "Yes" else "No"))
    else if r.tagsValue.Some? && |r.tagsValue.value| > 0 then (Strings(r.tagsValue.value), Some(Join(r.tagsValue.value, ", ")))
    else if r.numericMin.Some? || r.numericMax.Some? then
      var min := r.numericMin.OrElse(r.numericMax).value;
      var max := r.numericMax.OrElse(r.numericMin).value;
      if min != max then (JNum(min), Some(NumberText(min) + WorkerDash + NumberText(max)))
      else (JNum(min), Some(NumberText(min)))
    else if r.ratingValue.Some? then (JNum(r.ratingValue.value), Some(NumberText(r.ratingValue.value) + "/5"))
    else if r.textValue.Some? && r.textValue.value != [] then (JStr(r.textValue.value), Some(r.textValue.value))
    else if r.scheduleValue.Some? && Truthy(r.scheduleValue.value) then (JStr(Stringify(r.scheduleValue.value)), Some("See schedule"))
    else (JNull, None)
  }

  /** The worker ignores `int_value`: an int-only row decodes to `null`. */
  lemma WorkerIgnoresInt(r: Row, i: int)
    ensures WorkerValue(r.(intValue := Some(i))) == WorkerValue(r.(intValue := None))
    ensures WorkerValue(EmptyRow.(intValue := Some(i))) == (JNull, None)
    ensures DetailValue(EmptyRow.(intValue := Some(i))).1 == Some(IntToString(i))
  {
  }

  /** On a row holding one slot, the worker and the pub page decode the same value. */
  lemma WorkerAgreesOnNormalRows(r: Row)
    requires IsNormalRow(r) && r.intValue.None?
    ensures WorkerValue(r).0 == DetailValue(r).0
    ensures r.numericMin.None? && r.numericMax.None? ==> WorkerValue(r) == DetailValue(r)
  {
  }

  /** A row with both tags and a rating shows the tags in the worker and the rating on the pub page. */
  lemma WorkerPriorityDiffers()
    ensures var r := EmptyRow.(tagsValue := Some(["rooftop"]), ratingValue := Some(4.0));
      WorkerValue(r).0 == Strings(["rooftop"]) && DetailValue(r).0 == JNum(4.0)
  {
  }

  /** One entry of the worker's attribute list: rows without a code are dropped; label and type default as on the pub page. */
  function DecodeWorker(rec: AttributeRecord): (a: Option<PubAttribute>)
    ensures a.None? <==> !HasCode(rec)
    ensures a.Some? ==>
      (a.value.code == rec.meta.value.code.value
       && a.value.labelText == rec.meta.value.labelText.GetOr(a.value.code)
       && a.value.typeName == TypeNameOf(rec.meta.value)
       && (a.value.value, a.value.display) == WorkerValue(rec.row))
  {
    if !HasCode(rec) then None
    else
      var meta := rec.meta.value;
      var d := WorkerValue(rec.row);
      Some(PubAttribute(meta.code.value, meta.labelText.GetOr(meta.code.value), TypeNameOf(meta), d.0, d.1))
  }

  /** The worker's attribute list: the rows with a code, decoded, in their order. */
  function WorkerAttributes(recs: seq<AttributeRecord>): (attrs: seq<PubAttribute>)
    ensures |attrs| <= |recs|
    ensures forall a :: a in attrs ==> exists k :: 0 <= k < |recs| && DecodeWorker(recs[k]) == Some(a)
    ensures (forall k :: 0 <= k < |recs| ==> HasCode(recs[k])) ==> |attrs| == |recs|
  {
    if recs == [] then []
    else
      var rest := WorkerAttributes(recs[1..]);
      assert forall a :: a in rest ==> exists k :: 1 <= k < |recs| && DecodeWorker(recs[k]) == Some(a) by {
        forall a | a in rest ensures exists k :: 1 <= k < |recs| && DecodeWorker(recs[k]) == Some(a) {
          var k :| 0 <= k < |recs[1..]| && DecodeWorker(recs[1..][k]) == Some(a);
          assert DecodeWorker(recs[k + 1]) == Some(a);
        }
      }
      match DecodeWorker(recs[0])
      case Some(a) => [a] + rest
      case None => rest
  }
}

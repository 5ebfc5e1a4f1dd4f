/**
 * The campaign job store of the upload server: the `jobs` directory of
 * per-job JSON files, modelled as a map from job id to job record.
 *
 * A job record is a JSON object and is modelled as a field map, so that
 * `Object.assign({}, job, patch)` is the map union `job + patch`.
 */
module JobStore {
  import opened Wrappers

  /** One parsed CSV row: `[phone, p1, p2, ...]`. */
  type Row = seq<string>

  /** The JSON values that occur in a job record. */
  datatype Value = Str(s: string) | Num(n: int) | Rows(rows: seq<Row>)

  type Record = map<string, Value>

  /** The jobs directory: job id to the record its file holds. */
  type Directory = map<string, Record>

  const QUEUED_MESSAGE := "Job queued. Open /jobs/:id to view status."

  // ---------------------------------------------------------------------
  // Job ids: `job_${Date.now()}`

  function DigitChar(d: nat): char
    requires d < 10
  {
    "0123456789"[d]
  }

  /** Decimal notation of a natural number, as a template literal prints it. */
  function Decimal(n: nat): (s: string)
    ensures 1 <= |s|
    ensures n >= 10 <==> |s| >= 2
    ensures s[|s| - 1] == DigitChar(n % 10)
  {
    if n < 10 then [DigitChar(n)] else Decimal(n / 10) + [DigitChar(n % 10)]
  }

  lemma {:induction false} DecimalInjective(a: nat, b: nat)
    requires Decimal(a) == Decimal(b)
    ensures a == b
  {
    var s := Decimal(a);
    assert DigitChar(a % 10) == DigitChar(b % 10);
    assert a % 10 == b % 10;
    if a >= 10 {
      assert s[..|s| - 1] == Decimal(a / 10) == Decimal(b / 10);
      DecimalInjective(a / 10, b / 10);
    }
  }

  function JobId(now: nat): string
  {
    "job_" + Decimal(now)
  }

  /** Uploads at different milliseconds get different job ids, hence different files. */
  lemma JobIdInjective(now1: nat, now2: nat)
    requires JobId(now1) == JobId(now2)
    ensures now1 == now2
  {
    assert JobId(now1)[4..] == Decimal(now1);
    assert JobId(now2)[4..] == Decimal(now2);
    DecimalInjective(now1, now2);
  }

  // ---------------------------------------------------------------------
  // Upload: row filtering and job creation

  /** The rows the upload keeps: those of non-zero length, in file order. */
  function KeepNonEmpty(rows: seq<Row>): (kept: seq<Row>)
    ensures |kept| <= |rows|
  {
    if rows == [] then []
    else
      var last := rows[|rows| - 1];
      KeepNonEmpty(rows[..|rows| - 1]) + (if last == [] then [] else [last])
  }

  /** The positions of the rows the upload keeps. */
  function KeptPositions(rows: seq<Row>): seq<nat>
  {
    if rows == [] then []
    else
      var last := rows[|rows| - 1];
      KeptPositions(rows[..|rows| - 1]) + (if last == [] then [] else [|rows| - 1])
  }

  /**
   * The kept rows are exactly the non-empty rows, each once, in file order:
   * the k-th kept row is the row at the k-th kept position, the positions
   * strictly increase, and a position is kept exactly when its row is non-empty.
   */
  lemma {:induction false} KeepNonEmptyExactlyOnceInOrder(rows: seq<Row>)
    ensures var pos := KeptPositions(rows); var kept := KeepNonEmpty(rows);
      && |pos| == |kept|
      && (forall k :: 0 <= k < |pos| ==> pos[k] < |rows| && kept[k] == rows[pos[k]])
      && (forall k, l :: 0 <= k < l < |pos| ==> pos[k] < pos[l])
      && (forall i :: 0 <= i < |rows| ==> (i in pos <==> rows[i] != []))
  {
    if rows != [] {
      var init := rows[..|rows| - 1];
      KeepNonEmptyExactlyOnceInOrder(init);
      var pos := KeptPositions(rows);
      var initPos := KeptPositions(init);
      assert forall i :: 0 <= i < |init| ==> init[i] == rows[i];
      assert forall k :: 0 <= k < |initPos| ==> pos[k] == initPos[k];
    }
  }

  /** Every kept row is non-empty. */
  lemma KeptRowsNonEmpty(rows: seq<Row>)
    ensures forall k :: 0 <= k < |KeepNonEmpty(rows)| ==> KeepNonEmpty(rows)[k] != []
  {
  }

  /** The upload's `data` handler: push every non-empty row as it streams in. */
  method CollectRecords(rows: seq<Row>) returns (records: seq<Row>)
    ensures records == KeepNonEmpty(rows)
  {
    records := [];
    var i := 0;
    while i < |rows|
      invariant 0 <= i <= |rows|
      invariant records == KeepNonEmpty(rows[..i])
    {
      assert rows[..i + 1][..i] == rows[..i];
      if rows[i] != [] {
        records := records + [rows[i]];
      }
      i := i + 1;
    }
    assert rows[..|rows|] == rows;
  }

  /** The record written when an upload ends. */
  function NewJob(id: string, records: seq<Row>): Record
  {
    map["id" := Str(id), "total" := Num(|records|), "status" := Str("queued"), "records" := Rows(records)]
  }

  /** The record `updateJob` starts from when the job has no file. */
  function DefaultJob(id: string): Record
  {
    map["id" := Str(id), "total" := Num(0), "records" := Rows([])]
  }

  /** A record whose `total` counts its `records`. */
  predicate TotalMatchesRecords(job: Record)
  {
    && "total" in job && "records" in job
    && job["records"].Rows?
    && job["total"] == Num(|job["records"].rows|)
  }

  /** A new job counts its kept rows, is queued and is both files' id. */
  lemma NewJobQueued(id: string, rows: seq<Row>)
    ensures var job := NewJob(id, KeepNonEmpty(rows));
      && TotalMatchesRecords(job)
      && job["total"] == Num(|KeepNonEmpty(rows)|)
      && job["status"] == Str("queued")
      && job["id"] == Str(id)
  {
  }

  /** What the multipart form and the CSV stream deliver to the upload handler. */
  datatype UploadForm =
    | FormError(details: string)      // formidable could not parse the request
    | MissingCsv                      // no file field named `csv`
    | CsvError(details: string)       // the CSV stream failed before its end
    | CsvRows(rows: seq<Row>)         // every row the CSV stream produced

  datatype UploadReply =
    | Queued(jobId: string, total: nat, message: string)
    | UploadFailed(status: nat, error: string, details: Option<string>)

  function UploadErrorReply(form: UploadForm): (reply: UploadReply)
    requires !form.CsvRows?
    ensures reply.UploadFailed?
    ensures reply.status == 400 <==> !form.CsvError?
    ensures reply.status == 500 <==> form.CsvError?
  {
    match form
    case FormError(d) => UploadFailed(400, "file parse error", Some(d))
    case MissingCsv => UploadFailed(400, "CSV file field must be named \"csv\"", None)
    case CsvError(d) => UploadFailed(500, "CSV parse error", Some(d))
  }

  /** The directory after a successful upload at time `now`. */
  function Uploaded(jobs: Directory, now: nat, rows: seq<Row>): Directory
  {
    jobs[JobId(now) := NewJob(JobId(now), KeepNonEmpty(rows))]
  }

  // ---------------------------------------------------------------------
  // Lookup and update

  datatype JobReply = Found(record: Record) | NotFound(status: nat, error: string)

  /** `GET /jobs/:id`. */
  function Lookup(jobs: Directory, id: string): (reply: JobReply)
    ensures reply.NotFound? <==> id !in jobs
    ensures reply.NotFound? ==> reply.status == 404 && reply.error == "job not found"
    ensures reply.Found? ==> id in jobs && reply.record == jobs[id]
  {
    if id in jobs then Found(jobs[id]) else NotFound(404, "job not found")
  }

  /** `Object.assign({}, job, patch)`: patch keys win, every other key survives. */
  function Merge(job: Record, patch: Record): (merged: Record)
    ensures merged.Keys == job.Keys + patch.Keys
    ensures forall k :: k in patch ==> merged[k] == patch[k]
    ensures forall k :: k in job && k !in patch ==> merged[k] == job[k]
  {
    job + patch
  }

  /** The record `updateJob` reads: the stored one, or the default. */
  function Current(jobs: Directory, id: string): Record
  {
    if id in jobs then jobs[id] else DefaultJob(id)
  }

  /** The directory after `updateJob(id, patch)`. */
  function Updated(jobs: Directory, id: string, patch: Record): Directory
  {
    jobs[id := Merge(Current(jobs, id), patch)]
  }

  /** After an update, patch fields have the patch's value and every other field is kept. */
  lemma UpdatePatchWins(jobs: Directory, id: string, patch: Record)
    ensures var job := Updated(jobs, id, patch)[id];
      && job.Keys == Current(jobs, id).Keys + patch.Keys
      && (forall k :: k in patch ==> job[k] == patch[k])
      && (forall k :: k in Current(jobs, id) && k !in patch ==> job[k] == Current(jobs, id)[k])
  {
  }

  /** Updating a job with no file starts from `{id, total: 0, records: []}`. */
  lemma UpdateMissingStartsFromDefault(jobs: Directory, id: string, patch: Record)
    requires id !in jobs
    ensures var job := Updated(jobs, id, patch)[id];
      && job.Keys == {"id", "total", "records"} + patch.Keys
      && ("id" !in patch ==> job["id"] == Str(id))
      && ("total" !in patch ==> job["total"] == Num(0))
      && ("records" !in patch ==> job["records"] == Rows([]))
      && (forall k :: k in patch ==> job[k] == patch[k])
  {
  }

  /** Merging the same patch twice gives the record of merging it once. */
  lemma MergeIdempotent(job: Record, patch: Record)
    ensures Merge(Merge(job, patch), patch) == Merge(job, patch)
  {
  }

  /** Applying the same update twice gives the directory of applying it once. */
  lemma UpdateIdempotent(jobs: Directory, id: string, patch: Record)
    ensures Updated(Updated(jobs, id, patch), id, patch) == Updated(jobs, id, patch)
  {
    MergeIdempotent(Current(jobs, id), patch);
  }

  /** An update touches only the addressed job. */
  lemma UpdateOnlyAddressed(jobs: Directory, id: string, patch: Record)
    ensures Updated(jobs, id, patch).Keys == jobs.Keys + {id}
    ensures forall other :: other in jobs && other != id ==> Updated(jobs, id, patch)[other] == jobs[other]
  {
  }

  /** Looking a job up after an update sees the merged record for it and nothing new elsewhere. */
  lemma LookupAfterUpdate(jobs: Directory, id: string, patch: Record, other: string)
    ensures Lookup(Updated(jobs, id, patch), other) ==
      if other == id then Found(Merge(Current(jobs, id), patch)) else Lookup(jobs, other)
  {
  }

  /** Looking up the job an upload created gives its kept rows, their count and `queued`. */
  lemma LookupAfterUpload(jobs: Directory, now: nat, rows: seq<Row>)
    ensures var reply := Lookup(Uploaded(jobs, now, rows), JobId(now));
      && reply.Found?
      && reply.record["records"] == Rows(KeepNonEmpty(rows))
      && reply.record["total"] == Num(|KeepNonEmpty(rows)|)
      && reply.record["status"] == Str("queued")
  {
  }

  /**
   * A patch that carries `records` replaces the whole list.  Two writers that
   * each read the same list and change a different entry lose the first
   * writer's entry: after both updates, entry `i` holds its stale value.
   */
  lemma StaleRecordsPatchLosesSibling(jobs: Directory, id: string, i: nat, ri: Row, j: nat, rj: Row)
    requires id in jobs && "records" in jobs[id] && jobs[id]["records"].Rows?
    requires i < |jobs[id]["records"].rows| && j < |jobs[id]["records"].rows| && i != j
    requires ri != jobs[id]["records"].rows[i]
    ensures var stale := jobs[id]["records"].rows;
      var afterFirst := Updated(jobs, id, map["records" := Rows(stale[i := ri])]);
      var afterBoth := Updated(afterFirst, id, map["records" := Rows(stale[j := rj])]);
      && afterFirst[id]["records"].rows[i] == ri
      && afterBoth[id]["records"] == Rows(stale[j := rj])
      && afterBoth[id]["records"].rows[i] != ri
  {
  }

  // ---------------------------------------------------------------------
  // The directory as the handlers change it

  class JobFiles {
    var jobs: Directory

    constructor ()
      ensures jobs == map[]
    {
      jobs := map[];
    }

    /** `POST /upload`: collect the non-empty rows, write a queued job and report it. */
    method Upload(now: nat, form: UploadForm) returns (reply: UploadReply)
      modifies this
      ensures form.CsvRows? ==> jobs == Uploaded(old(jobs), now, form.rows)
      ensures form.CsvRows? ==> reply == Queued(JobId(now), |KeepNonEmpty(form.rows)|, QUEUED_MESSAGE)
      ensures !form.CsvRows? ==> jobs == old(jobs) && reply == UploadErrorReply(form)
      ensures reply.Queued? ==> reply.jobId in jobs && jobs[reply.jobId]["total"] == Num(reply.total)
    {
      if !form.CsvRows? {
        reply := UploadErrorReply(form);
        return;
      }
      var records := CollectRecords(form.rows);
      var jobId := JobId(now);
      jobs := jobs[jobId := NewJob(jobId, records)];
      reply := Queued(jobId, |records|, QUEUED_MESSAGE);
    }

    /** `GET /jobs/:id`. */
    method GetJob(id: string) returns (reply: JobReply)
      ensures reply == Lookup(jobs, id)
    {
      if id in jobs {
        reply := Found(jobs[id]);
      } else {
        reply := NotFound(404, "job not found");
      }
    }

    /** `updateJob(jobId, patch)`: read the record (or the default), merge, write back. */
    method UpdateJob(jobId: string, patch: Record)
      modifies this
      ensures jobs == Updated(old(jobs), jobId, patch)
    {
      var job := if jobId in jobs then jobs[jobId] else DefaultJob(jobId);
      var merged := Merge(job, patch);
      jobs := jobs[jobId := merged];
    }
  }

  // ---------------------------------------------------------------------
  // Webhook verification

  datatype TextReply = TextReply(status: nat, body: Option<string>)

  /** `GET /webhook`: echo the challenge only to a subscribe request with the right token. */
  function VerifyWebhook(mode: Option<string>, token: Option<string>, challenge: Option<string>,
                         verifyToken: string): (reply: TextReply)
    ensures reply.status == 200 <==> mode == Some("subscribe") && token == Some(verifyToken)
    ensures reply.status == 200 ==> reply.body == challenge
    ensures reply.status != 200 ==> reply == TextReply(403, Some("Forbidden"))
  {
    if mode == Some("subscribe") && token == Some(verifyToken) then TextReply(200, challenge)
    else TextReply(403, Some("Forbidden"))
  }
}

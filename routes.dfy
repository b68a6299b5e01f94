/** The job orchestration of the REST layer (src/hcp_crawler/api/routes.py): the upload
    endpoint's validation and job creation, and the background loop that runs every record
    of a job through the agent, writes the outcome to the record's rows and keeps the job's
    counters and status. The database is the job's row and the record rows; a statement that
    raises is named by a `Write` in a set of failing writes. */
module Routes {
  import opened Strings
  import opened Schemas
  import opened ExcelService
  import opened AgentNodes
  import opened AgentGraph

  /** The `processing_jobs` row of the job. */
  datatype JobRow = JobRow(
    jobId: string,
    filename: string,
    total: nat,
    processed: nat,
    found: nat,
    notFound: nat,
    errors: nat,
    status: JobStatus)

  /** One `hcp_records` row: the input fields and what the agent found. */
  datatype RecordRow = RecordRow(
    jobId: string,
    input: HCPInput,
    phone: string,
    email: string,
    fullAddress: string,
    sourceUrls: seq<string>,
    confidence: real,
    status: MatchStatus,
    reasoning: Json)

  /** The two tables as far as one job is concerned. */
  datatype Tables = Tables(job: JobRow, rows: seq<RecordRow>)

  /** The values one record-row update sets: a run's outcome, or the error a record raised. */
  datatype RowUpdate =
    | Outcome(status: MatchStatus, confidence: real, reasoning: Json, sourceUrls: seq<string>,
              contact: Option<ExtractedContact>)
    | Failure(message: string)

  /** The database statements of the background task that can raise. */
  datatype Write =
    | ProcessingWrite           // status PROCESSING
    | ResultWrite(idx: nat)     // record `idx`'s outcome
    | ErrorWrite(idx: nat)      // record `idx`'s ERROR row
    | ProgressWrite(idx: nat)   // the counters after record `idx`
    | CompletedWrite            // status COMPLETED
    | FailedWrite               // status FAILED

  /** Which statements raise, and the text of what a failing result write raises. */
  datatype Faults = Faults(failing: set<Write>, message: string)

  /** What invoking the agent on one record does: it runs with these actors, or it raises. */
  datatype Fate = Runs(actors: Actors) | Raises(message: string)

  // ---------------------------------------------------------------- record rows

  /** The update values of a finished run (lines 68-83): status, confidence, reasoning and
      sources always, the contact fields only with a best contact. */
  function ResultUpdate(st: AgentState): RowUpdate {
    Outcome(st.status, st.confidence, st.reasoning, st.sourceUrls, st.best)
  }

  /** One row after an update. */
  function Apply(row: RecordRow, u: RowUpdate): (r: RecordRow)
    ensures r.jobId == row.jobId && r.input == row.input
    ensures u.Failure? ==> r == row.(status := Error, reasoning := JString(u.message))
    ensures u.Outcome? ==>
      r.status == u.status && r.confidence == u.confidence && r.reasoning == u.reasoning
      && r.sourceUrls == u.sourceUrls
    ensures u.Outcome? ==>
      (r.phone, r.email, r.fullAddress) ==
        if u.contact.Some? then (u.contact.value.phone, u.contact.value.email, u.contact.value.fullAddress)
        else (row.phone, row.email, row.fullAddress)
  {
    match u
    case Failure(m) => row.(status := Error, reasoning := JString(m))
    case Outcome(s, c, why, urls, contact) =>
      var r := row.(status := s, confidence := c, reasoning := why, sourceUrls := urls);
      if contact.Some? then
        r.(phone := contact.value.phone, email := contact.value.email, fullAddress := contact.value.fullAddress)
      else r
  }

  /** Whether a row is hit by `WHERE job_id = … AND project_id = …`. */
  predicate Selected(row: RecordRow, jobId: string, projectId: string) {
    row.jobId == jobId && row.input.projectId == projectId
  }

  /** `UPDATE hcp_records … WHERE job_id = jobId AND project_id = projectId`. */
  function UpdateWhere(rows: seq<RecordRow>, jobId: string, projectId: string, u: RowUpdate): (r: seq<RecordRow>)
    ensures |r| == |rows|
  {
    seq(|rows|, i requires 0 <= i < |rows| =>
      if Selected(rows[i], jobId, projectId) then Apply(rows[i], u) else rows[i])
  }

  /** An update reaches every row of the record in the job and no other row. */
  lemma UpdateWhereOnly(rows: seq<RecordRow>, jobId: string, projectId: string, u: RowUpdate)
    ensures forall i :: 0 <= i < |rows| && !Selected(rows[i], jobId, projectId) ==>
      UpdateWhere(rows, jobId, projectId, u)[i] == rows[i]
    ensures forall i :: 0 <= i < |rows| && Selected(rows[i], jobId, projectId) ==>
      UpdateWhere(rows, jobId, projectId, u)[i] == Apply(rows[i], u)
  {
  }

  // ---------------------------------------------------------------- one record

  /** The counters of the loop, with the tables as they stand. */
  datatype Progress = Progress(tables: Tables, found: nat, notFound: nat, errors: nat)

  /** The loop goes on, or an exception escaped the per-record handler with the tables as
      they stood. */
  datatype Run = Going(p: Progress) | Crashed(tables: Tables)

  /** The counter a finished run increments: FOUND and PARTIAL count as found, every other
      status as not found. */
  function Counted(p: Progress, s: MatchStatus): (q: Progress)
    ensures q.tables == p.tables && q.errors == p.errors
    ensures s == Found || s == Partial ==> q.found == p.found + 1 && q.notFound == p.notFound
    ensures s != Found && s != Partial ==> q.found == p.found && q.notFound == p.notFound + 1
  {
    if s == Found then p.(found := p.found + 1)
    else if s == Partial then p.(found := p.found + 1)
    else p.(notFound := p.notFound + 1)
  }

  /** The `except` of the per-record `try`: count an error and mark the record's rows. */
  function Caught(p: Progress, idx: nat, projectId: string, message: string, faults: Faults): Run {
    if ErrorWrite(idx) in faults.failing then Crashed(p.tables)
    else
      var t := p.tables;
      Going(p.(tables := t.(rows := UpdateWhere(t.rows, t.job.jobId, projectId, Failure(message))),
               errors := p.errors + 1))
  }

  /** What `graph.ainvoke` gives for a record: the state its run ends in, or the exception. */
  datatype AgentResult = Finished(st: AgentState) | Raised(message: string)

  function Invoke(hcp: HCPInput, fate: Fate, cfg: Settings): AgentResult
    requires ValidSettings(cfg)
  {
    match fate
    case Runs(actors) => Finished(RunSpec(hcp, actors, cfg))
    case Raises(m) => Raised(m)
  }

  /** The `try` around one record once the agent has run: write its outcome and count it. */
  function Handle(p: Progress, idx: nat, projectId: string, res: AgentResult, faults: Faults): Run {
    match res
    case Raised(m) => Caught(p, idx, projectId, m, faults)
    case Finished(st) =>
      if ResultWrite(idx) in faults.failing then Caught(p, idx, projectId, faults.message, faults)
      else
        var t := p.tables;
        var rows := UpdateWhere(t.rows, t.job.jobId, projectId, ResultUpdate(st));
        Going(Counted(p.(tables := t.(rows := rows)), st.status))
  }

  /** One iteration of the record loop: the handled record, then the progress write. */
  function RecordStep(p: Progress, idx: nat, projectId: string, res: AgentResult, faults: Faults): Run {
    match Handle(p, idx, projectId, res, faults)
    case Crashed(t) => Crashed(t)
    case Going(q) =>
      if ProgressWrite(idx) in faults.failing then Crashed(q.tables)
      else
        var job := q.tables.job.(processed := idx + 1, found := q.found, notFound := q.notFound, errors := q.errors);
        Going(q.(tables := q.tables.(job := job)))
  }

  /** A record's iteration lets an exception escape exactly when its progress write raises,
      or its error write raises after the agent or the result write raised. */
  lemma RecordStepCrashes(p: Progress, idx: nat, projectId: string, res: AgentResult, faults: Faults)
    ensures RecordStep(p, idx, projectId, res, faults).Crashed? <==>
      || ProgressWrite(idx) in faults.failing
      || (ErrorWrite(idx) in faults.failing && (res.Raised? || ResultWrite(idx) in faults.failing))
  {
  }

  /** After a record's iteration the job row holds `idx + 1` processed records and the three
      counters, whose sum went up by one; the rows keep their number. */
  lemma RecordStepJob(p: Progress, idx: nat, projectId: string, res: AgentResult, faults: Faults)
    requires RecordStep(p, idx, projectId, res, faults).Going?
    ensures var q := RecordStep(p, idx, projectId, res, faults).p;
      && q.tables.job == p.tables.job.(processed := idx + 1, found := q.found, notFound := q.notFound, errors := q.errors)
      && q.found + q.notFound + q.errors == p.found + p.notFound + p.errors + 1
      && |q.tables.rows| == |p.tables.rows|
  {
    var h := Handle(p, idx, projectId, res, faults);
    assert h.Going? && h.p.tables.job == p.tables.job && |h.p.tables.rows| == |p.tables.rows|;
    assert h.p.found + h.p.notFound + h.p.errors == p.found + p.notFound + p.errors + 1;
  }

  /** Which counter a record's iteration raises: errors when the record raised, otherwise
      found for a FOUND or PARTIAL run and not-found for any other status. */
  lemma RecordStepCounter(p: Progress, idx: nat, projectId: string, res: AgentResult, faults: Faults)
    requires RecordStep(p, idx, projectId, res, faults).Going?
    ensures var q := RecordStep(p, idx, projectId, res, faults).p;
      && (res.Raised? || ResultWrite(idx) in faults.failing ==>
            q.errors == p.errors + 1 && q.found == p.found && q.notFound == p.notFound)
      && (res.Finished? && ResultWrite(idx) !in faults.failing ==>
            var s := res.st.status;
            q.errors == p.errors && (q.found == p.found + 1 <==> s == Found || s == Partial)
            && (q.notFound == p.notFound + 1 <==> s != Found && s != Partial))
  {
    var h := Handle(p, idx, projectId, res, faults);
    assert h.Going?;
  }

  /** A record whose run raises is marked ERROR with the exception's text on all its rows,
      no other row changes, and the loop goes on to the next record. */
  lemma RecordStepIsolatesErrors(p: Progress, idx: nat, projectId: string, message: string, faults: Faults)
    requires ErrorWrite(idx) !in faults.failing && ProgressWrite(idx) !in faults.failing
    ensures var r := RecordStep(p, idx, projectId, Raised(message), faults);
      && r.Going?
      && |r.p.tables.rows| == |p.tables.rows|
      && (forall i :: 0 <= i < |p.tables.rows| ==>
            var row := p.tables.rows[i];
            r.p.tables.rows[i] ==
              if Selected(row, p.tables.job.jobId, projectId)
              then row.(status := Error, reasoning := JString(message)) else row)
  {
    UpdateWhereOnly(p.tables.rows, p.tables.job.jobId, projectId, Failure(message));
  }

  // ---------------------------------------------------------------- the job

  /** The record loop over `records`, from the counters `p0`. */
  function Steps(p0: Progress, records: seq<HCPInput>, fates: seq<Fate>, faults: Faults, cfg: Settings): Run
    requires ValidSettings(cfg) && |fates| == |records|
    decreases |records|
  {
    if records == [] then Going(p0)
    else
      var n := |records| - 1;
      match Steps(p0, records[..n], fates[..n], faults, cfg)
      case Crashed(t) => Crashed(t)
      case Going(q) => RecordStep(q, n, records[n].projectId, Invoke(records[n], fates[n], cfg), faults)
  }

  /** The `except` around the whole task: mark the job FAILED, unless that write raises too. */
  function FailJob(t: Tables, faults: Faults): (r: Tables)
    ensures r.rows == t.rows
    ensures FailedWrite !in faults.failing ==> r.job == t.job.(status := Failed)
    ensures FailedWrite in faults.failing ==> r == t
  {
    if FailedWrite in faults.failing then t else t.(job := t.job.(status := Failed))
  }

  /** The tables after the background task for the job in `t0`. */
  function ProcessSpec(t0: Tables, records: seq<HCPInput>, fates: seq<Fate>, faults: Faults, cfg: Settings): Tables
    requires ValidSettings(cfg) && |fates| == |records|
  {
    if ProcessingWrite in faults.failing then FailJob(t0, faults)
    else
      var t1 := t0.(job := t0.job.(status := JobProcessing));
      match Steps(Progress(t1, 0, 0, 0), records, fates, faults, cfg)
      case Crashed(t) => FailJob(t, faults)
      case Going(q) =>
        if CompletedWrite in faults.failing then FailJob(q.tables, faults)
        else q.tables.(job := q.tables.job.(status := Completed))
  }

  /** A loop that goes on to the end counts every record once, leaves the job's identity,
      total and status alone, and (after at least one record) shows the counters and the
      number of records in the job row. */
  lemma {:induction false} StepsTally(p0: Progress, records: seq<HCPInput>, fates: seq<Fate>, faults: Faults, cfg: Settings)
    requires ValidSettings(cfg) && |fates| == |records|
    requires Steps(p0, records, fates, faults, cfg).Going?
    ensures var q := Steps(p0, records, fates, faults, cfg).p;
      && q.found + q.notFound + q.errors == p0.found + p0.notFound + p0.errors + |records|
      && q.tables.job.jobId == p0.tables.job.jobId && q.tables.job.total == p0.tables.job.total
      && q.tables.job.status == p0.tables.job.status
      && |q.tables.rows| == |p0.tables.rows|
      && (records != [] ==>
            && q.tables.job.processed == |records|
            && q.tables.job.found == q.found && q.tables.job.notFound == q.notFound
            && q.tables.job.errors == q.errors)
    decreases |records|
  {
    if records != [] {
      var n := |records| - 1;
      StepsTally(p0, records[..n], fates[..n], faults, cfg);
      var q := Steps(p0, records[..n], fates[..n], faults, cfg).p;
      RecordStepJob(q, n, records[n].projectId, Invoke(records[n], fates[n], cfg), faults);
    }
  }

  /** Once an exception escapes, the later records are not run. */
  lemma {:induction false} StepsCrashStays(p0: Progress, records: seq<HCPInput>, fates: seq<Fate>, i: nat, faults: Faults, cfg: Settings)
    requires ValidSettings(cfg) && |fates| == |records| && i <= |records|
    requires Steps(p0, records[..i], fates[..i], faults, cfg).Crashed?
    ensures Steps(p0, records, fates, faults, cfg) == Steps(p0, records[..i], fates[..i], faults, cfg)
    decreases |records| - i
  {
    if i < |records| {
      StepsSnocCrashed(p0, records, fates, i, faults, cfg);
      StepsCrashStays(p0, records, fates, i + 1, faults, cfg);
    } else {
      assert records[..i] == records && fates[..i] == fates;
    }
  }

  lemma StepsSnocCrashed(p0: Progress, records: seq<HCPInput>, fates: seq<Fate>, i: nat, faults: Faults, cfg: Settings)
    requires ValidSettings(cfg) && |fates| == |records| && i < |records|
    requires Steps(p0, records[..i], fates[..i], faults, cfg).Crashed?
    ensures Steps(p0, records[..i + 1], fates[..i + 1], faults, cfg) == Steps(p0, records[..i], fates[..i], faults, cfg)
  {
    assert records[..i + 1][..i] == records[..i] && fates[..i + 1][..i] == fates[..i];
  }

  /** One more record taken into the loop. */
  lemma StepsSnoc(p0: Progress, records: seq<HCPInput>, fates: seq<Fate>, i: nat, faults: Faults, cfg: Settings)
    requires ValidSettings(cfg) && |fates| == |records| && i < |records|
    requires Steps(p0, records[..i], fates[..i], faults, cfg).Going?
    ensures Steps(p0, records[..i + 1], fates[..i + 1], faults, cfg) ==
      RecordStep(Steps(p0, records[..i], fates[..i], faults, cfg).p, i, records[i].projectId, Invoke(records[i], fates[i], cfg), faults)
  {
    assert records[..i + 1][..i] == records[..i] && fates[..i + 1][..i] == fates[..i];
  }

  /** The tables a run stands at. */
  function TablesOf(r: Run): Tables {
    if r.Going? then r.p.tables else r.tables
  }

  /** Handling a record leaves the job row alone and keeps the number of rows. */
  lemma HandleKeeps(p: Progress, idx: nat, projectId: string, res: AgentResult, faults: Faults)
    ensures var t := TablesOf(Handle(p, idx, projectId, res, faults));
      t.job == p.tables.job && |t.rows| == |p.tables.rows|
  {
  }

  /** A record's iteration keeps the job's identity, total and status and the number of rows. */
  lemma RecordStepKeeps(p: Progress, idx: nat, projectId: string, res: AgentResult, faults: Faults)
    ensures var t := TablesOf(RecordStep(p, idx, projectId, res, faults));
      && t.job.jobId == p.tables.job.jobId && t.job.total == p.tables.job.total
      && t.job.status == p.tables.job.status && |t.rows| == |p.tables.rows|
  {
    HandleKeeps(p, idx, projectId, res, faults);
  }

  /** The loop, whether or not it runs to the end, keeps the job's identity and total and the
      number of rows. */
  lemma {:induction false} StepsKeep(p0: Progress, records: seq<HCPInput>, fates: seq<Fate>, faults: Faults, cfg: Settings)
    requires ValidSettings(cfg) && |fates| == |records|
    ensures var t := TablesOf(Steps(p0, records, fates, faults, cfg));
      && t.job.jobId == p0.tables.job.jobId && t.job.total == p0.tables.job.total
      && t.job.status == p0.tables.job.status && |t.rows| == |p0.tables.rows|
    decreases |records|
  {
    if records != [] {
      var n := |records| - 1;
      StepsKeep(p0, records[..n], fates[..n], faults, cfg);
      var r := Steps(p0, records[..n], fates[..n], faults, cfg);
      if r.Going? {
        RecordStepKeeps(r.p, n, records[n].projectId, Invoke(records[n], fates[n], cfg), faults);
      }
    }
  }

  /** The job ends COMPLETED only when no exception escaped, and then its row counts every
      record, each exactly once, as found, not found or error; unless the FAILED write itself
      raises, a job that does not complete ends FAILED. */
  lemma ProcessOutcome(t0: Tables, records: seq<HCPInput>, fates: seq<Fate>, faults: Faults, cfg: Settings)
    requires ValidSettings(cfg) && |fates| == |records|
    requires t0.job.status != Completed
    ensures var t := ProcessSpec(t0, records, fates, faults, cfg);
      && t.job.jobId == t0.job.jobId && t.job.total == t0.job.total && |t.rows| == |t0.rows|
      && (t.job.status == Completed <==>
            && ProcessingWrite !in faults.failing && CompletedWrite !in faults.failing
            && Steps(Progress(t0.(job := t0.job.(status := JobProcessing)), 0, 0, 0), records, fates, faults, cfg).Going?)
      && (t.job.status == Completed && records != [] ==>
            t.job.processed == |records| && t.job.found + t.job.notFound + t.job.errors == |records|)
      && (FailedWrite !in faults.failing ==> t.job.status == Completed || t.job.status == Failed)
  {
    if ProcessingWrite !in faults.failing {
      var p0 := Progress(t0.(job := t0.job.(status := JobProcessing)), 0, 0, 0);
      StepsKeep(p0, records, fates, faults, cfg);
      if Steps(p0, records, fates, faults, cfg).Going? {
        StepsTally(p0, records, fates, faults, cfg);
      }
    }
  }

  /** With no statement raising, the job completes with every record counted. */
  lemma ProcessWithoutFaults(t0: Tables, records: seq<HCPInput>, fates: seq<Fate>, message: string, cfg: Settings)
    requires ValidSettings(cfg) && |fates| == |records| && records != []
    ensures var t := ProcessSpec(t0, records, fates, Faults({}, message), cfg);
      && t.job.status == Completed && t.job.processed == |records|
      && t.job.found + t.job.notFound + t.job.errors == |records|
  {
    var faults := Faults({}, message);
    var p0 := Progress(t0.(job := t0.job.(status := JobProcessing)), 0, 0, 0);
    StepsNeverCrash(p0, records, fates, faults, cfg);
    StepsTally(p0, records, fates, faults, cfg);
  }

  /** With no statement raising, the record loop runs to the end. */
  lemma {:induction false} StepsNeverCrash(p0: Progress, records: seq<HCPInput>, fates: seq<Fate>, faults: Faults, cfg: Settings)
    requires ValidSettings(cfg) && |fates| == |records| && faults.failing == {}
    ensures Steps(p0, records, fates, faults, cfg).Going?
    decreases |records|
  {
    if records != [] {
      var n := |records| - 1;
      StepsNeverCrash(p0, records[..n], fates[..n], faults, cfg);
      RecordStepCrashes(Steps(p0, records[..n], fates[..n], faults, cfg).p, n, records[n].projectId, Invoke(records[n], fates[n], cfg), faults);
    }
  }

  // ---------------------------------------------------------------- the background task

  /** The database as the background task's session sees it: a statement that does not
      raise takes effect at once. */
  class Database {
    var job: JobRow
    var rows: seq<RecordRow>

    constructor (t: Tables)
      ensures job == t.job && rows == t.rows
    {
      job := t.job;
      rows := t.rows;
    }

    function Contents(): Tables
      reads this
    {
      Tables(job, rows)
    }

    /** `UPDATE processing_jobs SET status = s`; false when the statement raises. */
    method SetStatus(w: Write, s: JobStatus, faults: Faults) returns (ok: bool)
      modifies this
      ensures ok == (w !in faults.failing)
      ensures rows == old(rows)
      ensures job == if ok then old(job).(status := s) else old(job)
    {
      ok := w !in faults.failing;
      if ok {
        job := job.(status := s);
      }
    }

    /** `UPDATE hcp_records … WHERE job_id = … AND project_id = projectId`; false when the
        statement raises. */
    method UpdateRecords(w: Write, projectId: string, u: RowUpdate, faults: Faults) returns (ok: bool)
      modifies this
      ensures ok == (w !in faults.failing)
      ensures job == old(job)
      ensures rows == if ok then UpdateWhere(old(rows), job.jobId, projectId, u) else old(rows)
    {
      ok := w !in faults.failing;
      if ok {
        rows := UpdateWhere(rows, job.jobId, projectId, u);
      }
    }

    /** The progress write after a record; false when the statement raises. */
    method WriteProgress(w: Write, processed: nat, found: nat, notFound: nat, errors: nat, faults: Faults)
      returns (ok: bool)
      modifies this
      ensures ok == (w !in faults.failing)
      ensures rows == old(rows)
      ensures job == if ok then old(job).(processed := processed, found := found, notFound := notFound, errors := errors)
                     else old(job)
    {
      ok := w !in faults.failing;
      if ok {
        job := job.(processed := processed, found := found, notFound := notFound, errors := errors);
      }
    }
  }

  /** The per-record `except`: count an error and mark the record's rows ERROR;
      `escaped` when that write raises. */
  method MarkError(db: Database, idx: nat, projectId: string, message: string, faults: Faults,
                   found: nat, notFound: nat, errors: nat)
    returns (escaped: bool, errors': nat)
    modifies db
    ensures Caught(Progress(old(db.Contents()), found, notFound, errors), idx, projectId, message, faults) ==
      if escaped then Crashed(db.Contents()) else Going(Progress(db.Contents(), found, notFound, errors'))
  {
    errors' := errors + 1;
    var ok := db.UpdateRecords(ErrorWrite(idx), projectId, Failure(message), faults);
    escaped := !ok;
  }

  /** `graph.ainvoke` on a record. */
  method InvokeAgent(hcp: HCPInput, fate: Fate, cfg: Settings) returns (res: AgentResult)
    requires ValidSettings(cfg)
    ensures res == Invoke(hcp, fate, cfg)
    ensures res.Finished? ==> ShouldRetry(res.st) == Done && res.st.hcp == hcp
  {
    match fate {
      case Raises(m) =>
        res := Raised(m);
      case Runs(actors) =>
        RunEnds(hcp, actors, cfg);
        var st, _ := RunAgent(hcp, actors, cfg);
        res := Finished(st);
    }
  }

  /** The per-record `try` and its `except` once the agent has run: write the outcome and
      count it, or count an error and mark the record's rows; `escaped` when the error write
      itself raises. */
  method HandleRecord(db: Database, idx: nat, projectId: string, res: AgentResult, faults: Faults,
                      found: nat, notFound: nat, errors: nat)
    returns (escaped: bool, found': nat, notFound': nat, errors': nat)
    modifies db
    ensures Handle(Progress(old(db.Contents()), found, notFound, errors), idx, projectId, res, faults) ==
      if escaped then Crashed(db.Contents()) else Going(Progress(db.Contents(), found', notFound', errors'))
  {
    found', notFound', errors' := found, notFound, errors;
    match res {
      case Raised(m) =>
        escaped, errors' := MarkError(db, idx, projectId, m, faults, found, notFound, errors);
      case Finished(st) =>
        var ok := db.UpdateRecords(ResultWrite(idx), projectId, ResultUpdate(st), faults);
        escaped := false;
        if !ok {
          escaped, errors' := MarkError(db, idx, projectId, faults.message, faults, found, notFound, errors);
        } else if st.status == Found {
          found' := found' + 1;
        } else if st.status == Partial {
          found' := found' + 1;
        } else {
          notFound' := notFound' + 1;
        }
    }
  }

  /** `_process_job`: mark the job PROCESSING, run every record through the agent with its
      own exception handler, write the counters after each record, then mark the job
      COMPLETED; an exception escaping any of this marks it FAILED. */
  method ProcessJob(db: Database, records: seq<HCPInput>, fates: seq<Fate>, faults: Faults, cfg: Settings)
    requires ValidSettings(cfg) && |fates| == |records|
    modifies db
    ensures db.Contents() == ProcessSpec(old(db.Contents()), records, fates, faults, cfg)
  {
    var ok := db.SetStatus(ProcessingWrite, JobProcessing, faults);
    if !ok {
      ok := db.SetStatus(FailedWrite, Failed, faults);
      return;
    }
    ghost var p0 := Progress(db.Contents(), 0, 0, 0);
    var found, notFound, errors: nat := 0, 0, 0;
    for idx := 0 to |records|
      invariant Steps(p0, records[..idx], fates[..idx], faults, cfg) == Going(Progress(db.Contents(), found, notFound, errors))
    {
      StepsSnoc(p0, records, fates, idx, faults, cfg);
      var res := InvokeAgent(records[idx], fates[idx], cfg);
      var escaped;
      escaped, found, notFound, errors := HandleRecord(db, idx, records[idx].projectId, res, faults, found, notFound, errors);
      if escaped {
        StepsCrashStays(p0, records, fates, idx + 1, faults, cfg);
        ok := db.SetStatus(FailedWrite, Failed, faults);
        return;
      }
      ok := db.WriteProgress(ProgressWrite(idx), idx + 1, found, notFound, errors, faults);
      if !ok {
        StepsCrashStays(p0, records, fates, idx + 1, faults, cfg);
        ok := db.SetStatus(FailedWrite, Failed, faults);
        return;
      }
    }
    assert records[..|records|] == records && fates[..|fates|] == fates;
    ok := db.SetStatus(CompletedWrite, Completed, faults);
    if !ok {
      ok := db.SetStatus(FailedWrite, Failed, faults);
    }
  }

  // ---------------------------------------------------------------- the upload endpoint

  /** The response body of an accepted upload (`JobCreate`). */
  datatype JobCreate = JobCreate(jobId: string, totalRecords: nat, status: JobStatus)

  /** What the upload endpoint does with a request. */
  datatype Upload =
    | Rejected(detail: string)                     // HTTP 400 with this detail
    | ServerError                                  // an IndexError from the parser escapes
    | Accepted(tables: Tables, response: JobCreate) // job and records committed

  function BadFileDetail(): string {
    "Only .xlsx or .xls files are accepted."
  }

  function NoRecordsDetail(): string {
    "No valid HCP records found in the file."
  }

  /** A file name is present, not empty, and ends in `.xlsx` or `.xls`. */
  predicate AcceptedName(filename: Option<string>) {
    filename.Some? && filename.value != ""
    && (EndsWith(filename.value, ".xlsx") || EndsWith(filename.value, ".xls"))
  }

  /** A record row as the upload creates it: the input fields, every result column at its
      default and status PROCESSING. */
  function NewRow(jobId: string, hcp: HCPInput): RecordRow {
    RecordRow(jobId, hcp, "", "", "", [], 0.0, Processing, JString(""))
  }

  function NewRows(jobId: string, records: seq<HCPInput>): (rows: seq<RecordRow>)
    ensures |rows| == |records|
  {
    seq(|records|, i requires 0 <= i < |records| => NewRow(jobId, records[i]))
  }

  /** The job row as the upload creates it. */
  function NewJob(jobId: string, filename: string, total: nat): JobRow {
    JobRow(jobId, filename, total, 0, 0, 0, 0, Pending)
  }

  /** `upload_excel` for a file name and the workbook its contents load to; `jobId` is the
      fresh identifier the endpoint draws. */
  function UploadSpec(filename: Option<string>, wb: Workbook, jobId: string): Upload {
    if !AcceptedName(filename) then Rejected(BadFileDetail())
    else Respond(filename.value, ParseSpec(wb, filename.value), jobId)
  }

  /** The endpoint's answer once the parser has returned or raised. */
  function Respond(filename: string, parsed: Result<Parsed, ExcelError>, jobId: string): (u: Upload)
    ensures u.Rejected? <==> (parsed.Err? && parsed.error.ValueError?) || (parsed.Ok? && parsed.value.records == [])
    ensures u.ServerError? <==> parsed == Err(IndexError)
    ensures u.Accepted? ==>
      var records := parsed.value.records;
      && u.tables == Tables(NewJob(jobId, filename, |records|), NewRows(jobId, records))
      && u.response == JobCreate(jobId, |records|, Pending)
  {
    match parsed
    case Err(ValueError(m)) => Rejected(m)
    case Err(IndexError) => ServerError
    case Ok(p) =>
      if p.records == [] then Rejected(NoRecordsDetail())
      else
        var n := |p.records|;
        Accepted(Tables(NewJob(jobId, filename, n), NewRows(jobId, p.records)), JobCreate(jobId, n, Pending))
  }

  /** An upload is rejected with status 400 exactly when the file name is missing or has
      another extension, the parser raises ValueError, or no record survives parsing. */
  lemma UploadRejects(filename: Option<string>, wb: Workbook, jobId: string)
    ensures UploadSpec(filename, wb, jobId).Rejected? <==>
      || !AcceptedName(filename)
      || (ParseSpec(wb, filename.value).Err? && ParseSpec(wb, filename.value).error.ValueError?)
      || (ParseSpec(wb, filename.value).Ok? && ParseSpec(wb, filename.value).value.records == [])
  {
  }

  /** The parser's IndexError is not caught: it escapes the endpoint. */
  lemma UploadServerError(filename: Option<string>, wb: Workbook, jobId: string)
    ensures UploadSpec(filename, wb, jobId).ServerError? <==>
      AcceptedName(filename) && ParseSpec(wb, filename.value) == Err(IndexError)
  {
  }

  /** An accepted answer creates a PENDING job whose total is the number of parsed records,
      one PROCESSING row per record in order, and answers with the job's id, total and
      status. */
  lemma RespondCreates(name: string, parsed: Result<Parsed, ExcelError>, jobId: string)
    requires Respond(name, parsed, jobId).Accepted?
    ensures parsed.Ok?
    ensures var u := Respond(name, parsed, jobId);
      var records := parsed.value.records;
      && u.tables.job.total == |records| == |u.tables.rows| && |records| >= 1
      && u.tables.job.status == Pending && u.tables.job.jobId == jobId && u.tables.job.filename == name
      && u.tables.job.processed == 0 && u.tables.job.found == 0
      && u.tables.job.notFound == 0 && u.tables.job.errors == 0
      && u.response == JobCreate(jobId, |records|, Pending)
      && (forall i :: 0 <= i < |records| ==>
            && u.tables.rows[i].jobId == jobId && u.tables.rows[i].input == records[i]
            && u.tables.rows[i].status == Processing)
  {
    var records := parsed.value.records;
    var rows := NewRows(jobId, records);
    assert forall i :: 0 <= i < |records| ==> rows[i] == NewRow(jobId, records[i]);
  }

  /** An accepted upload's rows are the parsed records, each with a project id. */
  lemma UploadCreates(filename: Option<string>, wb: Workbook, jobId: string)
    requires UploadSpec(filename, wb, jobId).Accepted?
    ensures AcceptedName(filename) && ParseSpec(wb, filename.value).Ok?
    ensures var u := UploadSpec(filename, wb, jobId);
      && u.tables.job.total == |ParseSpec(wb, filename.value).value.records| == |u.tables.rows|
      && forall i :: 0 <= i < |u.tables.rows| ==>
           u.tables.rows[i].input == ParseSpec(wb, filename.value).value.records[i]
           && u.tables.rows[i].input.projectId != ""
  {
    var parsed := ParseSpec(wb, filename.value);
    RespondCreates(filename.value, parsed, jobId);
    ParseCounts(wb, filename.value);
  }

  /** A job created by an accepted upload and processed with no statement raising ends
      COMPLETED with every one of its records counted once. */
  lemma AcceptedJobCompletes(name: string, parsed: Result<Parsed, ExcelError>, jobId: string,
                             fates: seq<Fate>, message: string, cfg: Settings)
    requires ValidSettings(cfg)
    requires Respond(name, parsed, jobId).Accepted?
    requires parsed.Ok? && |fates| == |parsed.value.records|
    ensures var records := parsed.value.records;
      var t := ProcessSpec(Respond(name, parsed, jobId).tables, records, fates, Faults({}, message), cfg);
      && t.job.status == Completed && t.job.processed == t.job.total == |records|
      && t.job.found + t.job.notFound + t.job.errors == t.job.total
  {
    RespondCreates(name, parsed, jobId);
    var records := parsed.value.records;
    var t0 := Respond(name, parsed, jobId).tables;
    ProcessWithoutFaults(t0, records, fates, message, cfg);
    ProcessOutcome(t0, records, fates, Faults({}, message), cfg);
  }

  /** `upload_excel`: validate the name, parse, build the job and one row per record. */
  method UploadExcel(filename: Option<string>, wb: Workbook, jobId: string) returns (u: Upload)
    ensures u == UploadSpec(filename, wb, jobId)
  {
    if filename.None? || filename.value == "" || !(EndsWith(filename.value, ".xlsx") || EndsWith(filename.value, ".xls")) {
      return Rejected(BadFileDetail());
    }
    var name := filename.value;
    var parsed := ParseExcel(wb, name);
    u := RespondTo(name, parsed, jobId);
  }

  /** The endpoint's answer to the parser's outcome: 400 for a ValueError or no records,
      otherwise the job and one row per record, added in a loop. */
  method RespondTo(name: string, parsed: Result<Parsed, ExcelError>, jobId: string) returns (u: Upload)
    ensures u == Respond(name, parsed, jobId)
  {
    if parsed.Err? {
      if parsed.error.ValueError? {
        return Rejected(parsed.error.message);
      }
      return ServerError;
    }
    var records := parsed.value.records;
    if records == [] {
      return Rejected(NoRecordsDetail());
    }
    var job := NewJob(jobId, name, |records|);
    var rows: seq<RecordRow> := [];
    for i := 0 to |records|
      invariant rows == NewRows(jobId, records[..i])
    {
      rows := rows + [NewRow(jobId, records[i])];
    }
    assert records[..|records|] == records;
    u := Accepted(Tables(job, rows), JobCreate(jobId, |records|, Pending));
  }
}

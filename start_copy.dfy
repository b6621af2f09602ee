/**
 * The start-copy controller: the request that validates a portability job and hands its copy to
 * a background task, and the task itself, which copies the data and always clears the job's
 * scratch data afterwards.
 *
 * The foreign collaborators are kept uninterpreted: JobUtils.decodeId is a function-valued field
 * of the controller, the job store's JobDao.findExistingJob is a parameter of each request, and
 * the outcome of PortabilityCopier.copyDataType is a parameter of the task. The calls made to
 * them (and to CloudFactory.clearJobData) are recorded, in order, in a call log.
 */
module StartCopy {
  import opened Wrappers
  import opened PortableData

  /** The exceptions the controller raises itself, through Guava's Preconditions and Enums. */
  datatype Failure =
    | IllegalArgument(message: string)  // Preconditions.checkArgument
    | IllegalState(message: string)     // Preconditions.checkState
    | NullPointer                       // Enums.getIfPresent given a null name

  const CookieRequired := "Encoded Id Cookie required"
  const ExportServiceInvalid := "Export service is invalid"
  const ExportAuthRequired := "Export AuthData is required"
  const ImportServiceInvalid := "Import service is invalid"
  const ImportAuthRequired := "Import AuthData is required"
  const DataTypeRequired := "Data type required"

  /** The message of the missing-job check, with the decoded id substituted for its %s. */
  function JobNotFound(jobId: string): string {
    "existingJob not found for token: " + jobId
  }

  /**
   * getDataType: parses a job's data type string. It succeeds exactly when the string names a
   * constant, with that constant; a name that is no constant is "Data type required"; a null
   * name is rejected by Enums.getIfPresent's own null check.
   */
  function GetDataType(dataType: JavaString): (r: Result<PortableDataType, Failure>)
    ensures r.Ok? <==> dataType.Some? && exists t :: Name(t) == dataType.value
    ensures r.Ok? ==> Name(r.value) == dataType.value
    ensures dataType.None? ==> r == Err(NullPointer)
    ensures dataType.Some? && r.Err? ==> r.error == IllegalState(DataTypeRequired)
  {
    if dataType.None? then Err(NullPointer)
    else
      match IfPresent(dataType.value)
      case Some(t) => Ok(t)
      case None => Err(IllegalState(DataTypeRequired))
  }

  /**
   * What the submitted task captures: the arguments it passes to PortabilityCopier.copyDataType,
   * in that method's order (the service registry, the controller's own field, is left out).
   */
  datatype CopyTask = CopyTask(
    dataType: PortableDataType,
    exportService: string,
    exportAuthData: AuthData,
    importService: string,
    importAuthData: AuthData,
    jobId: string)

  /**
   * The checks a found job must pass, in the order the controller makes them: export service,
   * export credentials, import service, import credentials, data type. Each entry is None when
   * its check passes and the failure it raises otherwise.
   */
  function JobChecks(job: PortabilityJob): seq<Option<Failure>> {
    [ if IsNullOrEmpty(job.exportService) then Some(IllegalState(ExportServiceInvalid)) else None,
      if job.exportAuthData.None? then Some(IllegalState(ExportAuthRequired)) else None,
      if IsNullOrEmpty(job.importService) then Some(IllegalState(ImportServiceInvalid)) else None,
      if job.importAuthData.None? then Some(IllegalState(ImportAuthRequired)) else None,
      match GetDataType(job.dataType) case Ok(_) => None case Err(e) => Some(e) ]
  }

  /** The failure of the first check that fails, or None when every check passes. */
  function FirstFailure(checks: seq<Option<Failure>>): (r: Option<Failure>)
    ensures r.None? <==> forall i :: 0 <= i < |checks| ==> checks[i].None?
    ensures r.Some? ==>
      exists i :: 0 <= i < |checks| && checks[i] == r && forall j :: 0 <= j < i ==> checks[j].None?
  {
    if checks == [] then None
    else if checks[0].Some? then checks[0]
    else
      var r := FirstFailure(checks[1..]);
      assert forall i :: 1 <= i < |checks| ==> checks[i] == checks[1..][i - 1];
      r
  }

  /** The first failure among five checks, spelled out check by check. */
  lemma FirstFailureOfFive(a: Option<Failure>, b: Option<Failure>, c: Option<Failure>,
                           d: Option<Failure>, e: Option<Failure>)
    ensures FirstFailure([a, b, c, d, e]) ==
      if a.Some? then a else if b.Some? then b else if c.Some? then c else if d.Some? then d else e
  {
    assert [a, b, c, d, e][1..] == [b, c, d, e];
    assert [b, c, d, e][1..] == [c, d, e];
    assert [c, d, e][1..] == [d, e];
    assert [d, e][1..] == [e];
    assert [e][1..] == [];
    assert FirstFailure([e]) == e;
    assert FirstFailure([d, e]) == if d.Some? then d else e;
    assert FirstFailure([c, d, e]) == if c.Some? then c else FirstFailure([d, e]);
    assert FirstFailure([b, c, d, e]) == if b.Some? then b else FirstFailure([c, d, e]);
  }

  /**
   * The checks of a found job, as the controller writes them. The job is rejected exactly when
   * one of its checks fails, and then with the failure of the first check, in the fixed order,
   * that fails. A job that passes them all yields the arguments copyDataType receives: the
   * parsed data type, the (non-empty) export service and its credentials, the (non-empty) import
   * service and its credentials, and the job's id.
   */
  function CheckJob(job: PortabilityJob): (r: Result<CopyTask, Failure>)
    ensures r.Err? <==> FirstFailure(JobChecks(job)).Some?
    ensures r.Err? ==> FirstFailure(JobChecks(job)) == Some(r.error)
    ensures r.Ok? ==>
      job.dataType == Some(Name(r.value.dataType)) &&
      job.exportService == Some(r.value.exportService) && r.value.exportService != "" &&
      job.exportAuthData == Some(r.value.exportAuthData) &&
      job.importService == Some(r.value.importService) && r.value.importService != "" &&
      job.importAuthData == Some(r.value.importAuthData) &&
      r.value.jobId == job.id
  {
    var checks := JobChecks(job);
    FirstFailureOfFive(checks[0], checks[1], checks[2], checks[3], checks[4]);
    assert checks == [checks[0], checks[1], checks[2], checks[3], checks[4]];
    if IsNullOrEmpty(job.exportService) then Err(IllegalState(ExportServiceInvalid))
    else if job.exportAuthData.None? then Err(IllegalState(ExportAuthRequired))
    else if IsNullOrEmpty(job.importService) then Err(IllegalState(ImportServiceInvalid))
    else if job.importAuthData.None? then Err(IllegalState(ImportAuthRequired))
    else
      match GetDataType(job.dataType)
      case Err(e) => Err(e)
      case Ok(t) =>
        Ok(CopyTask(t, job.exportService.value, job.exportAuthData.value,
                    job.importService.value, job.importAuthData.value, job.id))
  }

  /**
   * The whole precondition chain of a start-copy request: a null or empty cookie is rejected
   * first; otherwise a decoded id that names no job is rejected as "existingJob not found";
   * otherwise the verdict is that of the found job's first failing check, and a request that
   * passes them all yields a task for that job.
   */
  function Validate(encodedIdCookie: JavaString, decodeId: string -> string,
                    findExistingJob: string -> Option<PortabilityJob>): (r: Result<CopyTask, Failure>)
    ensures IsNullOrEmpty(encodedIdCookie) ==> r == Err(IllegalArgument(CookieRequired))
    ensures !IsNullOrEmpty(encodedIdCookie) ==>
      var jobId := decodeId(encodedIdCookie.value);
      (findExistingJob(jobId).None? ==> r == Err(IllegalState(JobNotFound(jobId)))) &&
      (findExistingJob(jobId).Some? ==>
        var job := findExistingJob(jobId).value;
        (r.Err? <==> FirstFailure(JobChecks(job)).Some?) &&
        (r.Err? ==> FirstFailure(JobChecks(job)) == Some(r.error)) &&
        (r.Ok? ==> r.value.jobId == job.id && job.dataType == Some(Name(r.value.dataType))))
  {
    if IsNullOrEmpty(encodedIdCookie) then Err(IllegalArgument(CookieRequired))
    else
      var jobId := decodeId(encodedIdCookie.value);
      match findExistingJob(jobId)
      case None => Err(IllegalState(JobNotFound(jobId)))
      case Some(job) => CheckJob(job)
  }

  /** A call the controller or its task makes to a foreign collaborator. */
  datatype Call =
    | DecodeId(encodedIdCookie: string)        // JobUtils.decodeId
    | FindExistingJob(jobId: string)           // JobDao.findExistingJob
    | CopyDataType(task: CopyTask)             // PortabilityCopier.copyDataType
    | ClearJobData(jobId: string)              // CloudFactory.clearJobData

  /** The calls a request makes before its checks of the found job: none for a rejected cookie. */
  function LookupCalls(encodedIdCookie: JavaString, decodeId: string -> string): seq<Call> {
    if IsNullOrEmpty(encodedIdCookie) then []
    else [DecodeId(encodedIdCookie.value), FindExistingJob(decodeId(encodedIdCookie.value))]
  }

  /** The calls one run of a copy task makes: the copy, then the cleanup in the finally block. */
  function TaskCalls(task: CopyTask): seq<Call> {
    [CopyDataType(task), ClearJobData(task.jobId)]
  }

  /** How PortabilityCopier.copyDataType ends. */
  datatype CopyOutcome =
    | Returned                       // the copy returns normally
    | IOErr                          // it throws an IOException
    | OtherErr(exception: string)    // it throws any other exception

  /** The acknowledgement a started copy returns. */
  const Started: map<string, string> := map["status" := "started"]

  /** The number of tasks in the list that belong to the job. */
  function TasksOf(tasks: seq<CopyTask>, jobId: string): nat {
    if tasks == [] then 0
    else TasksOf(tasks[..|tasks| - 1], jobId) + (if tasks[|tasks| - 1].jobId == jobId then 1 else 0)
  }

  /** The number of times c occurs in the log. */
  function Count(log: seq<Call>, c: Call): nat {
    if log == [] then 0
    else Count(log[..|log| - 1], c) + (if log[|log| - 1] == c then 1 else 0)
  }

  /** Counting over a log that grows by appending adds the counts of its two parts. */
  lemma {:induction false} CountAppend(log: seq<Call>, more: seq<Call>, c: Call)
    ensures Count(log + more, c) == Count(log, c) + Count(more, c)
  {
    if more != [] {
      var init := more[..|more| - 1];
      assert (log + more)[..|log + more| - 1] == log + init;
      CountAppend(log, init, c);
    } else {
      assert log + more == log;
    }
  }

  /**
   * The controller. The id decoder is fixed when it is created; the job store may change between
   * requests, so each request is given the store's lookup as it stands then. What the controller
   * changes is the log of the calls made to its collaborators and the list of copy tasks handed
   * to executors.
   */
  class StartCopyController {
    const decodeId: string -> string
    var calls: seq<Call>
    var submitted: seq<CopyTask>

    constructor (decodeId: string -> string)
      ensures this.decodeId == decodeId
      ensures calls == [] && submitted == []
    {
      this.decodeId := decodeId;
      calls := [];
      submitted := [];
    }

    /**
     * fetchCopyConfiguration: validates the request and, only when every check passes, submits
     * exactly one copy task and acknowledges with {"status": "started"}. A failed check is
     * reported as the exception it raises and submits nothing.
     */
    method FetchCopyConfiguration(encodedIdCookie: JavaString,
                                  findExistingJob: string -> Option<PortabilityJob>)
      returns (r: Result<map<string, string>, Failure>)
      modifies this
      ensures calls == old(calls) + LookupCalls(encodedIdCookie, decodeId)
      ensures r.Ok? <==> Validate(encodedIdCookie, decodeId, findExistingJob).Ok?
      ensures r.Ok? ==>
        r.value == Started &&
        submitted == old(submitted) + [Validate(encodedIdCookie, decodeId, findExistingJob).value]
      ensures r.Err? ==>
        r.error == Validate(encodedIdCookie, decodeId, findExistingJob).error &&
        submitted == old(submitted)
    {
      if IsNullOrEmpty(encodedIdCookie) {
        return Err(IllegalArgument(CookieRequired));
      }
      var jobId := decodeId(encodedIdCookie.value);
      calls := calls + [DecodeId(encodedIdCookie.value)];
      var job := findExistingJob(jobId);
      calls := calls + [FindExistingJob(jobId)];
      if job.None? {
        return Err(IllegalState(JobNotFound(jobId)));
      }
      var checked := CheckJob(job.value);
      if checked.Err? {
        return Err(checked.error);
      }
      submitted := submitted + [checked.value];
      r := Ok(Started);
    }

    /**
     * The submitted task's run(): calls copyDataType with the task's arguments; an IOException is
     * caught and logged, any other exception escapes; in every case the finally block then clears
     * the job's data. Returns the exception that escapes, if any.
     */
    method Run(task: CopyTask, outcome: CopyOutcome) returns (escaping: Option<string>)
      modifies this`calls
      ensures calls == old(calls) + TaskCalls(task)
      ensures escaping.None? <==> !outcome.OtherErr?
      ensures outcome.OtherErr? ==> escaping == Some(outcome.exception)
      ensures Count(calls, ClearJobData(task.jobId)) == Count(old(calls), ClearJobData(task.jobId)) + 1
    {
      calls := calls + [CopyDataType(task)];
      var thrown: Option<string> := None;
      match outcome {
        case Returned =>
        case IOErr =>
          // caught: the failure is only printed
        case OtherErr(e) =>
          thrown := Some(e);
      }
      // finally
      calls := calls + [ClearJobData(task.jobId)];
      escaping := thrown;
      CountAppend(old(calls), TaskCalls(task), ClearJobData(task.jobId));
    }
  }
}

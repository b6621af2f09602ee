/**
 * What the start-copy controller promises, stated over its validation chain and over the calls
 * its copy task makes.
 */
module StartCopyProperties {
  import opened Wrappers
  import opened PortableData
  import opened StartCopy

  /** Parsing a constant's own name yields that constant. */
  lemma GetDataTypeOfName(t: PortableDataType)
    ensures GetDataType(Some(Name(t))) == Ok(t)
  {
    var r := GetDataType(Some(Name(t)));
    assert r.Ok?;
    NameInjective(r.value, t);
  }

  /** Distinct constants have distinct names, so a name determines its constant. */
  lemma NameInjective(a: PortableDataType, b: PortableDataType)
    requires Name(a) == Name(b)
    ensures a == b
  {
  }

  /** A null or empty cookie is rejected before the id is decoded or any job is looked up. */
  lemma RejectedCookieLooksUpNothing(encodedIdCookie: JavaString, decodeId: string -> string,
                                     findExistingJob: string -> Option<PortabilityJob>)
    requires IsNullOrEmpty(encodedIdCookie)
    ensures Validate(encodedIdCookie, decodeId, findExistingJob) == Err(IllegalArgument(CookieRequired))
    ensures LookupCalls(encodedIdCookie, decodeId) == []
  {
  }

  /** The calls a request makes on its own, before any task runs, never clear a job's data. */
  lemma LookupNeverClears(encodedIdCookie: JavaString, decodeId: string -> string, jobId: string)
    ensures Count(LookupCalls(encodedIdCookie, decodeId), ClearJobData(jobId)) == 0
  {
    var calls := LookupCalls(encodedIdCookie, decodeId);
    if calls != [] {
      assert calls[..1][..0] == [] && calls[..1] == [calls[0]];
      assert Count([], ClearJobData(jobId)) == 0;
      assert Count(calls[..1], ClearJobData(jobId)) == 0;
    }
  }

  /**
   * A job with an empty export service and no import credentials is reported for its export
   * service, the earlier of its two failing checks.
   */
  lemma ExportServiceReportedBeforeImportAuth(job: PortabilityJob)
    requires job.exportService == Some("")
    requires job.importAuthData.None?
    ensures CheckJob(job) == Err(IllegalState(ExportServiceInvalid))
    ensures JobChecks(job)[0] == Some(IllegalState(ExportServiceInvalid))
    ensures JobChecks(job)[3] == Some(IllegalState(ImportAuthRequired))
  {
  }

  /**
   * One run of a copy task calls copyDataType once, with the task's arguments, and then clears
   * the job's data exactly once, as its last call; this holds whatever the copy's outcome, since
   * the calls a run makes do not depend on it.
   */
  lemma {:induction false} CleanupExactlyOnceAndLast(task: CopyTask)
    ensures var calls := TaskCalls(task);
      Count(calls, ClearJobData(task.jobId)) == 1 &&
      Count(calls, CopyDataType(task)) == 1 &&
      calls[0] == CopyDataType(task) &&
      calls[|calls| - 1] == ClearJobData(task.jobId)
  {
    TaskClearsOnlyItsJob(task, task.jobId);
    var calls := TaskCalls(task);
    var copy := CopyDataType(task);
    assert calls[..1] == [copy] && [copy][..0] == [];
    assert Count([], copy) == 0 && Count([copy], copy) == 1;
    assert Count(calls, copy) == Count([copy], copy) + 0;
  }

  /** A run of a task clears its own job's data once and no other job's. */
  lemma {:induction false} TaskClearsOnlyItsJob(task: CopyTask, jobId: string)
    ensures Count(TaskCalls(task), ClearJobData(jobId)) == if task.jobId == jobId then 1 else 0
  {
    var calls := TaskCalls(task);
    var copy, clear := CopyDataType(task), ClearJobData(jobId);
    assert calls[..1] == [copy] && [copy][..0] == [];
    assert Count([], clear) == 0 && Count([copy], clear) == 0;
    assert Count(calls, clear) == Count([copy], clear) + (if task.jobId == jobId then 1 else 0);
  }

  /**
   * Over a whole log, runs of tasks for any mix of jobs add, for each job, exactly as many
   * clearings of that job's data as there are runs of that job's tasks.
   */
  lemma {:induction false} CleanupCountsRuns(log: seq<Call>, tasks: seq<CopyTask>, jobId: string)
    ensures Count(log + RunsCalls(tasks), ClearJobData(jobId))
            == Count(log, ClearJobData(jobId)) + TasksOf(tasks, jobId)
  {
    if tasks != [] {
      var init := tasks[..|tasks| - 1];
      var last := tasks[|tasks| - 1];
      assert RunsCalls(tasks) == RunsCalls(init) + TaskCalls(last);
      assert log + RunsCalls(tasks) == (log + RunsCalls(init)) + TaskCalls(last);
      CleanupCountsRuns(log, init, jobId);
      CountAppend(log + RunsCalls(init), TaskCalls(last), ClearJobData(jobId));
      TaskClearsOnlyItsJob(last, jobId);
    } else {
      assert log + RunsCalls(tasks) == log;
    }
  }

  /** The calls made by running the given tasks one after another. */
  function RunsCalls(tasks: seq<CopyTask>): seq<Call> {
    if tasks == [] then [] else RunsCalls(tasks[..|tasks| - 1]) + TaskCalls(tasks[|tasks| - 1])
  }
}

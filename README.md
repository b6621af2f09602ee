# Start-copy controller of the Data Portability Project, in Dafny

This project models `StartCopyController`, the web entry point that starts a portability copy:
a job's data of one type moves from an export service to an import service.

A request carries an encoded job-id cookie. The controller checks the cookie. It decodes the id,
looks up the job and checks the job's fields in a fixed order. The first check that fails aborts
the request with its own exception. If every check passes, the controller submits one background
task and answers `{"status": "started"}`. The task calls `PortabilityCopier.copyDataType`. It
swallows an `IOException`. In a `finally` block it always clears the job's data through
`CloudFactory.clearJobData`.

Files:

- `wrappers.dfy`: `Option` (also used for a Java reference that may be null) and `Result`.
- `portable_data.dfy`: the job record, opaque credentials and the `PortableDataType` enum. This
  file also holds the enum's name lookup, which Guava's `Enums.getIfPresent` performs.
- `start_copy.dfy`: the pure validation chain (`GetDataType`, `CheckJob`, `Validate`), the list
  of checks in their order (`JobChecks`, `FirstFailure`) and the controller class. Foreign calls
  are recorded in the class's call log `calls`. Submitted tasks are recorded in `submitted`.
  `FetchCopyConfiguration` models the request. `Run` models the task body.
- `start_copy_properties.dfy`: lemmas about the order of the checks, the enum lookup and the
  cleanup.

The foreign collaborators are modelled as follows:

- `JobUtils.decodeId` is a function-valued field of the controller, fixed at construction and
  otherwise left uninterpreted.
- `JobDao.findExistingJob` is a parameter of each request: the job store's lookup as it stands
  when that request arrives, so the store may change between requests.
- The way `copyDataType` ends is a parameter of `Run`: it returns, throws `IOException`, or throws
  something else.
- `clearJobData` is only recorded in the call log.

## Model

| member | source | states |
|---|---|---|
| `PortableData.Directory` | portability-web/src/main/java/org/dataportabilityproject/webapp/StartCopyController.java:96-97 | the enum's name directory keys every constant under its own name, and each key maps to a constant with that name |
| `PortableData.IfPresent` | portability-web/src/main/java/org/dataportabilityproject/webapp/StartCopyController.java:96-97 | the lookup of a non-null name finds a constant with that name, and finds nothing only when no constant has that name |
| `StartCopy.GetDataType` | portability-web/src/main/java/org/dataportabilityproject/webapp/StartCopyController.java:95-100 | succeeds exactly when the string names a constant, and then returns that constant; any other string fails with IllegalState "Data type required"; a null string fails with NullPointerException |
| `StartCopyProperties.GetDataTypeOfName` | portability-web/src/main/java/org/dataportabilityproject/webapp/StartCopyController.java:95-100 | parsing a constant's own name gives back that constant (the lookup inverts `name()`) |
| `StartCopy.FirstFailure` | portability-web/src/main/java/org/dataportabilityproject/webapp/StartCopyController.java:63-71 | the reference meaning of "first failing check": None exactly when every check passes; otherwise the failure of some check that every earlier check passed |
| `StartCopy.CheckJob` | portability-web/src/main/java/org/dataportabilityproject/webapp/StartCopyController.java:62-78 | a found job is rejected exactly when one of its checks fails (export service, export auth, import service, import auth, data type, in that order), and the reported error is the first failing one; a job that passes yields the copyDataType arguments in order: the parsed type whose name is the job's data type, the non-empty export service and its auth, the non-empty import service and its auth, then the job id |
| `StartCopy.Validate` | portability-web/src/main/java/org/dataportabilityproject/webapp/StartCopyController.java:55-71 | a null or empty cookie fails with IllegalArgument "Encoded Id Cookie required"; otherwise a decoded id with no job fails with IllegalState "existingJob not found for token: " followed by that id; otherwise the verdict is the found job's first failing check, and a passing request yields a task for that job's id and data type |
| `StartCopyProperties.ExportServiceReportedBeforeImportAuth` | portability-web/src/main/java/org/dataportabilityproject/webapp/StartCopyController.java:63-69 | a job with an empty export service and no import auth fails both checks, yet it is reported as "Export service is invalid" |
| `StartCopyProperties.RejectedCookieLooksUpNothing` | portability-web/src/main/java/org/dataportabilityproject/webapp/StartCopyController.java:55-59 | a null or empty cookie fails with IllegalArgument "Encoded Id Cookie required", before any decoding or job lookup is made |
| `StartCopyProperties.LookupNeverClears` | portability-web/src/main/java/org/dataportabilityproject/webapp/StartCopyController.java:55-71 | the calls a request makes itself (decodeId, findExistingJob) never clear any job's data, whether it is accepted or rejected |
| `StartCopy.StartCopyController.constructor` | portability-web/src/main/java/org/dataportabilityproject/webapp/StartCopyController.java:40-48 | the controller starts with its id decoder fixed, an empty call log and no submitted tasks |
| `StartCopy.StartCopyController.FetchCopyConfiguration` | portability-web/src/main/java/org/dataportabilityproject/webapp/StartCopyController.java:52-92 | the request fails with `Validate`'s error and submits nothing, or submits exactly one task (the validated arguments) and returns exactly `{"status": "started"}`; it calls decodeId and findExistingJob only after the cookie passes; the outcome of the copy is no input |
| `StartCopy.StartCopyController.Run` | portability-web/src/main/java/org/dataportabilityproject/webapp/StartCopyController.java:75-85 | the task calls copyDataType with its arguments and then clearJobData(job id), whatever the copy's outcome; an IOException is swallowed and any other exception escapes unchanged after cleanup; the job's clearJobData count rises by exactly one |
| `StartCopyProperties.CleanupExactlyOnceAndLast` | portability-web/src/main/java/org/dataportabilityproject/webapp/StartCopyController.java:76-84 | a run makes exactly one copyDataType call as its first call and exactly one clearJobData(job id) call as its last call |
| `StartCopyProperties.TaskClearsOnlyItsJob` | portability-web/src/main/java/org/dataportabilityproject/webapp/StartCopyController.java:76-84 | one run clears its own job's data exactly once and clears no other job's data |
| `StartCopyProperties.CleanupCountsRuns` | portability-web/src/main/java/org/dataportabilityproject/webapp/StartCopyController.java:82-84 | over a whole log and any mix of jobs, runs add to each job exactly as many clearings of its data as there are runs of that job's tasks |

## Left out

- Spring wiring is left out: `@RestController`, `@Autowired`, `@RequestMapping` and `@CookieValue`. It is framework glue. The cookie is modelled as a string that may be null.
- The executor and the asynchrony are left out: `Executors.newCachedThreadPool` and `submit`. Submitting appends the task's arguments to `submitted`. The executor's later execution of a task is a separate call to `Run`. Threads and the interleaving of concurrent runs are not modelled.
- The service registry passed to `copyDataType` is left out. It is the controller's own injected field, the same on every call, so it is not recorded in the call log.
- `decodeId` and `findExistingJob` are uninterpreted. The exceptions they may throw are not modelled. `decodeId` is taken to return a non-null string.
- `copyDataType` is represented only by how it ends. `PortabilityCopier` is not part of this model.
- `clearJobData` itself is only recorded. If it threw an exception, Java would replace the copy's exception with it. That case is not modelled.
- `PortabilityJob` is not part of this model. The Java task reads `job.exportAuthData()`, `job.importAuthData()` and `job.id()` when it runs. The model captures these values in the task when the task is submitted. The two agree only if a `PortabilityJob` object does not change after lookup, which this model takes for granted.
- `System.out.println` and `printStackTrace` in the `IOException` handler are logging only.
- `PortableDataType.java` is not part of this model. Its constants are taken to be `CALENDAR`, `CONTACTS`, `MAIL`, `PHOTOS` and `TASKS`. The lemmas rely only on these names being distinct.
- Guava's message formatting is modelled only for its one use: the decoded id is substituted for `%s`.
- The controller does not update a job's status (no `COPY_SUCCEEDED` / `COPY_FAILED`), does not resolve service adapters before submitting, has no guard against two starts of the same job, and does not itself export, buffer or import data. The model claims none of these.
- The checks do not each raise their own kind of error:
  - a bad cookie raises `IllegalArgumentException`;
  - every other check raises `IllegalStateException`, told apart only by its message;
  - a null data type string raises `NullPointerException` from Guava's `Enums.getIfPresent`, not "Data type required".
- Only an `IOException` from the copy is caught and printed. Any other exception escapes `run()` after the cleanup and is not logged by the controller.

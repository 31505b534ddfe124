# python-cpp-utility in Dafny

A Dafny model of the sequential core of python-cpp-utility, a C++ library that embeds a Python interpreter and runs scripts on a pool of worker threads. The model covers:

- **Sources** (`source.dfy`). In-memory and file-backed script sources. A file source loads lazily or eagerly; the `SourceManager` registry maps ids to shared references.
- **Modules** (`module.dfy`). The `ModuleManager` registry of native module initializers. `ImportModules` hands every registration to the interpreter's import table.
- **Runs** (`run.dfy`). One scheduled script execution between a before-callback and an after-callback, with the promise that reports its outcome. `Verdict` says how an invocation resolves the promise; the destructor cancels a run that never ran.
- **Scheduler** (`scheduler.dfy`). The three-state machine STOPPED → STARTED → STOPPING → STOPPED over a FIFO queue of runs. Each worker thread is a flag, and one turn of a worker's loop is the method `ExecuteStep`.
- **ScriptSystem** (`system.dfy`). The facade that couples the `running_` flag and the interpreter's lifetime to the scheduler. It submits runs by source or by id.
- **Test harness** (`test_harness.dfy`). An ordered registry of named tests, the latest and aggregate results, the three abort policies of a full run, and `test_main`.
- **Support files**. `errors.dfy` holds the exception hierarchy and the messages its constructors build. `wrappers.dfy` holds `Option`, `Result` and `Outcome`, which stand in for nullable values and thrown exceptions.

Foreign and environmental inputs are parameters:

- **File reads.** The outcome of reading a file is an `Option<string>`: `None` means the file could not be opened.
- **Interpreter calls.** What the interpreter and the callbacks do during one run is an `Invocation`: which of its steps raised which error.
- **Test function calls.** How a test function call ended is a `Call`.

### The library's own documentation and the code

Where a header comment and the code disagree, the model follows the code.

- **Module import.** System.h:34 says modules are "(re)loaded when start() is called". The code agrees: every `start()` appends every registered module to the interpreter's table again (System.cpp:13, Module.cpp:52-56). `ScriptSystems.ScriptSystem.Start` therefore grows `inittab` by one full listing per start.
- **Move assignment.** Module.h:111 says move assignment discards the current modules. The code swaps them into the manager it was assigned from instead (Module.cpp:58-63). `Modules.ModuleManager.MoveAssign` swaps.
- **Result of stop.** Scheduler.h:78 documents `true` when the scheduler was stopped. The code returns nothing on that path (see Findings). `Scheduling.Scheduler.Stop` returns the documented value.
- **Futures.** Run.h:85 says `create_future` can be called only once. A second call fails with future_already_retrieved, and `Runs.Run.CreateFuture` models that failure.
- **Duplicate file source.** `create_source_from_file` constructs the `FileSource` before it checks for a duplicate id, and an eager load reads the file at that point. So an unreadable file reports `FileLoadError` even for an id that is already registered (Source.cpp:59-63, 107-109).

`HasSource` and `HasModule` model `has_source` and `has_module`. They are predicates over the registry map, and the registry operations' contracts are stated with them. Each `Valid()` predicate is the class invariant that every method keeps, except the `Destroy` methods, which end the object's life.

## Model

| member | source | states |
|---|---|---|
| Errors.MessageIdentifiesError | Source.cpp:93-95 | Two errors whose message is a fixed label, ": " and the id have equal messages only if they are the same kind of error with the same id. |
| Errors.Error.Message | Source.cpp:93-95 | A labelled error's message is parseable: its first ':' ends the label, and ": " and the id follow. |
| Errors.FileLoadMessageIsAmbiguous | Source.cpp:51 | A FileLoadError's message does not determine its id and path. For any id, path and text in between, moving " from path " plus that text from the id to the path gives a different error with the same message. |
| Sources.Source.Buffered | Source.cpp:20-24 | A buffered source holds its id and exactly the given code, and is not a loaded file source. |
| Sources.Source.OpenFile | Source.cpp:59-63 | A deferred file source is created unloaded with an empty buffer. An eager one exists only if its file can be read, and then is loaded with the file's contents. Otherwise the constructor fails with FileLoadError(id, path). |
| Sources.Source.OpenPath | Source.cpp:67 | The path-only constructor uses the path as the id, with the same load behaviour as OpenFile: deferred, it is unloaded with an empty buffer. |
| Sources.Source.SetBuffer | Source.cpp:30-36 | The buffer becomes exactly the given code, and the loaded flag is unchanged. |
| Sources.Source.Load | Source.cpp:69-80 | A loaded source fails with AlreadyLoadedError and is unchanged. An unreadable file fails with FileLoadError and leaves the source unloaded. A readable file becomes the buffer and sets loaded. It succeeds exactly when the source was unloaded and the file readable. |
| Sources.Source.Code | Source.cpp:86-91 | The result is the buffer of an in-memory or already loaded source; only an unloaded file source is loaded first. A failed load changes nothing, and a successful one leaves the source loaded with the returned code as its buffer. |
| Sources.Source.AfterCode | Source.cpp:86-91 | The loaded flag and buffer that `code()` leaves: a successful code fetch leaves the returned code as the buffer, a file source loaded, and a failed fetch, an in-memory source or a loaded one as they were. |
| Sources.SourceManager.constructor | Source.cpp:97 | A new registry is empty. |
| Sources.SourceManager.GetSource | Source.cpp:115-126 | Succeeds exactly when the id is registered (`has_source`), and returns the reference stored under it. Otherwise it fails with NoSuchSourceError, whose message is "unknown source: " + id. |
| Sources.SourceManager.AddSource | Source.cpp:128-136 | Succeeds exactly when the source's id is not yet registered, and then adds exactly that entry. Otherwise it fails with DuplicateSourceError and the registry is unchanged. |
| Sources.SourceManager.CreateSource | Source.cpp:99-105 | A fresh in-memory source holding the code is registered under a new id and is what GetSource then returns. A taken id fails with DuplicateSourceError and changes nothing. |
| Sources.SourceManager.CreateSourceFromFile | Source.cpp:107-109 | An eager load of an unreadable file fails with FileLoadError before the registry is consulted, even for a taken id. Otherwise a taken id fails with DuplicateSourceError and changes nothing, and a new id registers a fresh file source under it. That source is loaded exactly when not deferred: a deferred one has an empty buffer, an eager one the file's contents. |
| Sources.SourceManager.CreateSourceFromPath | Source.cpp:111-113 | The same as CreateSourceFromFile, with the path as the id: the same FileLoadError first, DuplicateSourceError(path) for a taken path, and a fresh source that is loaded exactly when not deferred, with an empty buffer or the file's contents. |
| Sources.SourceManager.RemoveSource | Source.cpp:147-154 | Succeeds exactly when the id is registered, and removes only that entry. Otherwise it fails with NoSuchSourceError and the registry is unchanged. |
| Sources.SourceManager.RemoveSourceRef | Source.cpp:143-145 | Removes whatever is registered under the given source's id, with RemoveSource's failure. |
| Sources.AddThenRemoveRestores | Source.cpp:128-154 | Registering a new id and then removing it restores the registry. |
| Modules.ModuleManager.constructor | Module.cpp:20 | A new module registry is empty. |
| Modules.ModuleManager.AddModule | Module.cpp:22-42 | Requires a non-empty id and a non-null initializer. A new id (`has_module` false) registers exactly that (id, initializer) pair. A taken id fails with DuplicateModuleError ("duplicate module: " + id) and changes nothing. |
| Modules.ModuleManager.AddDefinition | Module.cpp:26-33 | The same as AddModule, for a ModuleDefinition's id and initializer. |
| Modules.ModuleManager.RemoveModule | Module.cpp:44-50 | Removes only the given id. An absent id fails with NoSuchModuleError ("no such module: " + id) and changes nothing. |
| Modules.ModuleManager.ImportModules | Module.cpp:52-56 | The entries handed to the import table list every registered (id, initializer) pair exactly once, with nothing else. The registry is only read. |
| Modules.ModuleManager.MoveAssign | Module.cpp:58-63 | Assigning another manager swaps the two registries; self-assignment changes nothing. |
| Runs.Verdict | Run.cpp:13-31 | A run that went through its steps always resolves its promise, and never with the value false. |
| Runs.SucceedsIffAllComplete | Run.cpp:15-31 | The promise holds true exactly when every step returned. |
| Runs.FailsWithFirstFailure | Run.cpp:15-28 | When a step raised an error and every earlier step returned, the promise holds that error. The later steps do not matter, because they are skipped. |
| Runs.FlagErrorAsWritten | Run.cpp:35-37 | As written, flag_error sets the promise to the escaped error and leaves `done_` as it was. Setting an already resolved promise fails with promise_already_satisfied. |
| Runs.DestroyView | Run.cpp:43-47 | A done run is left exactly as it is. A run that is not done has its promise set to RunCancelledError with the source's id, and this fails with promise_already_satisfied exactly when the promise was already resolved. |
| Runs.FlagErrorThenDestroySettlesTwice | Run.cpp:35-47 | As written, flag_error leaves `done_` false, so destroying the flagged run sets the promise a second time, which fails with promise_already_satisfied. |
| Runs.ResolvedExactlyOnce | Run.cpp:29-47 | With the corrected flag_error, every way a run can end sets the promise once and no second set is attempted. The three ways are: invoked, then destroyed; flagged, then destroyed; destroyed unrun, which cancels it with its source's id. |
| Runs.Run.constructor | Run.cpp:9 | A new run holds its source and both callbacks, is not done, and its promise is unresolved. |
| Runs.Run.Invoke | Run.cpp:11-33 | A failure taking the interpreter lock escapes and leaves the run and its source untouched. Otherwise the run is done and its promise is the Verdict of its steps (`__main__` import, before-callback, code retrieval with a lazy load, execution, after-callback). The source's code is fetched only if the earlier steps returned, and then the source ends as `Code` leaves it: an unloaded file source that can be read is loaded with the file's contents. Otherwise the source is untouched. |
| Runs.Run.FlagError | Run.cpp:35-37 | A pending run's promise is resolved with the escaped error, and the run is marked done (the corrected behaviour). |
| Runs.Run.CreateFuture | Run.cpp:39-41 | The first call returns the future of the run's promise. Every later call fails with future_already_retrieved. |
| Runs.Run.Destroy | Run.cpp:43-47 | A run that is not done resolves its promise with RunCancelledError naming its source's id. A done run keeps its promise. |
| Scheduling.StopReturnsNothingWhenItStops | Scheduler.cpp:73-92 | As written, stop returns false from its two early exits and no value on the path that stops a started scheduler, where Scheduler.h:78 documents true. The two results differ exactly on that path. |
| Scheduling.Scheduler.constructor | Scheduler.cpp:8-13 | Requires a non-zero thread count. A new scheduler has an empty queue and is stopped with no threads, or started with exactly that many workers when asked to start. |
| Scheduling.Scheduler.Start | Scheduler.cpp:15-27 | Succeeds only from STOPPED, moving to STARTED with exactly maxThreadCount running workers and the queue untouched. From STARTED or STOPPING it returns false and changes nothing. |
| Scheduling.Scheduler.Submit | Scheduler.cpp:61-71 | The run is appended at the tail of the queue in every state. The answer is true exactly when the scheduler is started. |
| Scheduling.Scheduler.WaitForNextTask | Scheduler.cpp:45-59 | When not started it hands out nothing. When started with an empty queue the worker waits. Otherwise the front run is removed and handed out, so runs leave in submission order (`taken + tasks == submitted`). |
| Scheduling.Scheduler.ExecuteStep | Scheduler.cpp:29-43 | A worker turn invokes the front run once and flags an escaped failure. The run is then destroyed and ends done with its promise resolved exactly once, to the Verdict or the escaped error. Its source ends as Invoke leaves it. Only the front run and its source can change. When the scheduler is not started the worker exits, and when nothing is taken the queue and the front run are untouched. |
| Scheduling.Scheduler.ExecuteTasks | Scheduler.cpp:29-43 | A worker's loop takes runs strictly from the front of the queue. Started, it runs as many as the queue and the given invocations allow, and its thread stays in the loop. Otherwise it runs none, and its thread leaves the loop. Each run it took ends done, its promise failed with the error that escaped its guard, or else resolved to the verdict of its steps for the code its source yielded at its turn. Only an unloaded file source without readable code yields none, and the first run's code is its source's at the start. Only the runs it took and their sources can change: the runs it did not take are untouched, and when it took none no source changed. |
| Scheduling.Scheduler.Stop | Scheduler.cpp:73-92 | Only a started scheduler stops. It ends STOPPED with no threads, and every queued run is still queued in its original order. It returns StopResult (the corrected value); from any other state it changes nothing. |
| Scheduling.Scheduler.GetState | Scheduler.cpp:94-97 | Returns the current state and changes nothing. |
| Scheduling.Scheduler.Destroy | Scheduler.cpp:99-104 | The scheduler is stopped, unless it was caught while STOPPING. Every run still queued is then destroyed unrun, so its promise is cancelled with its source's id. |
| ScriptSystems.ScriptSystem.constructor | System.cpp:6 | A new system is not running, its scheduler is stopped with the given number of workers, and its registries and queue are empty. |
| ScriptSystems.ScriptSystem.IsRunning | System.cpp:42-44 | The system is running exactly when its scheduler is started and its interpreter initialized. |
| ScriptSystems.ScriptSystem.Start | System.cpp:8-26 | A running system returns false and changes nothing. Otherwise it does three things, in that order: it appends each registered module to the import table once, initializes the interpreter and starts the scheduler. The queue is untouched. |
| ScriptSystems.ScriptSystem.Stop | System.cpp:28-40 | A system that is not running returns false and changes nothing. Otherwise it stops the scheduler, keeping the queue, then finalizes the interpreter and is no longer running. |
| ScriptSystems.ScriptSystem.ExecuteSource | System.cpp:46-50 | Exactly one fresh pending run of that source, with those callbacks, is appended to the queue, whether or not the system is running. Its future is returned. |
| ScriptSystems.ScriptSystem.ExecuteId | System.cpp:57-59 | An unregistered id fails with NoSuchSourceError and queues nothing. A registered one appends exactly one fresh pending run of the registered source, with the given callbacks, whose future has been taken. The scheduler's state and workers are unchanged. |
| ScriptSystems.ScriptSystem.Destroy | System.cpp:83-85 | The system ends stopped, and then every run left in the queue is cancelled with its source's id. |
| TestHarness.Adapt | test/Test.cpp:142-149 | The ReturningFunction wrapper returns normally on SUCCESS. Otherwise it throws a TestError. |
| TestHarness.AdaptedTestRecordsItsResult | test/Test.cpp:142-149 | A test added through the wrapper records exactly the result its function returned, and its message when it did not succeed. |
| TestHarness.MoreSevere | test/Test.cpp:79-86 | The new aggregate is one of the two results, and its numeric value is at least both of theirs. |
| TestHarness.AggregateIsMostSevere | test/Test.cpp:79-86 | The aggregate after adding a sequence of results is the most severe of its starting value and those results (SUCCESS 0 < FAILURE 1 < ERROR 99), and is one of them. |
| TestHarness.AggregateNeverDecreases | test/Test.cpp:79-86 | Adding more results never lowers the aggregate. |
| TestHarness.PassingRerunReportedAsFailed | test/Test.cpp:59-77 | As written, a test that failed and then passes on a second execution reports FAILURE again. |
| TestHarness.RunLength | test/Test.cpp:33-57 | A full run stops right after the first test whose result halts the policy, and otherwise runs every test. |
| TestHarness.RunAllRunsEverything | test/Test.cpp:50-54 | RUN_ALL_TESTS executes every test. |
| TestHarness.AbortOnErrorRunsAtLeastAsMany | test/Test.cpp:36-49 | ABORT_ON_ERROR never executes fewer tests than ABORT_ON_FAILURE. |
| TestHarness.Entry.constructor | test/Test.cpp:9 | A new entry has its name, result SUCCESS and an empty message. |
| TestHarness.Tests.constructor | test/Test.cpp:11 | A new harness has no tests, and its latest and aggregate results are SUCCESS. |
| TestHarness.Tests.Add | test/Test.cpp:13-22 | A fresh name is appended to the run order and indexed by name; the new test starts as SUCCESS with an empty message. A taken name fails with invalid_argument("duplicate test: " + name) and nothing changes. |
| TestHarness.Tests.AddResult | test/Test.cpp:79-86 | The latest result becomes the given one, and the aggregate becomes the more severe of the old aggregate and that result. |
| TestHarness.Tests.ExecuteEntry | test/Test.cpp:59-77 | The entry ends with the record of the call's outcome. A clean return first adds a SUCCESS of its own; then the recorded result is added and returned. |
| TestHarness.Tests.ExecuteName | test/Test.cpp:24-31 | An unknown name fails with invalid_argument("no test found for name: " + name) and changes nothing. A known name executes its entry: that name's record becomes the call's record, every other record is unchanged, and the result is added to the aggregate. |
| TestHarness.Tests.ExecuteAll | test/Test.cpp:33-57 | Tests run in insertion order until the policy halts the run: the first RunLength tests end with the records of their calls, and the rest are untouched. The aggregate is the old one raised by each executed result in turn, and the latest result is the last executed one (unchanged when none ran). |
| TestHarness.FirstUnknown | test/Test.cpp:162-166 | The position of the first name that is not registered: every name before it is registered, and the one at it is not. It is the length of the list when every name is registered. |
| TestHarness.Tests.ExecuteNames | test/Test.cpp:162-166 | The named tests run in argument order up to the first unknown name. That name, if any, fails with invalid_argument. The records by name are those of the names before it, replayed in order, and the aggregate is raised by their results in turn. The latest result is the last of theirs, or unchanged when none ran. |
| TestHarness.Tests.TestMain | test/Test.cpp:159-168 | With no arguments every test runs, each ends with its call's record, the aggregate is raised by every result, and the latest result is the last test's (unchanged when there are none). Otherwise the named tests run in argument order up to the first unknown name. The run fails exactly when such a name exists, with invalid_argument naming it. The records by name, the aggregate and the latest result are those after the names before it. On success the exit code is the aggregate's value (0, 1 or 99). |

## Left out

- The embedded interpreter is not modelled: GILGuard, Py_Initialize, PyEval_InitThreads, PyEval_SaveThread, PyEval_RestoreThread, Py_Finalize, PyImport_AppendInittab, `import` and `exec`. Their outcomes are inputs (`Invocation`), and the interpreter's state is a flag.
- Threads, the mutex, the condition variable, `notify_*` and `join` are not modelled. Methods run one at a time, a worker turn is an explicit call, and blocking is the `Wait` answer.
- `execute_and_wait` is left out: it only blocks on the future (`.get()`) and rethrows the stored failure.
- A worker can run and delete a run between `submit` and `create_future` in `execute`. That race is not modelled, and the future is always obtained.
- File reading (`ifstream`) is an input `Option<string>`; boost::python::str is modelled as `string`.
- Console output is not modelled: the harness's `cout` lines and `operator<<` for results.
- Memory management is not modelled: `new`/`delete`, the `ModuleDefinition` leaked by `remove_module`, and the `ModuleManager` and `Tests` destructors, which only free memory.
- The move constructor and move assignment of Scheduler, and the `ModuleManager` move constructor, are declared but not defined, so they have no behaviour to model.
- test/main.cpp is a Python-dependent scenario and is not modelled.
- The `Tests::instance()` singleton and the forwarding functions add_test(name, Function), execute_test and execute_all_tests are not modelled separately; they act on one `Tests` object.
- `done`, `fail` and `error` are the `ThrowsTestError` outcome of a call. `success()` is defined at global scope rather than as the declared `Test::success`, and is not modelled.
- The getters `loaded()`, `buffer()`, `id()`, `latest_result()` and `aggregate_result()` are fields of the model.
- Default arguments are not modelled separately; every parameter is passed explicitly. They are `worker_thread_count = 1` (System.h:44), `max_thread_count = 1` and `start = false` (Scheduler.h:47), `defer_load = false` (Source.h:187-301) and the do-nothing callbacks of `execute` (System.h:70, 82).
- `add_source(Source*)` only wraps the pointer in a shared reference, which is the same as AddSource.
- Scheduling.Scheduler.Stop: the STOPPING phase is passed through inside one call, so no other thread can observe it. Start and Submit still handle STOPPING, which their invariant allows.
- Scheduling.Scheduler.ExecuteStep: the promise is stated for the code outcome of the source at the time of the turn. A source shared with runs still queued may be loaded by the turn, so ExecuteTasks states its sources unchanged only when it ran nothing.
- Scheduling.Scheduler.ExecuteTasks: a run after the first gets the code its source yields at its own turn, which an earlier run sharing that source may have loaded. The model ties only the first run's code to the starting state, and bounds the others by what code() can yield.
- TestHarness.Adapt: an exception thrown by the wrapped function itself passes through the wrapper unchanged and is not modelled separately.

## Findings

| source | as written | input that shows it | evidently intended | confidence | as-written member | corrected member |
|---|---|---|---|---|---|---|
| Scheduler.cpp:73-92 | The path that stops a started scheduler falls off the end of a `bool` function without `return`. That is undefined behaviour, and the caller reads no defined value. | `stop()` on a started scheduler | return true, as Scheduler.h:78 documents | high, not executed | Scheduling.StopReturnsNothingWhenItStops | Scheduling.Scheduler.Stop |
| Run.cpp:35-37 | `flag_error` sets the promise but not `done_`. The run's destructor (Run.cpp:43-46) then sets it again, and `set_exception` throws promise_already_satisfied from a destructor, which terminates the program. | a run whose invocation throws outside its try block, which the worker passes to `flag_error` and then deletes | the run counts as done once flagged, so the promise is set exactly once | high, not executed | Runs.FlagErrorAsWritten, Runs.FlagErrorThenDestroySettlesTwice | Runs.Run.FlagError, Runs.ResolvedExactlyOnce |
| test/Test.cpp:59-77 | A clean return assigns neither `test.result` nor `test.message`, so the entry keeps the record of its previous execution. `add_result(test.result)` and the returned value then repeat that old result. | a test executed twice (e.g. `test_main` given its name twice) whose function throws `fail("x")` the first time and returns normally the second | a clean return records SUCCESS | medium, not executed | TestHarness.PassingRerunReportedAsFailed | TestHarness.Tests.ExecuteEntry |

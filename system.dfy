/**
 * ScriptSystem: the facade that owns a scheduler, a source registry and a
 * module registry, and brackets the interpreter's lifetime between start()
 * and stop().
 *
 * The interpreter calls (Py_Initialize, PyEval_InitThreads,
 * PyEval_SaveThread, PyEval_RestoreThread, Py_Finalize) are not modelled;
 * what they do to the system is the `interpreter` flag, and the order in
 * which start() and stop() take their steps is recorded in the ghost `log`.
 */
module ScriptSystems {
  import opened Wrappers
  import opened Errors
  import opened Sources
  import opened Modules
  import opened Runs
  import opened Scheduling

  /** The externally visible steps of start() and stop(), in the order taken. */
  datatype Event =
    | ModulesImported
    | InterpreterInitialized
    | SchedulerStarted
    | SchedulerStopped
    | InterpreterFinalized

  class ScriptSystem {
    const scheduler: Scheduler
    const sources: SourceManager
    const modules: ModuleManager
    var running: bool
    /** whether the interpreter is initialized */
    var interpreter: bool
    /** the interpreter's table of built-in modules, as this system extended it */
    var inittab: seq<Definition>
    ghost var log: seq<Event>

    ghost predicate Valid()
      reads this, scheduler, scheduler.tasks, sources
    {
      && scheduler.Valid()
      && sources.Valid()
      && (running <==> scheduler.state == Started)
      && scheduler.state != Stopping
      && interpreter == running
    }

    /**
     * ScriptSystem(worker_thread_count): a stopped scheduler with that many
     * workers (at least one), empty registries, not running.
     */
    constructor (workerThreadCount: nat)
      requires workerThreadCount > 0
      ensures Valid() && !running && !interpreter
      ensures fresh(scheduler) && fresh(sources) && fresh(modules)
      ensures scheduler.maxThreadCount == workerThreadCount && scheduler.state == Stopped
      ensures scheduler.tasks == [] && sources.sources == map[] && modules.definitions == map[]
      ensures inittab == [] && log == []
    {
      scheduler := new Scheduler(workerThreadCount, false);
      sources := new SourceManager();
      modules := new ModuleManager();
      running := false;
      interpreter := false;
      inittab := [];
      log := [];
    }

    /** is_running: exactly whether the scheduler is started. */
    function IsRunning(): (r: bool)
      requires Valid()
      reads this, scheduler, scheduler.tasks, sources
      ensures r <==> scheduler.state == Started
      ensures r <==> interpreter
    {
      running
    }

    /**
     * start: a running system is left alone. Otherwise every registered
     * module is appended to the interpreter's table, once each, on every
     * start; then the interpreter is initialized and the scheduler started.
     */
    method Start() returns (ok: bool)
      requires Valid()
      modifies this, scheduler
      ensures Valid()
      ensures ok <==> !old(running)
      ensures ok ==> running && scheduler.state == Started
      ensures ok ==> |old(inittab)| <= |inittab| && inittab[..|old(inittab)|] == old(inittab)
      ensures ok ==> ListsEachOnce(inittab[|old(inittab)|..], modules.definitions)
      ensures ok ==> |inittab| == |old(inittab)| + |modules.definitions|
      ensures ok ==> log == old(log) + [ModulesImported, InterpreterInitialized, SchedulerStarted]
      ensures scheduler.tasks == old(scheduler.tasks)
      ensures !ok ==> unchanged(this) && unchanged(scheduler)
    {
      if running {
        return false;
      }
      running := true;
      var entries := modules.ImportModules();
      ghost var table := inittab;
      inittab := inittab + entries;
      assert inittab[..|table|] == table && inittab[|table|..] == entries;
      interpreter := true;
      log := log + [ModulesImported, InterpreterInitialized];
      var started := scheduler.Start();
      log := log + [SchedulerStarted];
      ok := true;
    }

    /**
     * stop: a system that is not running is left alone. Otherwise the
     * scheduler is stopped (waiting for the workers, keeping the queue), then
     * the interpreter is finalized.
     */
    method Stop() returns (ok: bool)
      requires Valid()
      modifies this, scheduler
      ensures Valid()
      ensures ok <==> old(running)
      ensures ok ==> !running && scheduler.state == Stopped && scheduler.workers == []
      ensures ok ==> log == old(log) + [SchedulerStopped, InterpreterFinalized]
      ensures scheduler.tasks == old(scheduler.tasks) && inittab == old(inittab)
      ensures !ok ==> unchanged(this) && unchanged(scheduler)
    {
      if !running {
        return false;
      }
      var stopped := scheduler.Stop();
      log := log + [SchedulerStopped];
      interpreter := false;
      log := log + [InterpreterFinalized];
      running := false;
      ok := true;
    }

    /**
     * execute(source, before, after): exactly one new run is appended to the
     * scheduler's queue, running or not, and its future is handed back.
     */
    method ExecuteSource(source: Source, before: Callback, after: Callback) returns (future: Future)
      requires Valid()
      modifies scheduler
      ensures Valid()
      ensures fresh(future.run) && future.run.source == source
      ensures future.run.before == before && future.run.after == after
      ensures future.run.Pending() && future.run.futureRetrieved
      ensures scheduler.tasks == old(scheduler.tasks) + [future.run]
      ensures scheduler.state == old(scheduler.state) && scheduler.workers == old(scheduler.workers)
    {
      var run := new Run(source, before, after);
      var accepted := scheduler.Submit(run);
      var created := run.CreateFuture();
      future := created.value;
    }

    /**
     * execute(id, before, after): an unregistered id fails with
     * NoSuchSourceError before anything is queued; a registered one is
     * executed as its source.
     */
    method ExecuteId(id: string, before: Callback, after: Callback) returns (r: Result<Future, Error>)
      requires Valid()
      modifies scheduler
      ensures Valid()
      ensures r.Ok? <==> sources.HasSource(id)
      ensures r.Err? ==> r.error == NoSuchSourceError(id) && unchanged(scheduler)
      ensures r.Ok? ==> fresh(r.value.run) && r.value.run.source == sources.sources[id]
      ensures r.Ok? ==> r.value.run.before == before && r.value.run.after == after
      ensures r.Ok? ==> r.value.run.Pending() && r.value.run.futureRetrieved
      ensures r.Ok? ==> scheduler.tasks == old(scheduler.tasks) + [r.value.run]
      ensures scheduler.state == old(scheduler.state) && scheduler.workers == old(scheduler.workers)
    {
      var found := sources.GetSource(id);
      if found.Err? {
        return Err(found.error);
      }
      var future := ExecuteSource(found.value, before, after);
      r := Ok(future);
    }

    /**
     * The destructor: stop() if running, then the members are destroyed, the
     * scheduler cancelling every run still queued.
     */
    method Destroy()
      requires Valid()
      modifies this, scheduler, scheduler.tasks
      ensures !running && !interpreter
      ensures scheduler.state == Stopped && scheduler.workers == []
      ensures scheduler.tasks == old(scheduler.tasks)
      ensures forall i :: 0 <= i < |scheduler.tasks| ==>
        scheduler.tasks[i].promise == Failed(RunCancelledError(scheduler.tasks[i].source.id))
    {
      var stopped := Stop();
      scheduler.Destroy();
    }
  }
}

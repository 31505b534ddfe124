/**
 * Scheduler: a pool of worker threads that take runs from a FIFO queue.
 *
 * The threads are not modelled as threads. `workers` holds one flag per
 * std::thread in `threads_`, true while that thread is still inside its
 * execute_tasks loop; one turn of that loop is the method `ExecuteStep`,
 * called explicitly for a chosen worker. Blocking on the condition variable
 * is the `Wait` answer of a turn, which changes nothing. The mutex is not
 * needed: every method runs to completion before another starts.
 */
module Scheduling {
  import opened Wrappers
  import opened Errors
  import opened Sources
  import opened Runs

  datatype State = Started | Stopping | Stopped

  /**
   * A run a worker has finished under `inv`, its code() having yielded
   * `code`: done, and resolved to the error that escaped the guard, or else
   * to the verdict of its steps. Only a file source that was not loaded and
   * could not be read yields no code.
   */
  ghost predicate Finished(run: Run, inv: Invocation, code: Result<string, Error>)
    reads run
  {
    && run.done && run.Valid()
    && (inv.guard.Raised? ==> run.promise == Failed(inv.guard.error))
    && (inv.guard.Completed? ==> run.promise == Verdict(Steps(inv, code)))
    && (code.Err? ==>
          inv.read.None? && run.source.origin.File? &&
          code.error == FileLoadError(run.source.id, run.source.origin.path))
  }

  /** What a worker's call to wait_for_next_task yields. */
  datatype Next =
    | Task(run: Run)
      /** the queue is empty: the worker blocks on the condition variable */
    | Wait
      /** the scheduler is not started: null, and the worker returns */
    | Quit

  /**
   * The value `stop()` produces as written: `false` from the two early
   * returns, and none at all (the function falls off its end, which is
   * undefined behaviour for a `bool` function) when it did stop.
   */
  function StopResultAsWritten(s: State): Option<bool>
  {
    if !s.Started? then Some(false) else None
  }

  /** The value `stop()` is documented to return: whether it stopped. */
  function StopResult(s: State): bool
  {
    s.Started?
  }

  /** On the one path that does stop the scheduler, the written code returns no value. */
  lemma StopReturnsNothingWhenItStops()
    ensures StopResult(Started)
    ensures StopResultAsWritten(Started) != Some(StopResult(Started))
    ensures forall s: State :: !s.Started? ==> StopResultAsWritten(s) == Some(StopResult(s))
  {
  }

  class Scheduler {
    const maxThreadCount: nat
    var state: State
    /** threads_: whether each thread is still running its execute_tasks loop */
    var workers: seq<bool>
    /** tasks_, front first */
    var tasks: seq<Run>
    /** every run ever submitted, in submission order */
    ghost var submitted: seq<Run>
    /** every run a worker has taken off the queue, in the order taken */
    ghost var taken: seq<Run>

    ghost predicate Valid()
      reads this, tasks
    {
      && maxThreadCount > 0
      && (state.Stopped? ==> workers == [])
      && (!state.Stopped? ==> |workers| == maxThreadCount)
      && (state.Started? ==> forall w :: 0 <= w < |workers| ==> workers[w])
      && (forall i, j :: 0 <= i < j < |tasks| ==> tasks[i] != tasks[j])
      && (forall i :: 0 <= i < |tasks| ==> tasks[i].Pending())
      && taken + tasks == submitted
    }

    /**
     * Scheduler(max_thread_count, start): the thread count must be non-zero;
     * the scheduler is stopped with an empty queue, then started if asked.
     */
    constructor (maxThreadCount: nat, startAfterInit: bool)
      requires maxThreadCount > 0
      ensures Valid() && this.maxThreadCount == maxThreadCount
      ensures tasks == [] && submitted == [] && taken == []
      ensures startAfterInit ==> state == Started && workers == seq(maxThreadCount, _ => true)
      ensures !startAfterInit ==> state == Stopped && workers == []
    {
      this.maxThreadCount := maxThreadCount;
      state := Stopped;
      workers := [];
      tasks := [];
      submitted := [];
      taken := [];
      new;
      if startAfterInit {
        var started := Start();
      }
    }

    /**
     * start: only a stopped scheduler starts; it creates exactly
     * `maxThreadCount` workers. A started or stopping one is left as it is.
     */
    method Start() returns (ok: bool)
      requires Valid()
      modifies this
      ensures Valid()
      ensures ok <==> old(state) == Stopped
      ensures ok ==> state == Started && workers == seq(maxThreadCount, _ => true)
      ensures ok ==> tasks == old(tasks) && submitted == old(submitted) && taken == old(taken)
      ensures !ok ==> unchanged(this)
    {
      if state != Stopped {
        return false;
      }
      state := Started;
      var threads := workers;
      var i := 0;
      while i < maxThreadCount
        invariant 0 <= i <= maxThreadCount
        invariant threads == seq(i, _ => true)
      {
        threads := threads + [true];
        i := i + 1;
      }
      workers := threads;
      ok := true;
    }

    /**
     * submit: the run is appended to the queue in every state; the answer
     * says whether the scheduler is started. The scheduler takes ownership,
     * so the run must be pending and not queued already.
     */
    method Submit(task: Run) returns (accepted: bool)
      requires Valid() && task.Pending() && task !in tasks
      modifies this
      ensures Valid()
      ensures accepted <==> state == Started
      ensures tasks == old(tasks) + [task] && submitted == old(submitted) + [task]
      ensures state == old(state) && workers == old(workers) && taken == old(taken)
    {
      tasks := tasks + [task];
      submitted := submitted + [task];
      accepted := state == Started;
    }

    /**
     * wait_for_next_task: a scheduler that is not started hands out nothing;
     * a started one hands out the front of the queue, or makes the worker
     * wait when the queue is empty.
     */
    method WaitForNextTask() returns (next: Next)
      requires Valid()
      modifies this
      ensures Valid()
      ensures next.Quit? <==> old(state) != Started
      ensures next.Wait? <==> old(state) == Started && old(tasks) == []
      ensures next.Task? ==> old(tasks) != [] && next.run == old(tasks[0]) && next.run.Pending()
      ensures next.Task? ==> tasks == old(tasks[1..]) && taken == old(taken) + [next.run]
      ensures !next.Task? ==> tasks == old(tasks) && taken == old(taken)
      ensures state == old(state) && workers == old(workers) && submitted == old(submitted)
    {
      if state != Started {
        return Quit;
      }
      if tasks == [] {
        return Wait;
      }
      next := Task(tasks[0]);
      taken := taken + [tasks[0]];
      tasks := tasks[1..];
    }

    /**
     * One turn of worker `w`'s execute_tasks loop. A task taken off the
     * queue is invoked; a failure escaping the invocation is routed to
     * flag_error; then the run is destroyed, which leaves its promise as it
     * is, since by then the run is done. When the scheduler is not started
     * the worker leaves its loop.
     */
    method ExecuteStep(w: nat, inv: Invocation) returns (next: Next)
      requires Valid() && w < |workers| && workers[w]
      modifies this, set i | 0 <= i < |tasks| && i < 1 :: tasks[i]
      modifies set i | 0 <= i < |tasks| && i < 1 :: tasks[i].source
      ensures Valid()
      ensures next.Quit? <==> old(state) != Started
      ensures next.Quit? ==> workers == old(workers)[w := false] && tasks == old(tasks)
      ensures !next.Quit? ==> workers == old(workers)
      ensures next.Wait? <==> old(state) == Started && old(tasks) == []
      ensures next.Task? ==> next.run == old(tasks[0]) && tasks == old(tasks[1..])
      ensures next.Task? ==> taken == old(taken) + [next.run]
      ensures next.Task? ==> next.run.done && next.run.Valid()
      ensures next.Task? && inv.guard.Raised? ==> next.run.promise == Failed(inv.guard.error)
      ensures next.Task? && inv.guard.Completed? ==>
        next.run.promise == Verdict(Steps(inv, old(next.run.source.CodeOutcome(inv.read))))
      ensures next.Task? && ReachesCode(inv) ==>
        (next.run.source.loaded, next.run.source.buffer) == old(next.run.source.AfterCode(inv.read))
      ensures next.Task? && !ReachesCode(inv) ==> unchanged(next.run.source)
      ensures next.Task? ==> next.run.futureRetrieved == old(next.run.futureRetrieved)
      ensures !next.Task? ==> tasks == old(tasks) && taken == old(taken)
      ensures !next.Task? && old(tasks) != [] ==> unchanged(old(tasks[0])) && unchanged(old(tasks[0].source))
      ensures state == old(state) && submitted == old(submitted)
    {
      next := WaitForNextTask();
      match next
      case Quit =>
        workers := workers[w := false];
      case Wait =>
      case Task(run) =>
        var escaped := run.Invoke(inv);
        if escaped.Some? {
          run.FlagError(escaped.value);
        }
        run.Destroy();
        assert forall i :: 0 <= i < |tasks| ==> tasks[i] == old(tasks)[i + 1] && tasks[i] != run;
    }

    /**
     * Where the loop of ExecuteTasks stands after `ran` turns that each took
     * a run: the first `ran` of the runs `queued` at the start have left the
     * queue, in order, each finished under its invocation.
     */
    ghost predicate TookFirst(queued: seq<Run>, before: seq<Run>, invs: seq<Invocation>, ran: nat, codes: seq<Result<string, Error>>)
      reads this, tasks, queued
    {
      && Valid() && ran <= |invs| && ran <= |queued|
      && tasks == queued[ran..] && taken == before + queued[..ran]
      && |codes| == ran
      && (forall i :: 0 <= i < ran ==> Finished(queued[i], invs[i], codes[i]))
    }

    /**
     * One turn of the loop of ExecuteTasks. This is ExecuteStep again, not a
     * further operation of the scheduler: its contract restates ExecuteStep's
     * as the loop's progress only so that the loop's proof stays small.
     * `code` is what the run's code() yields.
     */
    method TakeTurn(w: nat, invs: seq<Invocation>, ran: nat, ghost queued: seq<Run>, ghost before: seq<Run>,
                    ghost codes: seq<Result<string, Error>>)
      returns (next: Next, ghost code: Result<string, Error>)
      requires TookFirst(queued, before, invs, ran, codes) && ran < |invs|
      requires w < |workers| && workers[w]
      modifies this, set i | 0 <= i < |tasks| && i < 1 :: tasks[i]
      modifies set i | 0 <= i < |tasks| && i < 1 :: tasks[i].source
      ensures state == old(state) && submitted == old(submitted)
      ensures workers == if old(state) != Started then old(workers)[w := false] else old(workers)
      ensures next.Task? <==> old(state) == Started && old(tasks) != []
      ensures next.Task? ==> TookFirst(queued, before, invs, ran + 1, codes + [code])
      ensures next.Task? ==> code == old(tasks[0].source.CodeOutcome(invs[ran].read))
      ensures !next.Task? ==> TookFirst(queued, before, invs, ran, codes)
      ensures !next.Task? && old(tasks) != [] ==> unchanged(old(tasks[0])) && unchanged(old(tasks[0].source))
      ensures forall i :: 1 <= i < |old(tasks)| ==> unchanged(old(tasks)[i])
    {
      code := if tasks == [] then Ok("") else tasks[0].source.CodeOutcome(invs[ran].read);
      next := ExecuteStep(w, invs[ran]);
      if next.Task? {
        assert queued[..ran + 1] == queued[..ran] + [next.run];
        assert forall i :: 0 <= i < ran ==> queued[i] != next.run;
      }
    }

    /**
     * execute_tasks for worker `w`, run until the worker would block or leave
     * its loop, with `invs` saying how each successive invocation goes. The
     * runs are taken strictly from the front of the queue, so in submission
     * order; `codes` are what their code() yielded, each at its turn.
     */
    method ExecuteTasks(w: nat, invs: seq<Invocation>) returns (ran: nat, ghost codes: seq<Result<string, Error>>)
      requires Valid() && w < |workers| && workers[w]
      modifies this, set i | 0 <= i < |tasks| && i < |invs| :: tasks[i]
      modifies set i | 0 <= i < |tasks| && i < |invs| :: tasks[i].source
      ensures Valid()
      ensures ran <= |invs| && ran <= |old(tasks)|
      ensures old(state) == Started ==> ran == if |invs| < |old(tasks)| then |invs| else |old(tasks)|
      ensures old(state) != Started ==> ran == 0
      ensures tasks == old(tasks)[ran..] && taken == old(taken) + old(tasks)[..ran]
      ensures |codes| == ran && forall i :: 0 <= i < ran ==> Finished(old(tasks)[i], invs[i], codes[i])
      ensures ran > 0 ==> codes[0] == old(tasks[0].source.CodeOutcome(invs[0].read))
      ensures workers == if old(state) != Started && invs != [] then old(workers)[w := false] else old(workers)
      ensures forall i :: ran <= i < |old(tasks)| ==> unchanged(old(tasks)[i])
      ensures ran == 0 ==> forall i :: 0 <= i < |old(tasks)| ==> unchanged(old(tasks)[i].source)
      ensures state == old(state) && submitted == old(submitted)
    {
      ran, codes := 0, [];
      while ran < |invs|
        invariant TookFirst(old(tasks), old(taken), invs, ran, codes)
        invariant state == old(state) && submitted == old(submitted) && workers == old(workers)
        invariant state != Started ==> ran == 0
        invariant ran > 0 ==> codes[0] == old(tasks[0].source.CodeOutcome(invs[0].read))
        invariant forall i :: ran <= i < |old(tasks)| ==> unchanged(old(tasks)[i])
        invariant ran == 0 ==> forall i :: 0 <= i < |old(tasks)| ==> unchanged(old(tasks)[i].source)
        decreases |invs| - ran
      {
        var next, code := TakeTurn(w, invs, ran, old(tasks), old(taken), codes);
        if !next.Task? {
          break;
        }
        ran, codes := ran + 1, codes + [code];
      }
    }

    /**
     * stop: only a started scheduler stops. It passes through STOPPING, in
     * which every worker's next wait_for_next_task returns null so that the
     * joins complete, and ends STOPPED with no threads and the queue as it
     * was, ready for a later start. Corrected to return true when it stops
     * (see StopResultAsWritten).
     */
    method Stop() returns (ok: bool)
      requires Valid()
      modifies this
      ensures Valid()
      ensures ok == StopResult(old(state))
      ensures ok ==> state == Stopped && workers == []
      ensures ok ==> tasks == old(tasks) && submitted == old(submitted) && taken == old(taken)
      ensures !ok ==> unchanged(this)
    {
      if state != Started {
        return false;
      }
      state := Stopping;
      // every worker leaves its loop in STOPPING and is joined; the joins
      // leave nothing behind once the thread list is cleared
      workers := [];
      state := Stopped;
      ok := true;
    }

    /** state(): the current state, read without changing anything. */
    method GetState() returns (s: State)
      ensures s == state
    {
      s := state;
    }

    /**
     * The destructor: stops the scheduler, then destroys every run still
     * queued, so each one's promise ends cancelled with its source's id. A
     * scheduler caught while STOPPING is not stopped by it: its stop()
     * returns false at once.
     */
    method Destroy()
      requires Valid()
      modifies this, tasks
      ensures old(state) != Stopping ==> state == Stopped && workers == []
      ensures old(state) == Stopping ==> state == Stopping && workers == old(workers)
      ensures tasks == old(tasks)
      ensures forall i :: 0 <= i < |tasks| ==>
        !tasks[i].done && tasks[i].promise == Failed(RunCancelledError(tasks[i].source.id))
    {
      var stopped := Stop();
      var queued, final, threads := tasks, state, workers;
      var i := 0;
      while i < |queued|
        invariant queued == tasks == old(tasks)
        invariant state == final && workers == threads
        invariant 0 <= i <= |queued|
        invariant forall j :: 0 <= j < i ==>
          !queued[j].done && queued[j].promise == Failed(RunCancelledError(queued[j].source.id))
        invariant forall j :: i <= j < |queued| ==> queued[j].Pending()
      {
        queued[i].Destroy();
        i := i + 1;
      }
    }
  }
}

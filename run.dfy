/**
 * Run: one scheduled execution of a script source between a before- and an
 * after-callback, with the promise that reports its result to the submitter.
 *
 * The embedded interpreter is not modelled. What the foreign calls do during
 * one invocation (taking the interpreter lock, the two callbacks, executing
 * the code) is given as an `Invocation`; only the retrieval of the code from
 * the source is performed, since it may load a file source lazily.
 */
module Runs {
  import opened Wrappers
  import opened Errors
  import opened Sources

  /** The shared state behind a std::promise<bool> and its future. */
  datatype Promise = Unresolved | Value(v: bool) | Failed(error: Error)

  /** One step of a run: it returned, or it threw `error`. */
  datatype Step = Completed | Raised(error: Error)

  /** What the foreign calls did during one invocation of a run. */
  datatype Invocation = Invocation(
    /** acquiring the interpreter lock, outside the try block */
    guard: Step,
    /** importing `__main__` and taking its dictionary as the globals */
    main: Step,
    before: Step,
    /** the source's file, should `code()` have to load it */
    read: Option<string>,
    /** executing the code with those globals and fresh locals */
    exec: Step,
    after: Step)

  /** The error of the first step that raised one. */
  function FirstFailure(steps: seq<Step>): Option<Error>
  {
    if steps == [] then None
    else if steps[0].Raised? then Some(steps[0].error)
    else FirstFailure(steps[1..])
  }

  /**
   * How a run that went through `steps` resolves its promise: with the first
   * failure, or with `true` when none failed. Never with `false`.
   */
  function Verdict(steps: seq<Step>): (p: Promise)
    ensures !p.Unresolved? && p != Value(false)
  {
    match FirstFailure(steps)
    case None => Value(true)
    case Some(e) => Failed(e)
  }

  lemma {:induction false} SucceedsIffAllComplete(steps: seq<Step>)
    ensures Verdict(steps) == Value(true) <==> forall i :: 0 <= i < |steps| ==> steps[i].Completed?
  {
    if steps != [] {
      SucceedsIffAllComplete(steps[1..]);
      if steps[0].Completed? {
        assert forall i :: 1 <= i < |steps| ==> steps[i] == steps[1..][i - 1];
      }
    }
  }

  lemma {:induction false} FailsWithFirstFailure(steps: seq<Step>, k: nat)
    requires k < |steps| && steps[k].Raised?
    requires forall i :: 0 <= i < k ==> steps[i].Completed?
    ensures Verdict(steps) == Failed(steps[k].error)
  {
    if k > 0 {
      FailsWithFirstFailure(steps[1..], k - 1);
    }
  }

  function StepOf(code: Result<string, Error>): Step
  {
    match code
    case Ok(_) => Completed
    case Err(e) => Raised(e)
  }

  /**
   * The steps inside the try block, in order: the `__main__` import, the
   * before-callback, the code retrieval, the execution, the after-callback.
   */
  function Steps(inv: Invocation, code: Result<string, Error>): seq<Step>
  {
    [inv.main, inv.before, StepOf(code), inv.exec, inv.after]
  }

  /**
   * Whether an invocation gets as far as fetching the code: the lock, the
   * `__main__` import and the before-callback all returned.
   */
  predicate ReachesCode(inv: Invocation)
  {
    inv.guard.Completed? && inv.main.Completed? && inv.before.Completed?
  }

  /** A std::function callback, identified by the object that holds it. */
  type Callback = nat

  /** The std::future<bool> handed to the submitter: it observes the run's promise. */
  datatype Future = Future(run: Run)

  /** The observable state of a run: its `done_` flag and its promise. */
  datatype RunView = RunView(done: bool, promise: Promise)

  /**
   * std::promise::set_value and set_exception: only an unresolved promise can
   * be set; setting it again throws future_error(promise_already_satisfied).
   */
  function Settle(p: Promise, to: Promise): Result<Promise, Error>
    requires !to.Unresolved?
  {
    if p.Unresolved? then Ok(to) else Err(PromiseAlreadySatisfied)
  }

  /** The destructor: a run that never completed is cancelled. */
  function DestroyView(v: RunView, id: string): (r: Result<RunView, Error>)
    ensures r.Err? <==> !v.done && !v.promise.Unresolved?
    ensures r.Err? ==> r.error == PromiseAlreadySatisfied
    ensures r.Ok? ==> r.value.done == v.done && (v.done ==> r.value == v)
    ensures r.Ok? && !v.done ==> r.value.promise == Failed(RunCancelledError(id))
  {
    if v.done then Ok(v)
    else match Settle(v.promise, Failed(RunCancelledError(id)))
      case Ok(p) => Ok(RunView(v.done, p))
      case Err(e) => Err(e)
  }

  /** flag_error as written: the promise is set, `done_` is left false. */
  function FlagErrorAsWritten(v: RunView, e: Error): (r: Result<RunView, Error>)
    ensures r.Err? <==> !v.promise.Unresolved?
    ensures r.Ok? ==> r.value.promise == Failed(e) && r.value.done == v.done
  {
    match Settle(v.promise, Failed(e))
    case Ok(p) => Ok(RunView(v.done, p))
    case Err(x) => Err(x)
  }

  /** flag_error as intended: the promise is set and the run counts as done. */
  function FlagErrorView(v: RunView, e: Error): Result<RunView, Error>
  {
    match Settle(v.promise, Failed(e))
    case Ok(p) => Ok(RunView(true, p))
    case Err(x) => Err(x)
  }

  /**
   * As written, a run whose invocation escaped is resolved twice: once by
   * flag_error and again by its destructor, whose set_exception then throws
   * out of a destructor.
   */
  lemma FlagErrorThenDestroySettlesTwice(e: Error, id: string)
    ensures FlagErrorAsWritten(RunView(false, Unresolved), e) == Ok(RunView(false, Failed(e)))
    ensures DestroyView(RunView(false, Failed(e)), id) == Err(PromiseAlreadySatisfied)
  {
  }

  /**
   * With flag_error marking the run done, each way a run can end sets its
   * promise exactly once and no set fails: completed by the worker, escaped
   * and flagged by the worker, or destroyed while still queued.
   */
  lemma ResolvedExactlyOnce(inv: Invocation, code: Result<string, Error>, id: string)
    ensures var ran := RunView(true, Verdict(Steps(inv, code)));
      DestroyView(ran, id) == Ok(ran)
    ensures inv.guard.Raised? ==>
      var flagged := RunView(true, Failed(inv.guard.error));
        FlagErrorView(RunView(false, Unresolved), inv.guard.error) == Ok(flagged) &&
        DestroyView(flagged, id) == Ok(flagged)
    ensures DestroyView(RunView(false, Unresolved), id) == Ok(RunView(false, Failed(RunCancelledError(id))))
  {
  }

  class Run {
    const source: Source
    const before: Callback
    const after: Callback
    var done: bool
    var promise: Promise
    var futureRetrieved: bool

    /** Resolved exactly when done: the promise is never set twice. */
    ghost predicate Valid()
      reads this
    {
      done <==> !promise.Unresolved?
    }

    /** Queued and not yet run: what the scheduler's queue holds. */
    predicate Pending()
      reads this
    {
      !done && promise.Unresolved?
    }

    function View(): RunView
      reads this
    {
      RunView(done, promise)
    }

    constructor (source: Source, before: Callback, after: Callback)
      ensures this.source == source && this.before == before && this.after == after
      ensures Pending() && Valid() && !futureRetrieved
    {
      this.source := source;
      this.before := before;
      this.after := after;
      done := false;
      promise := Unresolved;
      futureRetrieved := false;
    }

    /**
     * operator(): under the interpreter lock, import `__main__`, run the
     * before-callback, fetch and execute the code, run the after-callback;
     * the first failure skips
     * the rest and resolves the promise with it, otherwise it resolves with
     * `true`; `done_` is set either way. A failure while taking the lock
     * escapes to the caller and leaves the run untouched.
     */
    method Invoke(inv: Invocation) returns (escaped: Option<Error>)
      requires Pending()
      modifies this, source
      ensures source.Valid() == old(source.Valid()) && futureRetrieved == old(futureRetrieved)
      ensures inv.guard.Raised? ==> escaped == Some(inv.guard.error) && unchanged(this) && unchanged(source)
      ensures inv.guard.Completed? ==> escaped.None? && done && Valid()
      ensures inv.guard.Completed? ==> promise == Verdict(Steps(inv, old(source.CodeOutcome(inv.read))))
      ensures ReachesCode(inv) ==> (source.loaded, source.buffer) == old(source.AfterCode(inv.read))
      ensures !ReachesCode(inv) ==> unchanged(source)
    {
      if inv.guard.Raised? {
        return Some(inv.guard.error);
      }
      ghost var steps := Steps(inv, source.CodeOutcome(inv.read));
      ghost var failed: nat := 0;
      var result := false;
      var failure: Option<Error> := None;
      if inv.main.Raised? {
        failure := Some(inv.main.error);
      } else if inv.before.Raised? {
        failure, failed := Some(inv.before.error), 1;
      } else {
        var fetched := source.Code(inv.read);
        if fetched.Err? {
          failure, failed := Some(fetched.error), 2;
        } else if inv.exec.Raised? {
          failure, failed := Some(inv.exec.error), 3;
        } else if inv.after.Raised? {
          failure, failed := Some(inv.after.error), 4;
        } else {
          result := true;
        }
      }
      if failure.Some? {
        FailsWithFirstFailure(steps, failed);
        promise := Failed(failure.value);
      }
      if result {
        SucceedsIffAllComplete(steps);
        promise := Value(true);
      }
      done := true;
      escaped := None;
    }

    /** flag_error, corrected to mark the run done (see FlagErrorAsWritten). */
    method FlagError(e: Error)
      requires Pending()
      modifies this
      ensures Valid() && done && promise == Failed(e)
      ensures FlagErrorView(old(View()), e) == Ok(View())
      ensures futureRetrieved == old(futureRetrieved)
    {
      promise := Failed(e);
      done := true;
    }

    /** create_future: succeeds once; a second call fails with future_already_retrieved. */
    method CreateFuture() returns (r: Result<Future, Error>)
      modifies this
      ensures old(futureRetrieved) ==> r == Err(FutureAlreadyRetrieved)
      ensures !old(futureRetrieved) ==> r == Ok(Future(this))
      ensures futureRetrieved && done == old(done) && promise == old(promise)
    {
      if futureRetrieved {
        return Err(FutureAlreadyRetrieved);
      }
      futureRetrieved := true;
      r := Ok(Future(this));
    }

    /**
     * The destructor: a run that never completed resolves its promise with a
     * RunCancelledError naming its source; a completed one is left alone.
     */
    method Destroy()
      requires Valid()
      modifies this
      ensures DestroyView(old(View()), source.id) == Ok(View())
      ensures !old(done) ==> promise == Failed(RunCancelledError(source.id))
      ensures old(done) ==> promise == old(promise)
      ensures !promise.Unresolved? && done == old(done) && futureRetrieved == old(futureRetrieved)
    {
      if !done {
        promise := Failed(RunCancelledError(source.id));
      }
    }
  }
}

/**
 * The exception types of the script system (ScriptError and its subclasses
 * SourceError, ModuleError and RunCancelledError), folded into one datatype.
 * Each constructor keeps the fields its C++ class exposes (`id()`, `path()`);
 * `Message()` is the `what()` string the constructor builds.
 */
module Errors {

  datatype Error =
    | FileLoadError(id: string, path: string)
    | AlreadyLoadedError(id: string)
    | DuplicateSourceError(id: string)
    | NoSuchSourceError(id: string)
    | RunCancelledError(id: string)
    | DuplicateModuleError(id: string)
    | NoSuchModuleError(id: string)
      /** A Python exception raised by the script (boost::python::error_already_set). */
    | PythonError(description: string)
      /** Any other exception thrown by a callback, with its `what()`. */
    | CallbackError(what: string)
      /** std::future_error with code future_already_retrieved. */
    | FutureAlreadyRetrieved
      /** std::future_error with code promise_already_satisfied. */
    | PromiseAlreadySatisfied
  {
    /** The errors whose message is a fixed label, ": " and the id. */
    predicate Labelled() {
      AlreadyLoadedError? || DuplicateSourceError? || NoSuchSourceError? ||
      RunCancelledError? || DuplicateModuleError? || NoSuchModuleError?
    }

    function Label(): string
      requires Labelled()
    {
      match this
      case AlreadyLoadedError(_) => "script already loaded"
      case DuplicateSourceError(_) => "duplicate source"
      case NoSuchSourceError(_) => "unknown source"
      case RunCancelledError(_) => "script run cancelled"
      case DuplicateModuleError(_) => "duplicate module"
      case NoSuchModuleError(_) => "no such module"
    }

    /**
     * The `what()` text. A labelled error's message is parseable: its first
     * ':' ends the label, and ": " and the id follow.
     */
    function Message(): (m: string)
      ensures Labelled() ==> ColonIndex(m) == |Label()| && m[|Label()|..] == ": " + id
    {
      match this
      case FileLoadError(id, path) => "unable to load script " + id + " from path " + path
      case PythonError(description) => description
      case CallbackError(what) => what
      case FutureAlreadyRetrieved => "future already retrieved"
      case PromiseAlreadySatisfied => "promise already satisfied"
      case _ =>
        LabelHasNoColon(this);
        ColonIndexAfterLabel(Label(), id);
        assert (Label() + ": " + id)[|Label()|..] == ": " + id;
        Label() + ": " + id
    }
  }

  /** Position of the first ':' in `s`, or `|s|` when there is none. */
  function ColonIndex(s: string): (k: nat)
    ensures k <= |s|
    ensures forall i :: 0 <= i < k ==> s[i] != ':'
    ensures k < |s| ==> s[k] == ':'
  {
    if s == [] then 0 else if s[0] == ':' then 0 else 1 + ColonIndex(s[1..])
  }

  lemma {:induction false} ColonIndexAfterLabel(name: string, rest: string)
    requires forall i :: 0 <= i < |name| ==> name[i] != ':'
    ensures ColonIndex(name + ": " + rest) == |name|
  {
    if name != [] {
      assert (name + ": " + rest)[1..] == name[1..] + ": " + rest;
      ColonIndexAfterLabel(name[1..], rest);
    }
  }

  lemma LabelHasNoColon(e: Error)
    requires e.Labelled()
    ensures forall i :: 0 <= i < |e.Label()| ==> e.Label()[i] != ':'
  {
  }

  /** Distinct kinds of labelled error have distinct labels. */
  lemma LabelDeterminesKind(e1: Error, e2: Error)
    requires e1.Labelled() && e2.Labelled()
    requires e1.Label() == e2.Label()
    ensures e1.id == e2.id ==> e1 == e2
  {
    match e1
    case AlreadyLoadedError(_) =>
    case DuplicateSourceError(_) => assert e1.Label()[10] == 's';
    case NoSuchSourceError(_) => assert e1.Label()[0] == 'u';
    case RunCancelledError(_) =>
    case DuplicateModuleError(_) => assert e1.Label()[10] == 'm';
    case NoSuchModuleError(_) => assert e1.Label()[0] == 'n';
  }

  /**
   * A labelled error's message names both its kind and its id: two labelled
   * errors with the same message are the same error.
   */
  lemma MessageIdentifiesError(e1: Error, e2: Error)
    requires e1.Labelled() && e2.Labelled()
    requires e1.Message() == e2.Message()
    ensures e1 == e2
  {
    var m := e1.Message();
    var l1, l2 := e1.Label(), e2.Label();
    assert m == l1 + ": " + e1.id && m == l2 + ": " + e2.id;
    LabelHasNoColon(e1);
    LabelHasNoColon(e2);
    ColonIndexAfterLabel(l1, e1.id);
    ColonIndexAfterLabel(l2, e2.id);
    assert |l1| == |l2|;
    assert l1 == m[..|l1|] == l2;
    assert e1.id == m[|l1| + 2..] == e2.id;
    LabelDeterminesKind(e1, e2);
  }

  /**
   * A FileLoadError's message does not determine its id and path: any id
   * that itself contains " from path " collides with a shorter id and a
   * longer path. The two are only recoverable through `id()` and `path()`.
   */
  lemma FileLoadMessageIsAmbiguous(id: string, middle: string, path: string)
    ensures FileLoadError(id + " from path " + middle, path).Message()
         == FileLoadError(id, middle + " from path " + path).Message()
    ensures FileLoadError(id + " from path " + middle, path) != FileLoadError(id, middle + " from path " + path)
  {
    var sep := " from path ";
    assert |id + sep + middle| > |id|;
    assert "unable to load script " + (id + sep + middle) + sep + path
        == "unable to load script " + id + sep + (middle + sep + path);
  }
}

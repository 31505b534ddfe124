/**
 * The unit-test harness: an ordered registry of named test functions, the
 * per-test and aggregate results, the three abort policies of a full run,
 * and the command-line entry point.
 *
 * A test function is not modelled as code: each execution takes, as a
 * `Call`, how that call of the function ended. Console output is not
 * modelled.
 */
module TestHarness {
  import opened Wrappers

  /** Test::Result, with its numeric values. */
  datatype TestResult = Success | Failure | Error
  {
    function Value(): int {
      match this
      case Success => 0
      case Failure => 1
      case Error => 99
    }
  }

  /** What a ReturningFunction returns. */
  datatype FunctionResult = FunctionResult(result: TestResult, message: string)

  /** How one call of a test function ended. */
  datatype Call =
    | Returns
      /** a TestError, as thrown by done(), fail() and error() */
    | ThrowsTestError(result: TestResult, message: string)
      /** any other std::exception, with its what() */
    | ThrowsException(what: string)
      /** anything else that was thrown */
    | ThrowsUnknown

  datatype AbortPolicy = AbortOnFailure | AbortOnError | RunAllTests

  /** std::invalid_argument with its message. */
  datatype HarnessError = InvalidArgument(what: string)

  /** The invalid_argument that execute(name) throws for an unknown name. */
  function UnknownTest(name: string): HarnessError
  {
    InvalidArgument("no test found for name: " + name)
  }

  /** A test's recorded result and message. */
  datatype Record = Record(result: TestResult, message: string)

  /**
   * The wrapper add_test(name, ReturningFunction) registers: a non-success
   * FunctionResult is rethrown as a TestError carrying the same result and
   * message; a success returns normally. An exception thrown by the function
   * itself passes through the wrapper unchanged.
   */
  function Adapt(fr: FunctionResult): (c: Call)
    ensures c.Returns? || c.ThrowsTestError?
  {
    if fr.result != Success then ThrowsTestError(fr.result, fr.message) else Returns
  }

  /** add_result's choice of aggregate: the new result when its value is larger. */
  function MoreSevere(aggregate: TestResult, result: TestResult): (r: TestResult)
    ensures r == aggregate || r == result
    ensures r.Value() >= aggregate.Value() && r.Value() >= result.Value()
  {
    if aggregate.Value() < result.Value() then result else aggregate
  }

  /** The aggregate after `results` are added, in order, to one that stood at `start`. */
  function Aggregated(start: TestResult, results: seq<TestResult>): TestResult
  {
    if results == [] then start
    else MoreSevere(Aggregated(start, results[..|results| - 1]), results[|results| - 1])
  }

  /** The latest result after `results` are added, in order, to one that stood at `start`. */
  function Latest(start: TestResult, results: seq<TestResult>): TestResult
  {
    if results == [] then start else results[|results| - 1]
  }

  /**
   * The aggregate is the most severe of its starting value and every result
   * added since, and is one of them.
   */
  lemma {:induction false} AggregateIsMostSevere(start: TestResult, results: seq<TestResult>)
    ensures start.Value() <= Aggregated(start, results).Value()
    ensures forall i :: 0 <= i < |results| ==> results[i].Value() <= Aggregated(start, results).Value()
    ensures Aggregated(start, results) == start || Aggregated(start, results) in results
  {
    if results != [] {
      var init := results[..|results| - 1];
      AggregateIsMostSevere(start, init);
      assert forall i :: 0 <= i < |init| ==> results[i] == init[i];
    }
  }

  /** Adding results never lowers the aggregate. */
  lemma {:induction false} AggregateNeverDecreases(start: TestResult, earlier: seq<TestResult>, later: seq<TestResult>)
    ensures Aggregated(start, earlier).Value() <= Aggregated(start, earlier + later).Value()
  {
    if later != [] {
      var init := later[..|later| - 1];
      var all := earlier + later;
      assert all[..|all| - 1] == earlier + init;
      assert Aggregated(start, all) == MoreSevere(Aggregated(start, earlier + init), all[|all| - 1]);
      AggregateNeverDecreases(start, earlier, init);
    } else {
      assert earlier + later == earlier;
    }
  }

  /**
   * What execute(Entry&) records for a call, with the clean return corrected
   * to record SUCCESS and an empty message (see RecordedAsWritten).
   */
  function Recorded(call: Call): Record
  {
    match call
    case Returns => Record(Success, "")
    case ThrowsTestError(result, message) => Record(result, message)
    case ThrowsException(what) => Record(Error, what)
    case ThrowsUnknown => Record(Error, "unknown error")
  }

  /**
   * What execute(Entry&) records as written: a clean return assigns neither
   * field, so the entry keeps whatever an earlier execution recorded.
   */
  function RecordedAsWritten(previous: Record, call: Call): Record
  {
    if call.Returns? then previous else Recorded(call)
  }

  /**
   * A test that failed and then passes when executed again is reported, and
   * added to the aggregate, as failed a second time.
   */
  lemma PassingRerunReportedAsFailed()
    ensures var first := RecordedAsWritten(Record(Success, ""), ThrowsTestError(Failure, "x"));
      first == Record(Failure, "x") &&
      RecordedAsWritten(first, Returns).result == Failure &&
      Recorded(Returns).result == Success
  {
  }

  /**
   * A test added through the ReturningFunction wrapper records exactly the
   * result its function returned, and the message unless it succeeded.
   */
  lemma AdaptedTestRecordsItsResult(fr: FunctionResult)
    ensures Recorded(Adapt(fr)).result == fr.result
    ensures fr.result != Success ==> Recorded(Adapt(fr)).message == fr.message
  {
  }

  /** Whether `policy` ends a full run after a test that resulted in `r`. */
  predicate Halts(policy: AbortPolicy, r: TestResult)
  {
    match policy
    case AbortOnFailure => r != Success
    case AbortOnError => r == Error
    case RunAllTests => false
  }

  /** How many tests a full run executes when they result in `results`, in order. */
  function RunLength(policy: AbortPolicy, results: seq<TestResult>): (n: nat)
    ensures n <= |results|
    ensures forall i :: 0 <= i < n - 1 ==> !Halts(policy, results[i])
    ensures n < |results| ==> n > 0 && Halts(policy, results[n - 1])
    ensures n == |results| && n > 0 && !Halts(policy, results[n - 1]) ==>
      forall i :: 0 <= i < n ==> !Halts(policy, results[i])
  {
    if results == [] then 0
    else if Halts(policy, results[0]) then 1
    else 1 + RunLength(policy, results[1..])
  }

  /** A run in which no test halts executes them all. */
  lemma {:induction false} RunLengthWithoutHalt(policy: AbortPolicy, results: seq<TestResult>)
    requires forall i :: 0 <= i < |results| ==> !Halts(policy, results[i])
    ensures RunLength(policy, results) == |results|
  {
    if results != [] {
      RunLengthWithoutHalt(policy, results[1..]);
    }
  }

  /** A run ends right after the first test that halts it. */
  lemma {:induction false} RunLengthHaltsAt(policy: AbortPolicy, results: seq<TestResult>, k: nat)
    requires k < |results| && Halts(policy, results[k])
    requires forall i :: 0 <= i < k ==> !Halts(policy, results[i])
    ensures RunLength(policy, results) == k + 1
  {
    if k > 0 {
      RunLengthHaltsAt(policy, results[1..], k - 1);
    }
  }

  /** A run of n tests, none but the last halting, that stops early only after a halt, has length n. */
  lemma RunLengthIs(policy: AbortPolicy, results: seq<TestResult>, n: nat)
    requires n <= |results|
    requires forall i :: 0 <= i < n - 1 ==> !Halts(policy, results[i])
    requires n < |results| ==> n > 0 && Halts(policy, results[n - 1])
    ensures RunLength(policy, results) == n
  {
    if n > 0 && Halts(policy, results[n - 1]) {
      RunLengthHaltsAt(policy, results, n - 1);
    } else {
      RunLengthWithoutHalt(policy, results);
    }
  }

  /** RUN_ALL_TESTS executes every test. */
  lemma {:induction false} RunAllRunsEverything(results: seq<TestResult>)
    ensures RunLength(RunAllTests, results) == |results|
  {
    if results != [] {
      RunAllRunsEverything(results[1..]);
    }
  }

  /** ABORT_ON_ERROR never executes fewer tests than ABORT_ON_FAILURE. */
  lemma {:induction false} AbortOnErrorRunsAtLeastAsMany(results: seq<TestResult>)
    ensures RunLength(AbortOnFailure, results) <= RunLength(AbortOnError, results)
  {
    if results != [] && !Halts(AbortOnFailure, results[0]) {
      AbortOnErrorRunsAtLeastAsMany(results[1..]);
    }
  }

  /** The results the tests record when their calls end as `calls`. */
  function Outcomes(calls: seq<Call>): (rs: seq<TestResult>)
    ensures |rs| == |calls|
    ensures forall i :: 0 <= i < |calls| ==> rs[i] == Recorded(calls[i]).result
  {
    seq(|calls|, i requires 0 <= i < |calls| => Recorded(calls[i]).result)
  }

  /** What the tests record when their calls end as `calls`, in order. */
  function RecordsOf(calls: seq<Call>): (rs: seq<Record>)
    ensures |rs| == |calls|
    ensures forall i :: 0 <= i < |calls| ==> rs[i] == Recorded(calls[i])
  {
    if calls == [] then [] else RecordsOf(calls[..|calls| - 1]) + [Recorded(calls[|calls| - 1])]
  }

  /** The position of the first of `names` that is not `known`, or |names| when all are. */
  function FirstUnknown(names: seq<string>, known: set<string>): (k: nat)
    ensures k <= |names|
    ensures forall i :: 0 <= i < k ==> names[i] in known
    ensures k < |names| ==> names[k] !in known
  {
    if names == [] || names[0] !in known then 0 else 1 + FirstUnknown(names[1..], known)
  }

  /** The records by name after the tests `names` ran, in order, their calls ending as `calls`. */
  function Replayed(records: map<string, Record>, names: seq<string>, calls: seq<Call>): map<string, Record>
    requires |names| == |calls|
  {
    if names == [] then records
    else Replayed(records, names[..|names| - 1], calls[..|calls| - 1])[names[|names| - 1] := Recorded(calls[|calls| - 1])]
  }

  /** Adding the result at position k raises the aggregate of the results before it. */
  lemma AggregatedStep(start: TestResult, results: seq<TestResult>, lo: nat, k: nat)
    requires lo <= k < |results|
    ensures Aggregated(start, results[lo..k + 1]) == MoreSevere(Aggregated(start, results[lo..k]), results[k])
  {
    assert results[lo..k + 1][..k - lo] == results[lo..k];
  }

  /** Running the named test at position k replaces only that name's record. */
  lemma ReplayedStep(records: map<string, Record>, names: seq<string>, calls: seq<Call>, lo: nat, k: nat)
    requires |names| == |calls| && lo <= k < |names|
    ensures Replayed(records, names[lo..k + 1], calls[lo..k + 1])
         == Replayed(records, names[lo..k], calls[lo..k])[names[k] := Recorded(calls[k])]
  {
    assert names[lo..k + 1][..k - lo] == names[lo..k];
    assert calls[lo..k + 1][..k - lo] == calls[lo..k];
  }

  /** A registered test: its name, and the result and message of its last execution. */
  class Entry {
    const name: string
    var result: TestResult
    var message: string

    constructor (name: string)
      ensures this.name == name && result == Success && message == ""
    {
      this.name := name;
      result := Success;
      message := "";
    }
  }

  class Tests {
    /** tests_, in the order added */
    var tests: seq<Entry>
    /** tests_by_name_ */
    var byName: map<string, Entry>
    var latest: TestResult
    var aggregate: TestResult
    /** every result passed to add_result, in order */
    ghost var history: seq<TestResult>
    /** where each name stands in the run order */
    ghost var position: map<string, nat>

    ghost predicate Valid()
      reads this
    {
      && (forall i :: 0 <= i < |tests| ==>
            tests[i].name in byName && byName[tests[i].name] == tests[i] &&
            tests[i].name in position && position[tests[i].name] == i)
      && (forall n :: n in byName ==>
            n in position && position[n] < |tests| && tests[position[n]] == byName[n] && byName[n].name == n)
      && aggregate == Aggregated(Success, history)
      && latest == (if history == [] then Success else history[|history| - 1])
    }

    /** Tests(): no tests, latest and aggregate SUCCESS. */
    constructor ()
      ensures Valid() && tests == [] && byName == map[] && history == []
      ensures latest == Success && aggregate == Success
    {
      tests := [];
      byName := map[];
      latest := Success;
      aggregate := Success;
      history := [];
      position := map[];
    }

    /**
     * add: a new name is appended to the run order and indexed; a taken one
     * fails with invalid_argument and changes nothing.
     */
    method Add(name: string) returns (r: Result<Entry, HarnessError>)
      requires Valid()
      modifies this
      ensures Valid()
      ensures r.Ok? <==> name !in old(byName)
      ensures r.Ok? ==> fresh(r.value) && r.value.name == name && r.value.result == Success && r.value.message == ""
      ensures r.Ok? ==> tests == old(tests) + [r.value] && byName == old(byName)[name := r.value]
      ensures r.Ok? ==> history == old(history) && latest == old(latest) && aggregate == old(aggregate)
      ensures r.Err? ==> r.error == InvalidArgument("duplicate test: " + name) && unchanged(this)
    {
      if name in byName {
        return Err(InvalidArgument("duplicate test: " + name));
      }
      var entry := new Entry(name);
      byName := byName[name := entry];
      position := position[name := |tests|];
      tests := tests + [entry];
      r := Ok(entry);
    }

    /** add_result: the latest result, and the aggregate raised to it if it is more severe. */
    method AddResult(result: TestResult)
      requires Valid()
      modifies this
      ensures Valid()
      ensures latest == result && aggregate == MoreSevere(old(aggregate), result)
      ensures history == old(history) + [result]
      ensures tests == old(tests) && byName == old(byName)
    {
      latest := result;
      if aggregate.Value() < result.Value() {
        aggregate := result;
      }
      history := history + [result];
    }

    /**
     * execute(Entry&): the call's outcome is recorded in the entry and added
     * to the results; a clean return first adds a SUCCESS of its own.
     * Corrected so that a clean return records SUCCESS (see RecordedAsWritten).
     */
    method ExecuteEntry(entry: Entry, call: Call) returns (result: TestResult)
      requires Valid()
      modifies this, entry
      ensures Valid()
      ensures Record(entry.result, entry.message) == Recorded(call) && result == entry.result
      ensures call.Returns? ==> history == old(history) + [Success, result]
      ensures !call.Returns? ==> history == old(history) + [result]
      ensures latest == result && aggregate == MoreSevere(old(aggregate), result)
      ensures tests == old(tests) && byName == old(byName)
    {
      match call {
        case Returns =>
          AddResult(Success);
          entry.result, entry.message := Success, "";
        case ThrowsTestError(r, m) =>
          entry.result, entry.message := r, m;
        case ThrowsException(what) =>
          entry.result, entry.message := Error, what;
        case ThrowsUnknown =>
          entry.result, entry.message := Error, "unknown error";
      }
      AddResult(entry.result);
      result := entry.result;
    }

    /**
     * execute(name): an unknown name fails with invalid_argument and changes
     * nothing; a known one executes its entry.
     */
    method ExecuteName(name: string, call: Call) returns (r: Outcome<HarnessError>)
      requires Valid()
      modifies this, byName.Values
      ensures Valid()
      ensures tests == old(tests) && byName == old(byName)
      ensures r.Pass? <==> name in byName
      ensures r.Fail? ==> r.error == UnknownTest(name)
      ensures r.Fail? ==> unchanged(this) && unchanged(byName.Values)
      ensures r.Pass? ==> RecordsByName() == old(RecordsByName())[name := Recorded(call)]
      ensures r.Pass? ==> latest == Recorded(call).result
      ensures r.Pass? ==> aggregate == MoreSevere(old(aggregate), latest)
    {
      if name !in byName {
        return Fail(UnknownTest(name));
      }
      ghost var before := RecordsByName();
      var entry := byName[name];
      var result := ExecuteEntry(entry, call);
      assert forall n :: n in byName && n != name ==> byName[n] != entry;
      assert RecordsByName() == before[name := Recorded(call)];
      r := Pass;
    }

    /** The recorded result and message of every test, by name. */
    function RecordsByName(): map<string, Record>
      reads this, byName.Values
    {
      map n | n in byName :: Record(byName[n].result, byName[n].message)
    }

    /** The recorded result and message of every test, in run order. */
    function Records(): (rs: seq<Record>)
      reads this, tests
      ensures |rs| == |tests|
    {
      seq(|tests|, i reads this, tests requires 0 <= i < |tests| => Record(tests[i].result, tests[i].message))
    }

    /** execute(Entry&) on the test at position k of the run order: only that test's record changes. */
    method ExecuteAt(k: nat, call: Call) returns (result: TestResult)
      requires Valid() && k < |tests|
      modifies this, tests[k]
      ensures Valid() && tests == old(tests) && byName == old(byName)
      ensures Records() == old(Records())[k := Recorded(call)]
      ensures result == Recorded(call).result && aggregate == MoreSevere(old(aggregate), result)
      ensures latest == result
    {
      assert forall i :: 0 <= i < |tests| && i != k ==> tests[i] != tests[k];
      result := ExecuteEntry(tests[k], call);
    }

    /**
     * Where a full run stands after its first `ran` tests: each ended as its
     * call and the rest are untouched, none before the last halted the run,
     * and the aggregate was raised by each result in turn from `start`.
     */
    ghost predicate RanFirst(policy: AbortPolicy, calls: seq<Call>, ran: nat, before: seq<Record>, start: TestResult, last: TestResult)
      reads this, tests
    {
      && Valid() && |calls| == |tests| == |before| && ran <= |tests|
      && (forall i :: 0 <= i < ran - 1 ==> !Halts(policy, Outcomes(calls)[i]))
      && |before| == |Records()|
      && (forall i :: 0 <= i < ran ==> Records()[i] == Recorded(calls[i]))
      && (forall i :: ran <= i < |before| ==> Records()[i] == before[i])
      && aggregate == Aggregated(start, Outcomes(calls)[..ran])
      && latest == Latest(last, Outcomes(calls)[..ran])
    }

    /** Before a full run, no test has run yet. */
    lemma RanNoneYet(policy: AbortPolicy, calls: seq<Call>)
      requires Valid() && |calls| == |tests|
      ensures RanFirst(policy, calls, 0, Records(), aggregate, latest)
    {
      assert Outcomes(calls)[..0] == [];
    }

    /** One turn of execute_all's loop: the next test in run order ends as its call. */
    method RunNext(policy: AbortPolicy, calls: seq<Call>, ran: nat, ghost before: seq<Record>, ghost start: TestResult, ghost last: TestResult)
      returns (result: TestResult)
      requires RanFirst(policy, calls, ran, before, start, last) && ran < |tests|
      requires ran > 0 ==> !Halts(policy, Outcomes(calls)[ran - 1])
      modifies this, tests[ran]
      ensures RanFirst(policy, calls, ran + 1, before, start, last)
      ensures result == Outcomes(calls)[ran]
      ensures tests == old(tests) && byName == old(byName)
    {
      result := ExecuteAt(ran, calls[ran]);
      AggregatedStep(start, Outcomes(calls), 0, ran);
      assert Latest(last, Outcomes(calls)[..ran + 1]) == Outcomes(calls)[ran];
    }

    /**
     * execute_all: the tests run in the order added, test i ending as
     * calls[i], until the policy halts the run after a test's result.
     */
    method ExecuteAll(policy: AbortPolicy, calls: seq<Call>) returns (ran: nat)
      requires Valid() && |calls| == |tests|
      modifies this, tests
      ensures Valid() && tests == old(tests) && byName == old(byName)
      ensures ran == RunLength(policy, Outcomes(calls))
      ensures forall i :: 0 <= i < ran ==> Records()[i] == Recorded(calls[i])
      ensures forall i :: ran <= i < |tests| ==> Records()[i] == old(Records())[i]
      ensures aggregate == Aggregated(old(aggregate), Outcomes(calls)[..ran])
      ensures latest == Latest(old(latest), Outcomes(calls)[..ran])
    {
      ghost var before := Records();
      ran := 0;
      var halted := false;
      RanNoneYet(policy, calls);
      while ran < |tests| && !halted
        invariant RanFirst(policy, calls, ran, before, old(aggregate), old(latest))
        invariant tests == old(tests) && byName == old(byName)
        invariant ran > 0 ==> (halted <==> Halts(policy, Outcomes(calls)[ran - 1]))
        invariant ran == 0 ==> !halted
      {
        var result := RunNext(policy, calls, ran, before, old(aggregate), old(latest));
        halted := Halts(policy, result);
        ran := ran + 1;
      }
      RunLengthIs(policy, Outcomes(calls), ran);
    }

    /**
     * Where test_main's loop stands after the first `i` names: all of them
     * were known and ran, in order, ending as their calls.
     */
    ghost predicate RanNamed(names: seq<string>, calls: seq<Call>, i: nat, records: map<string, Record>, start: TestResult, last: TestResult)
      reads this, byName.Values
    {
      && Valid() && |calls| == |names| && i <= |names|
      && (forall j :: 0 <= j < i ==> names[j] in byName)
      && RecordsByName() == Replayed(records, names[..i], calls[..i])
      && aggregate == Aggregated(start, Outcomes(calls)[..i])
      && latest == Latest(last, Outcomes(calls)[..i])
    }

    /** One turn of test_main's loop: the next name is executed, or is unknown. */
    method RunNamed(names: seq<string>, calls: seq<Call>, i: nat, ghost records: map<string, Record>, ghost start: TestResult, ghost last: TestResult)
      returns (r: Outcome<HarnessError>)
      requires RanNamed(names, calls, i, records, start, last) && i < |names|
      modifies this, byName.Values
      ensures tests == old(tests) && byName == old(byName)
      ensures r.Fail? <==> names[i] !in byName
      ensures r.Fail? ==> r.error == UnknownTest(names[i]) && RanNamed(names, calls, i, records, start, last)
      ensures r.Pass? ==> RanNamed(names, calls, i + 1, records, start, last)
    {
      r := ExecuteName(names[i], calls[i]);
      if r.Pass? {
        ReplayedStep(records, names, calls, 0, i);
        AggregatedStep(start, Outcomes(calls), 0, i);
        assert Latest(last, Outcomes(calls)[..i + 1]) == Outcomes(calls)[i];
      }
    }

    /**
     * test_main's loop over the named tests: each name in turn is executed,
     * ending as its call, until the first unknown name fails; `i` is how
     * many names were executed.
     */
    method ExecuteNames(names: seq<string>, calls: seq<Call>) returns (r: Outcome<HarnessError>, i: nat)
      requires Valid() && |calls| == |names|
      modifies this, tests
      ensures Valid() && tests == old(tests) && byName == old(byName)
      ensures i == FirstUnknown(names, byName.Keys)
      ensures r.Fail? <==> i < |names|
      ensures r.Fail? ==> r.error == UnknownTest(names[i])
      ensures RecordsByName() == Replayed(old(RecordsByName()), names[..i], calls[..i])
      ensures aggregate == Aggregated(old(aggregate), Outcomes(calls)[..i])
      ensures latest == Latest(old(latest), Outcomes(calls)[..i])
    {
      ghost var records := RecordsByName();
      i := 0;
      r := Pass;
      assert names[..0] == [] && calls[..0] == [] && Outcomes(calls)[..0] == [];
      while i < |names| && r.Pass?
        invariant RanNamed(names, calls, i, records, old(aggregate), old(latest))
        invariant tests == old(tests) && byName == old(byName)
        invariant r.Fail? ==> i < |names| && names[i] !in byName && r.error == UnknownTest(names[i])
        decreases |names| - i, if r.Pass? then 1 else 0
      {
        r := RunNamed(names, calls, i, records, old(aggregate), old(latest));
        if r.Pass? {
          i := i + 1;
        }
      }
      KnownPrefix(names, byName.Keys, i);
    }

    /**
     * test_main: with no arguments besides the program name every test runs
     * under RUN_ALL_TESTS; otherwise the named tests run in argument order
     * until the first unknown name, which escapes as invalid_argument after
     * the names before it have run. The exit code is the aggregate's value.
     */
    method TestMain(args: seq<string>, allCalls: seq<Call>, namedCalls: seq<Call>)
      returns (r: Result<int, HarnessError>)
      requires Valid() && |allCalls| == |tests| && |namedCalls| == |args|
      modifies this, tests
      ensures Valid() && tests == old(tests) && byName == old(byName)
      ensures |args| <= 1 ==> r.Ok? && Records() == RecordsOf(allCalls)
      ensures |args| <= 1 ==> aggregate == Aggregated(old(aggregate), Outcomes(allCalls))
      ensures |args| > 1 ==> (r.Err? <==> FirstUnknown(args[1..], byName.Keys) < |args| - 1)
      ensures |args| > 1 && r.Err? ==> r.error == UnknownTest(args[1 + FirstUnknown(args[1..], byName.Keys)])
      ensures |args| > 1 ==> var k := FirstUnknown(args[1..], byName.Keys);
        RecordsByName() == Replayed(old(RecordsByName()), args[1..][..k], namedCalls[1..][..k])
      ensures |args| > 1 ==> var k := FirstUnknown(args[1..], byName.Keys);
        aggregate == Aggregated(old(aggregate), Outcomes(namedCalls[1..])[..k])
      ensures |args| <= 1 ==> latest == Latest(old(latest), Outcomes(allCalls))
      ensures |args| > 1 ==> var k := FirstUnknown(args[1..], byName.Keys);
        latest == Latest(old(latest), Outcomes(namedCalls[1..])[..k])
      ensures r.Ok? ==> r.value == aggregate.Value() && r.value in {0, 1, 99}
    {
      if |args| <= 1 {
        var ran := ExecuteAll(RunAllTests, allCalls);
        RunAllRunsEverything(Outcomes(allCalls));
        assert allCalls[..ran] == allCalls && Outcomes(allCalls)[..ran] == Outcomes(allCalls);
        return Ok(aggregate.Value());
      }
      var executed, _ := ExecuteNames(args[1..], namedCalls[1..]);
      if executed.Fail? {
        return Err(executed.error);
      }
      r := Ok(aggregate.Value());
    }
  }

  /** The first unknown name is the one every earlier name was known before. */
  lemma KnownPrefix(names: seq<string>, known: set<string>, k: nat)
    requires k <= |names|
    requires forall i :: 0 <= i < k ==> names[i] in known
    requires k < |names| ==> names[k] !in known
    ensures FirstUnknown(names, known) == k
  {
  }
}

/** The test loop of `main`: each test's query is run, its assertion mapping
    is checked against the rows, and the outcome is classified and counted
    in a summary. The database is a per-test input here: the rows the query
    returned, or the text of the error it raised. */
module Runner {
  import opened Wrappers
  import opened Rows
  import opened Validators
  import opened Dispatch

  /** One loaded test file; `assertions` is `None` when the file has no
      such key. */
  datatype TestDef = TestDef(name: string, query: string, assertions: Option<Assertions>)

  /** What running a test's query gave: its rows, or the message of the
      exception the database layer raised. */
  datatype QueryResult = Fetched(rows: seq<Row>) | QueryFailed(message: string)

  /** The status strings a test is logged and counted under. */
  datatype Status = PASS | FAIL | ERROR

  /** One entry of the summary's `details` (the duration is left out). The
      `assertions` are the test's own mapping, with whatever the validators
      left in its rule dicts. */
  datatype Detail = Detail(name: string, status: Status, errorMessage: string, assertions: Assertions)

  /** The mapping a test runs: `{}` when its file gives none. */
  function AssertionsOf(t: TestDef): Assertions
  {
    if t.assertions.Some? then t.assertions.value else []
  }

  /** The status and message a test gets, from its query result and its
      mapping as loaded: an error from the query is an ERROR with that
      error's text; otherwise the exception `run_assertions` raises decides,
      an `AssertionError` being a FAIL and anything else an ERROR, and a test
      that raises nothing passes with an empty message. */
  function Classify(result: QueryResult, snap: seq<(string, Arg)>): (r: (Status, string))
    requires AllShaped(snap)
    ensures result.QueryFailed? ==> r == (ERROR, result.message)
    ensures result.Fetched? ==> (r.0 == PASS <==> RunSpec(result.rows, snap) == None)
    ensures r.0 == PASS ==> r.1 == ""
    ensures result.Fetched? && r.0 != PASS ==> r.1 == Message(RunSpec(result.rows, snap).value)
  {
    match result
    case QueryFailed(msg) => (ERROR, msg)
    case Fetched(rows) =>
      match RunSpec(rows, snap)
      case None => (PASS, "")
      case Some(e) => (if e.AssertionFailed? then FAIL else ERROR, Message(e))
  }

  /** A test passes exactly when its query runs and every entry of its
      mapping is a known key whose validator passes, and then its message is
      empty; it fails exactly when the query runs and the first entry that
      raises is a validator failure, with that entry's key in the message;
      every other outcome is an ERROR: the query failed, or the first entry
      that raises has an unknown key. */
  lemma ClassifyMeaning(result: QueryResult, snap: seq<(string, Arg)>)
    requires AllShaped(snap)
    ensures Classify(result, snap).0 == PASS <==>
      result.Fetched? &&
      forall k :: 0 <= k < |snap| ==> snap[k].0 in Known && Validate(result.rows, snap[k].0, snap[k].1) == Pass
    ensures Classify(result, snap).0 == PASS ==> Classify(result, snap).1 == ""
    ensures Classify(result, snap).0 == FAIL <==>
      result.Fetched? &&
      (var n := Stop(result.rows, snap);
       n < |snap| && snap[n].0 in Known && Validate(result.rows, snap[n].0, snap[n].1).Fail?)
    ensures Classify(result, snap).0 == FAIL ==>
      var n := Stop(result.rows, snap);
      Classify(result, snap).1 ==
        "Assertion '" + snap[n].0 + "' failed: " + Describe(Validate(result.rows, snap[n].0, snap[n].1).failure)
    ensures Classify(result, snap).0 == ERROR <==>
      result.QueryFailed? ||
      (var n := Stop(result.rows, snap); n < |snap| && snap[n].0 !in Known)
    ensures result.QueryFailed? ==> Classify(result, snap) == (ERROR, result.message)
  {
    if result.Fetched? && RunSpec(result.rows, snap).Some? {
      RaisedMessage(result.rows, snap);
    }
  }

  /** A test without an `assertions` key passes exactly when its query
      runs. */
  lemma NoAssertionsPassesIffQueryRuns(t: TestDef, result: QueryResult)
    requires t.assertions.None?
    ensures AllShaped(Snapshot(AssertionsOf(t)))
    ensures Classify(result, Snapshot(AssertionsOf(t))).0 == PASS <==> result.Fetched?
  {
    assert AssertionsOf(t) == [];
  }

  /** The number of details with the given status. */
  function Count(details: seq<Detail>, status: Status): nat
  {
    if details == [] then 0
    else Count(details[..|details| - 1], status) + (if details[|details| - 1].status == status then 1 else 0)
  }

  /** Every detail has exactly one of the three statuses, so the three counts
      add up to the number of details. */
  lemma {:induction false} CountsPartition(details: seq<Detail>)
    ensures Count(details, PASS) + Count(details, FAIL) + Count(details, ERROR) == |details|
  {
    if details != [] {
      CountsPartition(details[..|details| - 1]);
    }
  }

  /** The `summary` dict: four counters and the list of details. */
  class Summary {
    var total: nat
    var passed: nat
    var failed: nat
    var errors: nat
    var details: seq<Detail>

    /** Each counter counts the details it stands for. */
    ghost predicate Valid()
      reads this
    {
      total == |details| &&
      passed == Count(details, PASS) &&
      failed == Count(details, FAIL) &&
      errors == Count(details, ERROR)
    }

    constructor()
      ensures Valid() && details == []
      ensures total == 0 && passed == 0 && failed == 0 && errors == 0
    {
      total := 0;
      passed := 0;
      failed := 0;
      errors := 0;
      details := [];
    }

    /** The end of one turn of the loop: `total` and the counter of the
        test's status go up by one, and its detail is appended. */
    method Record(d: Detail)
      requires Valid()
      modifies this
      ensures Valid()
      ensures details == old(details) + [d]
      ensures total == old(total) + 1
      ensures passed == old(passed) + (if d.status == PASS then 1 else 0)
      ensures failed == old(failed) + (if d.status == FAIL then 1 else 0)
      ensures errors == old(errors) + (if d.status == ERROR then 1 else 0)
    {
      total := total + 1;
      if d.status == PASS {
        passed := passed + 1;
      } else if d.status == FAIL {
        failed := failed + 1;
      } else {
        errors := errors + 1;
      }
      details := details + [d];
      assert details[..|details| - 1] == old(details);
    }
  }

  /** In a summary whose counters count its details, `total` is the sum of
      the other three. */
  lemma Balanced(summary: Summary)
    requires summary.Valid()
    ensures summary.total == summary.passed + summary.failed + summary.errors
  {
    CountsPartition(summary.details);
  }

  /** The detail a test gets, from its query result and its mapping as
      loaded. */
  function Report(t: TestDef, result: QueryResult, snap: seq<(string, Arg)>): (d: Detail)
    requires AllShaped(snap)
    ensures d.name == t.name && d.assertions == AssertionsOf(t)
    ensures d.status == PASS ==> d.errorMessage == ""
    ensures result.QueryFailed? ==> d.status == ERROR && d.errorMessage == result.message
  {
    var (status, message) := Classify(result, snap);
    Detail(t.name, status, message, AssertionsOf(t))
  }

  /** One turn of the loop in `main`: run the assertions on the rows when the
      query ran, and turn what escaped into a status and a message. When the
      query failed no rule dict is touched; otherwise the dicts change as
      `run_assertions` says. */
  method RunTest(t: TestDef, result: QueryResult) returns (d: Detail)
    requires WellFormed(AssertionsOf(t))
    modifies Objects(AssertionsOf(t))
    ensures AllShaped(old(Snapshot(AssertionsOf(t))))
    ensures d == Report(t, result, old(Snapshot(AssertionsOf(t))))
    ensures result.QueryFailed? ==> Progress([], AssertionsOf(t), old(RawValues(AssertionsOf(t))), 0)
    ensures result.Fetched? ==>
      Progress(result.rows, AssertionsOf(t), old(RawValues(AssertionsOf(t))),
               Stop(result.rows, old(Snapshot(AssertionsOf(t)))) + 1)
  {
    var assertions := AssertionsOf(t);
    var status := PASS;
    var message := "";
    match result {
      case QueryFailed(msg) =>
        status := ERROR;
        message := msg;
      case Fetched(rows) =>
        var raised := RunAssertions(rows, assertions);
        match raised {
          case None =>
          case Some(e) =>
            status := if e.AssertionFailed? then FAIL else ERROR;
            message := Message(e);
        }
    }
    d := Detail(t.name, status, message, assertions);
  }

  /** Every rule dict of every test. */
  function AllObjects(tests: seq<TestDef>): (s: set<ColumnRule>)
    ensures forall t :: 0 <= t < |tests| ==> Objects(AssertionsOf(tests[t])) <= s
  {
    if tests == [] then {}
    else AllObjects(tests[..|tests| - 1]) + Objects(AssertionsOf(tests[|tests| - 1]))
  }

  /** Each test well formed, and no rule dict shared by two tests. */
  predicate Separated(tests: seq<TestDef>)
  {
    (forall t :: 0 <= t < |tests| ==> WellFormed(AssertionsOf(tests[t]))) &&
    forall t, u :: 0 <= t < u < |tests| ==> Objects(AssertionsOf(tests[t])) !! Objects(AssertionsOf(tests[u]))
  }

  /** The rule dicts a mapping holds exist when the mapping does. */
  lemma {:induction false} ObjectsAllocated(entries: Assertions)
    requires allocated(entries)
    ensures forall o :: o in Objects(entries) ==> allocated(o)
  {
    if entries != [] {
      ObjectsAllocated(entries[..|entries| - 1]);
      assert allocated(entries[|entries| - 1]);
    }
  }

  /** A mapping whose rule dicts all hold what they held reads as it did. */
  twostate lemma SnapshotKept(entries: Assertions)
    requires forall o :: o in Objects(entries) ==> old(allocated(o))
    requires unchanged(Objects(entries))
    ensures Snapshot(entries) == old(Snapshot(entries))
  {
  }

  /** One turn of the loop in `main`: test `i`, whose mapping is `snaps[i]`,
      is run and recorded, and the rule dicts of every other test are left
      alone. */
  method RunOne(summary: Summary, tests: seq<TestDef>, results: seq<QueryResult>, i: nat,
                ghost snaps: seq<seq<(string, Arg)>>)
    requires |results| == |tests| == |snaps| && i < |tests|
    requires Separated(tests)
    requires forall t :: i <= t < |tests| ==> Snapshot(AssertionsOf(tests[t])) == snaps[t]
    requires summary.Valid()
    modifies summary, Objects(AssertionsOf(tests[i]))
    ensures summary.Valid()
    ensures AllShaped(snaps[i])
    ensures summary.details == old(summary.details) + [Report(tests[i], results[i], snaps[i])]
    ensures forall t :: i < t < |tests| ==> Snapshot(AssertionsOf(tests[t])) == snaps[t]
  {
    forall t | i < t < |tests|
      ensures forall o :: o in Objects(AssertionsOf(tests[t])) ==> allocated(o)
    {
      ObjectsAllocated(AssertionsOf(tests[t]));
    }
    var d := RunTest(tests[i], results[i]);
    summary.Record(d);
    forall t | i < t < |tests|
      ensures Snapshot(AssertionsOf(tests[t])) == snaps[t]
    {
      var entries := AssertionsOf(tests[t]);
      assert Objects(AssertionsOf(tests[i])) !! Objects(entries);
      SnapshotKept(entries);
    }
  }

  /** The reports of the first tests, in order. */
  function Reports(tests: seq<TestDef>, results: seq<QueryResult>, snaps: seq<seq<(string, Arg)>>): seq<Detail>
    requires |results| == |tests| == |snaps|
    requires forall t :: 0 <= t < |snaps| ==> AllShaped(snaps[t])
  {
    if tests == [] then []
    else
      var n := |tests| - 1;
      Reports(tests[..n], results[..n], snaps[..n]) + [Report(tests[n], results[n], snaps[n])]
  }

  /** The `t`-th of the reports is test `t`'s. */
  lemma {:induction false} ReportsAt(tests: seq<TestDef>, results: seq<QueryResult>, snaps: seq<seq<(string, Arg)>>, t: nat)
    requires |results| == |tests| == |snaps| && t < |tests|
    requires forall u :: 0 <= u < |snaps| ==> AllShaped(snaps[u])
    ensures |Reports(tests, results, snaps)| == |tests|
    ensures Reports(tests, results, snaps)[t] == Report(tests[t], results[t], snaps[t])
  {
    var n := |tests| - 1;
    ReportsLength(tests[..n], results[..n], snaps[..n]);
    if t < n {
      ReportsAt(tests[..n], results[..n], snaps[..n], t);
      assert tests[..n][t] == tests[t] && results[..n][t] == results[t] && snaps[..n][t] == snaps[t];
    }
  }

  lemma {:induction false} ReportsLength(tests: seq<TestDef>, results: seq<QueryResult>, snaps: seq<seq<(string, Arg)>>)
    requires |results| == |tests| == |snaps|
    requires forall u :: 0 <= u < |snaps| ==> AllShaped(snaps[u])
    ensures |Reports(tests, results, snaps)| == |tests|
  {
    if tests != [] {
      var n := |tests| - 1;
      ReportsLength(tests[..n], results[..n], snaps[..n]);
    }
  }

  /** The reports of the first `i + 1` tests are those of the first `i`,
      then test `i`'s. */
  lemma ReportsStep(tests: seq<TestDef>, results: seq<QueryResult>, snaps: seq<seq<(string, Arg)>>, i: nat)
    requires |results| == |tests| == |snaps| && i < |tests|
    requires forall u :: 0 <= u < |snaps| ==> AllShaped(snaps[u])
    ensures Reports(tests[..i + 1], results[..i + 1], snaps[..i + 1]) ==
      Reports(tests[..i], results[..i], snaps[..i]) + [Report(tests[i], results[i], snaps[i])]
  {
    assert tests[..i + 1][..i] == tests[..i];
    assert results[..i + 1][..i] == results[..i];
    assert snaps[..i + 1][..i] == snaps[..i];
  }

  /** The mappings of well-formed tests have the shapes the validators
      expect. */
  lemma LoadedShapes(tests: seq<TestDef>, snaps: seq<seq<(string, Arg)>>)
    requires |tests| == |snaps| && Separated(tests)
    requires forall t :: 0 <= t < |tests| ==> Snapshot(AssertionsOf(tests[t])) == snaps[t]
    ensures forall t :: 0 <= t < |tests| ==> AllShaped(snaps[t])
  {
  }

  /** The loop of `main` over the loaded tests, the i-th query having given
      `results[i]` and the i-th mapping being `snaps[i]` on entry, recording
      into `summary`: afterwards its counters count its details, and its
      details are the tests' reports, in the order of the tests. */
  method RunAll(summary: Summary, tests: seq<TestDef>, results: seq<QueryResult>, ghost snaps: seq<seq<(string, Arg)>>)
    requires |results| == |tests| == |snaps|
    requires Separated(tests)
    requires forall t :: 0 <= t < |tests| ==> Snapshot(AssertionsOf(tests[t])) == snaps[t]
    requires summary.Valid() && summary.details == []
    modifies summary, AllObjects(tests)
    ensures forall t :: 0 <= t < |tests| ==> AllShaped(snaps[t])
    ensures summary.Valid()
    ensures summary.details == Reports(tests, results, snaps)
  {
    hide *;
    LoadedShapes(tests, snaps);
    ReportsLength(tests[..0], results[..0], snaps[..0]);
    var i := 0;
    while i < |tests|
      invariant 0 <= i <= |tests|
      invariant summary.Valid()
      invariant forall t :: 0 <= t < |tests| ==> AllShaped(snaps[t])
      invariant summary.details == Reports(tests[..i], results[..i], snaps[..i])
      invariant forall t :: i <= t < |tests| ==> Snapshot(AssertionsOf(tests[t])) == snaps[t]
    {
      RunOne(summary, tests, results, i, snaps);
      ReportsStep(tests, results, snaps, i);
      i := i + 1;
    }
    assert tests[..i] == tests && results[..i] == results && snaps[..i] == snaps;
  }

  /** `main` after loading: a fresh summary, filled by the loop, whose
      `total` is the number of tests and the sum of the other three
      counters, and whose details are the tests' reports in order. */
  method RunTests(tests: seq<TestDef>, results: seq<QueryResult>) returns (summary: Summary)
    requires |results| == |tests|
    requires Separated(tests)
    modifies AllObjects(tests)
    ensures fresh(summary) && summary.Valid()
    ensures summary.total == summary.passed + summary.failed + summary.errors == |tests|
    ensures forall t :: 0 <= t < |tests| ==>
      AllShaped(old(Snapshot(AssertionsOf(tests[t])))) &&
      summary.details[t] == Report(tests[t], results[t], old(Snapshot(AssertionsOf(tests[t]))))
  {
    ghost var snaps := seq(|tests|, t requires 0 <= t < |tests| reads AllObjects(tests) =>
      Snapshot(AssertionsOf(tests[t])));
    forall t | 0 <= t < |tests|
      ensures forall o :: o in Objects(AssertionsOf(tests[t])) ==> allocated(o)
    {
      ObjectsAllocated(AssertionsOf(tests[t]));
    }
    summary := new Summary();
    RunAll(summary, tests, results, snaps);
    ReportsLength(tests, results, snaps);
    Balanced(summary);
    forall t | 0 <= t < |tests|
      ensures summary.details[t] == Report(tests[t], results[t], snaps[t])
    {
      ReportsAt(tests, results, snaps, t);
    }
  }
}

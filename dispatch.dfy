/** `run_assertions`: walks a test's assertion mapping in order, hands each
    known key's rule to its validator, and stops at the first entry that
    raises. A validator failure is re-raised as an `AssertionError` prefixed
    with the key; a key with no validator raises `ValueError`. */
module Dispatch {
  import opened Wrappers
  import opened Rows
  import opened Validators

  /** The rule a test file gives for one assertion key. */
  datatype Rule =
    | Expected(n: int)                 // count
    | RuleList(items: seq<ColumnRule>) // has, missing
    | ColumnList(names: seq<string>)   // no_nulls, only_nulls
    | Unparsed                         // the rule of a key with no validator; never read

  /** A test's assertion mapping, in its iteration order. */
  type Assertions = seq<(string, Rule)>

  /** What escapes `run_assertions`: an `AssertionError` carrying the failing
      key and the validator's failure, or a `ValueError` for an unknown key. */
  datatype Raised = AssertionFailed(key: string, failure: Failure) | UnknownAssertion(key: string)

  /** The text of the raised exception. */
  function Message(e: Raised): (m: string)
    ensures e.AssertionFailed? ==>
      var head := "Assertion '" + e.key + "' failed: ";
      head <= m && m[|head|..] == Describe(e.failure)
    ensures e.UnknownAssertion? ==> "Unknown assertion '" + e.key + "'" == m
  {
    match e
    case AssertionFailed(key, f) => "Assertion '" + key + "' failed: " + Describe(f)
    case UnknownAssertion(key) => "Unknown assertion '" + key + "'"
  }

  /** The keys of the validator table. */
  const Known: set<string> := {"count", "has", "missing", "no_nulls", "only_nulls"}

  /** The rule has the shape the test-file schema gives that key. */
  predicate Shaped(key: string, rule: Rule)
  {
    (key == "count" ==> rule.Expected?) &&
    (key == "has" || key == "missing" ==> rule.RuleList?) &&
    (key == "no_nulls" || key == "only_nulls" ==> rule.ColumnList?)
  }

  function RuleObjects(rule: Rule): set<ColumnRule>
  {
    if rule.RuleList? then Footprint(rule.items) else {}
  }

  /** Every rule dict the mapping holds. */
  function Objects(entries: Assertions): (s: set<ColumnRule>)
    ensures forall k :: 0 <= k < |entries| ==> RuleObjects(entries[k].1) <= s
  {
    if entries == [] then {}
    else Objects(entries[..|entries| - 1]) + RuleObjects(entries[|entries| - 1].1)
  }

  /** A mapping as a loaded test file holds it: distinct keys, each known
      key's rule of the right shape, and no rule dict shared by two
      entries. */
  predicate WellFormed(entries: Assertions)
  {
    (forall i, j :: 0 <= i < j < |entries| ==>
      entries[i].0 != entries[j].0 && RuleObjects(entries[i].1) !! RuleObjects(entries[j].1)) &&
    (forall i :: 0 <= i < |entries| ==> Shaped(entries[i].0, entries[i].1))
  }

  // ---------------------------------------------------------------------
  // The mapping as a value, and what run_assertions does with it

  /** A rule as a value: the `has`/`missing` dicts become column/value-set
      pairs. */
  datatype Arg = CountArg(n: int) | ViewsArg(views: seq<RuleView>) | NamesArg(names: seq<string>) | OtherArg

  function ArgOf(rule: Rule): Arg
    reads RuleObjects(rule)
  {
    match rule
    case Expected(n) => CountArg(n)
    case RuleList(items) => ViewsArg(Views(items))
    case ColumnList(names) => NamesArg(names)
    case Unparsed => OtherArg
  }

  predicate ShapedArg(key: string, arg: Arg)
  {
    (key == "count" ==> arg.CountArg?) &&
    (key == "has" || key == "missing" ==> arg.ViewsArg?) &&
    (key == "no_nulls" || key == "only_nulls" ==> arg.NamesArg?)
  }

  predicate AllShaped(snap: seq<(string, Arg)>)
  {
    forall k :: 0 <= k < |snap| ==> ShapedArg(snap[k].0, snap[k].1)
  }

  /** The mapping as a value, entry by entry. */
  function Snapshot(entries: Assertions): (snap: seq<(string, Arg)>)
    reads Objects(entries)
    ensures |snap| == |entries|
    ensures forall k :: 0 <= k < |entries| ==> snap[k] == (entries[k].0, ArgOf(entries[k].1))
    ensures WellFormed(entries) ==> AllShaped(snap)
  {
    if entries == [] then []
    else
      var last := entries[|entries| - 1];
      Snapshot(entries[..|entries| - 1]) + [(last.0, ArgOf(last.1))]
  }

  /** The validator the table gives `key`, applied to the rows. */
  function Validate(rows: seq<Row>, key: string, arg: Arg): (v: Verdict)
    requires key in Known && ShapedArg(key, arg)
    ensures v.Fail? ==>
      (v.failure.CountMismatch? <==> key == "count") &&
      (v.failure.ValuesNotFound? <==> key == "has") &&
      (v.failure.UnexpectedValue? <==> key == "missing") &&
      (v.failure.UnexpectedNull? <==> key == "no_nulls") &&
      (v.failure.UnexpectedNonNull? <==> key == "only_nulls")
  {
    if key == "count" then RowCount(rows, arg.n)
    else if key == "has" then HasVerdict(rows, arg.views)
    else if key == "missing" then MissingVerdict(rows, arg.views)
    else if key == "no_nulls" then NoNullsVerdict(rows, arg.names)
    else OnlyNullsVerdict(rows, arg.names)
  }

  /** What one entry raises, if anything. */
  function Evaluate(rows: seq<Row>, key: string, arg: Arg): (r: Option<Raised>)
    requires ShapedArg(key, arg)
    ensures r == None <==> key in Known && Validate(rows, key, arg) == Pass
    ensures r.Some? ==> r.value.key == key
    ensures r.Some? ==> (r.value.UnknownAssertion? <==> key !in Known)
  {
    if key !in Known then Some(UnknownAssertion(key))
    else match Validate(rows, key, arg)
      case Pass => None
      case Fail(f) => Some(AssertionFailed(key, f))
  }

  /** The index of the first entry that raises; the length when none does.
      The entries before it are run and pass; the entries after it are never
      reached. */
  function Stop(rows: seq<Row>, snap: seq<(string, Arg)>): (n: nat)
    requires AllShaped(snap)
    ensures n <= |snap|
    ensures forall k :: 0 <= k < n ==> Evaluate(rows, snap[k].0, snap[k].1) == None
    ensures n < |snap| ==> Evaluate(rows, snap[n].0, snap[n].1).Some?
  {
    if snap == [] then 0
    else if Evaluate(rows, snap[0].0, snap[0].1).Some? then 0
    else 1 + Stop(rows, snap[1..])
  }

  /** What `run_assertions` raises for the mapping, if anything: the first
      entry's exception, in mapping order. It returns normally exactly when
      every key is known and every validator passes. */
  function RunSpec(rows: seq<Row>, snap: seq<(string, Arg)>): (r: Option<Raised>)
    requires AllShaped(snap)
    ensures r == None <==>
      forall k :: 0 <= k < |snap| ==> snap[k].0 in Known && Validate(rows, snap[k].0, snap[k].1) == Pass
    ensures r.Some? ==> exists k ::
      0 <= k < |snap| && r == Evaluate(rows, snap[k].0, snap[k].1) &&
      forall j :: 0 <= j < k ==> Evaluate(rows, snap[j].0, snap[j].1) == None
  {
    var n := Stop(rows, snap);
    if n < |snap| then Evaluate(rows, snap[n].0, snap[n].1) else None
  }

  lemma {:induction false} StopAppend(rows: seq<Row>, a: seq<(string, Arg)>, b: seq<(string, Arg)>)
    requires AllShaped(a) && AllShaped(b)
    ensures AllShaped(a + b)
    ensures Stop(rows, a + b) == if Stop(rows, a) < |a| then Stop(rows, a) else |a| + Stop(rows, b)
  {
    if a != [] {
      assert (a + b)[1..] == a[1..] + b;
      StopAppend(rows, a[1..], b);
    } else {
      assert a + b == b;
    }
  }

  /** Entries are run in order and the first exception ends the walk: the
      mapping `a` followed by `b` raises what `a` raises, and only when `a`
      raises nothing does `b` run. */
  lemma RunInOrder(rows: seq<Row>, a: seq<(string, Arg)>, b: seq<(string, Arg)>)
    requires AllShaped(a) && AllShaped(b)
    ensures AllShaped(a + b)
    ensures RunSpec(rows, a + b) == if RunSpec(rows, a).Some? then RunSpec(rows, a) else RunSpec(rows, b)
  {
    StopAppend(rows, a, b);
    var n := Stop(rows, a);
    if n < |a| {
      assert (a + b)[n] == a[n];
    } else {
      var m := Stop(rows, b);
      if m < |b| {
        assert (a + b)[|a| + m] == b[m];
      }
    }
  }

  /** A key with no validator raises `ValueError` naming it, but only when
      every entry before it passed; whatever follows is not looked at. */
  lemma UnknownKeyRaises(rows: seq<Row>, a: seq<(string, Arg)>, key: string, arg: Arg, b: seq<(string, Arg)>)
    requires AllShaped(a) && AllShaped(b) && ShapedArg(key, arg)
    requires RunSpec(rows, a) == None && key !in Known
    ensures AllShaped(a + [(key, arg)] + b)
    ensures RunSpec(rows, a + [(key, arg)] + b) == Some(UnknownAssertion(key))
  {
    RunInOrder(rows, [(key, arg)], b);
    RunInOrder(rows, a, [(key, arg)] + b);
    assert a + [(key, arg)] + b == a + ([(key, arg)] + b);
  }

  /** The message of what escapes: the first failing entry's key, followed by
      its validator's message when the key is known. */
  lemma RaisedMessage(rows: seq<Row>, snap: seq<(string, Arg)>)
    requires AllShaped(snap) && RunSpec(rows, snap).Some?
    ensures var n := Stop(rows, snap);
      n < |snap| &&
      var key := snap[n].0;
      Message(RunSpec(rows, snap).value) ==
        if key in Known then "Assertion '" + key + "' failed: " + Describe(Validate(rows, key, snap[n].1).failure)
        else "Unknown assertion '" + key + "'"
  {
  }

  // ---------------------------------------------------------------------
  // run_assertions as written

  /** What running one entry leaves in one of its rule dicts: `has` keeps the
      values never seen in the dict's column, `missing` keeps all of them as a
      set, and every other key leaves the dict alone. */
  function Effect(rows: seq<Row>, key: string, column: string, before: RuleValues): RuleValues
  {
    if key == "has" then SetOf(Members(before) - Seen(rows, column))
    else if key == "missing" then SetOf(Members(before))
    else before
  }

  /** The rule dicts of an entry; none unless it is a list of them. */
  function Items(rule: Rule): seq<ColumnRule>
  {
    if rule.RuleList? then rule.items else []
  }

  /** The `values` of every rule dict, entry by entry. */
  ghost function RawValues(entries: Assertions): (vs: seq<seq<RuleValues>>)
    reads Objects(entries)
    ensures |vs| == |entries|
    ensures forall k :: 0 <= k < |entries| ==> |vs[k]| == |Items(entries[k].1)|
    ensures forall k, p :: 0 <= k < |entries| && 0 <= p < |Items(entries[k].1)| ==>
      vs[k][p] == Items(entries[k].1)[p].values
  {
    if entries == [] then []
    else
      RawValues(entries[..|entries| - 1]) + [ValuesOf(Items(entries[|entries| - 1].1))]
  }

  ghost function ValuesOf(items: seq<ColumnRule>): (vs: seq<RuleValues>)
    reads Footprint(items)
    ensures |vs| == |items|
    ensures forall p :: 0 <= p < |items| ==> vs[p] == items[p].values
  {
    if items == [] then [] else ValuesOf(items[..|items| - 1]) + [items[|items| - 1].values]
  }

  /** The entries before `n` have had their validator run on their rule dicts
      (which held `before`); every later dict still holds its `before`. */
  ghost predicate Progress(rows: seq<Row>, entries: Assertions, before: seq<seq<RuleValues>>, n: nat)
    reads Objects(entries)
  {
    |before| == |entries| &&
    (forall k :: 0 <= k < |entries| ==> |before[k]| == |Items(entries[k].1)|) &&
    forall k, p :: 0 <= k < |entries| && 0 <= p < |Items(entries[k].1)| ==>
      Items(entries[k].1)[p].values ==
        if k < n then Effect(rows, entries[k].0, Items(entries[k].1)[p].column, before[k][p])
        else before[k][p]
  }

  lemma Separate(entries: Assertions, k: nat, i: nat, p: nat)
    requires WellFormed(entries)
    requires k < |entries| && i < |entries| && k != i
    requires p < |Items(entries[k].1)|
    ensures Items(entries[k].1)[p] in Objects(entries)
    ensures Items(entries[k].1)[p] !in RuleObjects(entries[i].1)
  {
    assert Items(entries[k].1)[p] in RuleObjects(entries[k].1);
    if k < i {
      assert RuleObjects(entries[k].1) !! RuleObjects(entries[i].1);
    } else {
      assert RuleObjects(entries[i].1) !! RuleObjects(entries[k].1);
    }
  }

  /** The walk stops at `i` when everything before `i` passed and `i` raised
      (or `i` is the end). */
  lemma StopAt(rows: seq<Row>, snap: seq<(string, Arg)>, i: nat)
    requires AllShaped(snap) && i <= |snap|
    requires forall k :: 0 <= k < i ==> Evaluate(rows, snap[k].0, snap[k].1) == None
    requires i < |snap| ==> Evaluate(rows, snap[i].0, snap[i].1).Some?
    ensures Stop(rows, snap) == i
  {
    var n := Stop(rows, snap);
    assert !(n < i);
    assert !(i < n);
  }

  /** A rule whose dicts all hold what they held on entry reads as it did. */
  twostate lemma ArgUnchanged(rule: Rule)
    requires forall p :: 0 <= p < |Items(rule)| ==> Items(rule)[p].values == old(Items(rule)[p].values)
    ensures ArgOf(rule) == old(ArgOf(rule))
  {
    if rule.RuleList? {
      assert Items(rule) == rule.items;
      assert Views(rule.items) == old(Views(rule.items));
    }
  }

  function Lift(key: string, v: Verdict): Option<Raised>
  {
    match v
    case Pass => None
    case Fail(f) => Some(AssertionFailed(key, f))
  }

  /** The body of the loop in `run_assertions`, for one entry: the known
      key's validator, its failure re-raised with the key, or `ValueError`
      for an unknown key. */
  method Apply(rows: seq<Row>, key: string, rule: Rule) returns (r: Option<Raised>)
    requires Shaped(key, rule)
    modifies RuleObjects(rule)
    ensures ShapedArg(key, old(ArgOf(rule)))
    ensures r == Evaluate(rows, key, old(ArgOf(rule)))
    ensures forall p :: 0 <= p < |Items(rule)| ==>
      Items(rule)[p].values == Effect(rows, key, Items(rule)[p].column, old(Items(rule)[p].values))
  {
    if key == "count" {
      r := Lift(key, RowCount(rows, rule.n));
    } else if key == "has" {
      var v := Has(rows, rule.items);
      r := Lift(key, v);
    } else if key == "missing" {
      var v := Missing(rows, rule.items);
      r := Lift(key, v);
    } else if key == "no_nulls" {
      var v := NoNulls(rows, rule.names);
      r := Lift(key, v);
    } else if key == "only_nulls" {
      var v := OnlyNulls(rows, rule.names);
      r := Lift(key, v);
    } else {
      r := Some(UnknownAssertion(key));
    }
  }

  /** One turn of the loop in `run_assertions`: entry `i` runs on its own
      rule dicts and no other entry's dicts change. */
  method RunEntry(rows: seq<Row>, entries: Assertions, i: nat, ghost before: seq<seq<RuleValues>>)
    returns (raised: Option<Raised>)
    requires WellFormed(entries) && i < |entries|
    requires Progress(rows, entries, before, i)
    modifies RuleObjects(entries[i].1)
    ensures ShapedArg(entries[i].0, old(ArgOf(entries[i].1)))
    ensures raised == Evaluate(rows, entries[i].0, old(ArgOf(entries[i].1)))
    ensures Progress(rows, entries, before, i + 1)
  {
    raised := Apply(rows, entries[i].0, entries[i].1);
    forall k, p | 0 <= k < |entries| && k != i && 0 <= p < |Items(entries[k].1)|
      ensures Items(entries[k].1)[p].values == old(Items(entries[k].1)[p].values)
    {
      Separate(entries, k, i, p);
    }
  }

  /** Every entry before `i + 1` passes when every entry before `i` does and
      entry `i` does. */
  lemma PassedStep(rows: seq<Row>, snap: seq<(string, Arg)>, i: nat)
    requires AllShaped(snap) && i < |snap|
    requires forall k :: 0 <= k < i ==> Evaluate(rows, snap[k].0, snap[k].1) == None
    requires Evaluate(rows, snap[i].0, snap[i].1) == None
    ensures forall k :: 0 <= k < i + 1 ==> Evaluate(rows, snap[k].0, snap[k].1) == None
  {
  }

  /** `run_assertions` as written: it raises what `RunSpec` says of the
      mapping as it was on entry; every entry up to and including the one
      that raised has had its validator run on its rule dicts, and the dicts
      of the entries after it are untouched. */
  method RunAssertions(rows: seq<Row>, entries: Assertions) returns (r: Option<Raised>)
    requires WellFormed(entries)
    modifies Objects(entries)
    ensures AllShaped(old(Snapshot(entries)))
    ensures r == RunSpec(rows, old(Snapshot(entries)))
    ensures Progress(rows, entries, old(RawValues(entries)), Stop(rows, old(Snapshot(entries))) + 1)
  {
    ghost var snap := Snapshot(entries);
    ghost var before := RawValues(entries);
    var i := 0;
    while i < |entries|
      invariant 0 <= i <= |entries|
      invariant forall k :: 0 <= k < i ==> Evaluate(rows, snap[k].0, snap[k].1) == None
      invariant Progress(rows, entries, before, i)
    {
      ArgUnchanged(entries[i].1);
      assert (entries[i].0, ArgOf(entries[i].1)) == snap[i];
      var raised := RunEntry(rows, entries, i, before);
      if raised.Some? {
        StopAt(rows, snap, i);
        r := raised;
        return;
      }
      PassedStep(rows, snap, i);
      i := i + 1;
    }
    StopAt(rows, snap, i);
    r := None;
  }
}

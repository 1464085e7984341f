/** The five row validators: `row_count`, `has`, `missing`, `no_nulls` and
    `only_nulls`. Each either passes or raises `AssertionError` with a
    message; here each yields a `Verdict`. The pure `...Verdict` functions
    say what the answer is; the methods follow the source's loops (and, for
    `has` and `missing`, its in-place rewrite of the caller's rule dicts) and
    are proved to give the same answer. */
module Validators {
  import opened Wrappers
  import opened Rows

  /** A `has`/`missing` rule seen as a value: its column and its value set. */
  type RuleView = (string, set<Value>)

  /** Why a validator raised `AssertionError`. */
  datatype Failure =
    | CountMismatch(expected: int, actual: nat)
    | ValuesNotFound(remaining: seq<RuleView>)
    | UnexpectedValue(value: Value, column: string)
    | UnexpectedNull(column: string)
    | UnexpectedNonNull(value: Value, column: string)

  /** The result of one validator call: it returned, or it raised. */
  datatype Verdict = Pass | Fail(failure: Failure)

  /** The `AssertionError` message of a failure. For `ValuesNotFound` only the
      fixed prefix is written; the rules themselves are kept in the value. */
  function Describe(f: Failure): (r: string)
    ensures f.CountMismatch? ==> "Expected " <= r
    ensures f.ValuesNotFound? ==> r == "Expected values not found: "
    ensures f.UnexpectedValue? || f.UnexpectedNonNull? ==> "Unexpected value '" <= r
    ensures f.UnexpectedNull? ==> "Unexpected 'null' value" <= r
    ensures f.UnexpectedValue? || f.UnexpectedNull? || f.UnexpectedNonNull? ==>
      var tail := "column '" + f.column + "'";
      |tail| <= |r| && r[|r| - |tail|..] == tail
  {
    match f
    case CountMismatch(expected, actual) =>
      "Expected " + IntToString(expected) + ", got " + IntToString(actual)
    case ValuesNotFound(_) =>
      "Expected values not found: "
    case UnexpectedValue(value, column) =>
      ColumnTail("Unexpected value '" + Render(value) + "' found in ", column)
    case UnexpectedNull(column) =>
      ColumnTail("Unexpected 'null' value in ", column)
    case UnexpectedNonNull(value, column) =>
      ColumnTail("Unexpected value '" + Render(value) + "' in ", column)
  }

  /** A message that ends by naming a column. */
  function ColumnTail(head: string, column: string): (r: string)
    ensures head <= r
    ensures var tail := "column '" + column + "'"; |tail| <= |r| && r[|r| - |tail|..] == tail
  {
    var tail := "column '" + column + "'";
    assert (head + tail)[|head|..] == tail;
    head + tail
  }

  // ---------------------------------------------------------------------
  // The caller's rule dicts

  /** The `values` entry of a rule dict: the list the caller wrote, or the set
      `has` and `missing` overwrite it with. */
  datatype RuleValues = ListOf(items: seq<Value>) | SetOf(members: set<Value>)

  function Members(vs: RuleValues): set<Value>
  {
    match vs
    case ListOf(items) => set v | v in items
    case SetOf(members) => members
  }

  /** One `{column, values}` rule dict of a `has` or `missing` assertion. The
      validators rewrite `values` in place; `column` is never written. */
  class ColumnRule {
    const column: string
    var values: RuleValues

    constructor (column: string, values: seq<Value>)
      ensures this.column == column && this.values == ListOf(values)
    {
      this.column := column;
      this.values := ListOf(values);
    }
  }

  function Footprint(rules: seq<ColumnRule>): set<ColumnRule>
  {
    set r | r in rules
  }

  /** The rules as values, in order. */
  function Views(rules: seq<ColumnRule>): (vs: seq<RuleView>)
    reads Footprint(rules)
    ensures |vs| == |rules|
    ensures forall k :: 0 <= k < |rules| ==> vs[k] == (rules[k].column, Members(rules[k].values))
  {
    if rules == [] then []
    else
      var last := rules[|rules| - 1];
      Views(rules[..|rules| - 1]) + [(last.column, Members(last.values))]
  }

  /** `rule['values'] = set(rule['values'])` for every rule, as both `has`
      and `missing` begin. */
  method ToSets(rules: seq<ColumnRule>)
    modifies Footprint(rules)
    ensures forall k :: 0 <= k < |rules| ==> rules[k].values == SetOf(old(Members(rules[k].values)))
  {
    var k := 0;
    while k < |rules|
      invariant 0 <= k <= |rules|
      invariant forall m :: 0 <= m < |rules| ==> Members(rules[m].values) == old(Members(rules[m].values))
      invariant forall m :: 0 <= m < k ==> rules[m].values.SetOf?
    {
      rules[k].values := SetOf(Members(rules[k].values));
      k := k + 1;
    }
  }

  // ---------------------------------------------------------------------
  // row_count

  /** `row_count`: passes exactly when there are `expected` rows; the failure
      carries both numbers. */
  function RowCount(rows: seq<Row>, expected: int): (v: Verdict)
    ensures v == Pass <==> |rows| == expected
    ensures v.Fail? ==> v.failure == CountMismatch(expected, |rows|)
  {
    if |rows| == expected then Pass else Fail(CountMismatch(expected, |rows|))
  }

  // ---------------------------------------------------------------------
  // has

  /** Every value `column` takes in `rows`. */
  function Seen(rows: seq<Row>, column: string): (s: set<Value>)
    ensures forall v :: v in s <==> exists i :: 0 <= i < |rows| && Get(rows[i], column) == v
  {
    if rows == [] then {}
    else Seen(rows[..|rows| - 1], column) + {Get(rows[|rows| - 1], column)}
  }

  lemma SeenExtend(rows: seq<Row>, i: nat, column: string)
    requires i < |rows|
    ensures Seen(rows[..i + 1], column) == Seen(rows[..i], column) + {Get(rows[i], column)}
  {
    assert rows[..i + 1][..i] == rows[..i];
  }

  /** Each rule with the values that appear in its column taken out. */
  function Unseen(rows: seq<Row>, views: seq<RuleView>): seq<RuleView>
  {
    seq(|views|, k requires 0 <= k < |views| => (views[k].0, views[k].1 - Seen(rows, views[k].0)))
  }

  /** The rules whose value set is not empty, in order
      (`[rule for rule in rules if rule['values']]`). */
  function NonEmpty(views: seq<RuleView>): (r: seq<RuleView>)
    ensures forall x :: x in r <==> x in views && x.1 != {}
    ensures r == [] <==> forall k :: 0 <= k < |views| ==> views[k].1 == {}
  {
    if views == [] then []
    else
      var last := views[|views| - 1];
      NonEmpty(views[..|views| - 1]) + (if last.1 != {} then [last] else [])
  }

  /** `has` as a function of the rows and the rules' original value sets:
      the rules that keep unseen values, if any, with those values. */
  function HasVerdict(rows: seq<Row>, views: seq<RuleView>): (v: Verdict)
    ensures v.Fail? ==> v.failure.ValuesNotFound? && v.failure.remaining != []
    ensures v.Fail? ==> forall x :: x in v.failure.remaining ==> x.1 != {}
  {
    var remaining := NonEmpty(Unseen(rows, views));
    if remaining == [] then Pass else Fail(ValuesNotFound(remaining))
  }

  /** `has` passes exactly when every expected value of every rule is the
      value of that rule's column in some row (an absent column reading as
      NULL, values compared exactly). */
  lemma HasPasses(rows: seq<Row>, views: seq<RuleView>)
    ensures HasVerdict(rows, views) == Pass <==>
      forall k, x :: 0 <= k < |views| && x in views[k].1 ==>
        (exists i :: 0 <= i < |rows| && Get(rows[i], views[k].0) == x)
  {
    var unseen := Unseen(rows, views);
    assert forall k :: 0 <= k < |views| ==> (unseen[k].1 == {} <==> views[k].1 <= Seen(rows, views[k].0));
  }

  /** On failure `has` reports each rule that still has unseen values, with
      exactly those values, and nothing else. */
  lemma HasReports(rows: seq<Row>, views: seq<RuleView>)
    ensures HasVerdict(rows, views).Fail? ==> HasVerdict(rows, views).failure.ValuesNotFound?
    ensures HasVerdict(rows, views).Fail? ==> forall x :: x in HasVerdict(rows, views).failure.remaining <==>
      (x.1 != {} && exists k :: 0 <= k < |views| && x == (views[k].0, views[k].1 - Seen(rows, views[k].0)))
  {
    var unseen := Unseen(rows, views);
    assert forall k :: 0 <= k < |views| ==> unseen[k] == (views[k].0, views[k].1 - Seen(rows, views[k].0));
    assert forall x :: x in unseen <==> exists k :: 0 <= k < |views| && x == unseen[k];
  }

  /** The inner loop of `has` for one row: each rule's set loses the value
      the row shows in that rule's column. */
  method DiscardSeen(row: Row, rules: seq<ColumnRule>)
    requires forall m :: 0 <= m < |rules| ==> rules[m].values.SetOf?
    modifies Footprint(rules)
    ensures forall m :: 0 <= m < |rules| ==>
      rules[m].values == SetOf(old(rules[m].values.members) - {Get(row, rules[m].column)})
  {
    var j := 0;
    while j < |rules|
      invariant 0 <= j <= |rules|
      invariant forall m :: 0 <= m < |rules| ==>
        rules[m].values == SetOf(old(rules[m].values.members) - {Get(row, rules[m].column)}) ||
        (j <= m && rules[m].values == old(rules[m].values))
    {
      var rule := rules[j];
      var x := Get(row, rule.column);
      if x in rule.values.members {
        rule.values := SetOf(rule.values.members - {x});
      }
      j := j + 1;
    }
  }

  /** `has` as written: turns every rule's values into a set, discards from it
      each value a row shows in the rule's column, and fails when some rule
      keeps a value. Afterwards each caller rule holds exactly its never-seen
      values. */
  method Has(rows: seq<Row>, rules: seq<ColumnRule>) returns (v: Verdict)
    modifies Footprint(rules)
    ensures forall k :: 0 <= k < |rules| ==>
      rules[k].values == SetOf(old(Members(rules[k].values)) - Seen(rows, rules[k].column))
    ensures v == HasVerdict(rows, old(Views(rules)))
  {
    ghost var before := Views(rules);
    ToSets(rules);
    var i := 0;
    while i < |rows|
      invariant 0 <= i <= |rows|
      invariant forall m :: 0 <= m < |rules| ==>
        rules[m].values == SetOf(before[m].1 - Seen(rows[..i], rules[m].column))
    {
      DiscardSeen(rows[i], rules);
      forall m | 0 <= m < |rules|
        ensures rules[m].values == SetOf(before[m].1 - Seen(rows[..i + 1], rules[m].column))
      {
        SeenStep(before[m].1, rows, i, rules[m].column);
      }
      i := i + 1;
    }
    var after := Views(rules);
    UnseenAfter(rows, before, after);
    var remaining := NonEmpty(after);
    v := if remaining == [] then Pass else Fail(ValuesNotFound(remaining));
  }

  lemma SeenStep(expected: set<Value>, rows: seq<Row>, i: nat, column: string)
    requires i < |rows|
    ensures expected - Seen(rows[..i], column) - {Get(rows[i], column)} == expected - Seen(rows[..i + 1], column)
  {
    SeenExtend(rows, i, column);
  }

  lemma UnseenAfter(rows: seq<Row>, before: seq<RuleView>, after: seq<RuleView>)
    requires |after| == |before|
    requires forall m :: 0 <= m < |after| ==>
      after[m] == (before[m].0, before[m].1 - Seen(rows[..|rows|], before[m].0))
    ensures after == Unseen(rows, before)
  {
    assert rows[..|rows|] == rows;
  }

  /** The rules of two lists keep their unseen values independently. */
  lemma UnseenAppend(rows: seq<Row>, a: seq<RuleView>, b: seq<RuleView>)
    ensures Unseen(rows, a + b) == Unseen(rows, a) + Unseen(rows, b)
  {
    var u := Unseen(rows, a + b);
    forall k | 0 <= k < |a| + |b|
      ensures u[k] == (Unseen(rows, a) + Unseen(rows, b))[k]
    {
      if k < |a| {
        assert (a + b)[k] == a[k];
      } else {
        assert (a + b)[k] == b[k - |a|];
      }
    }
  }

  lemma {:induction false} NonEmptyAppend(a: seq<RuleView>, b: seq<RuleView>)
    ensures NonEmpty(a + b) == NonEmpty(a) + NonEmpty(b)
    decreases |b|
  {
    if b == [] {
      assert a + b == a;
    } else {
      var init, last := b[..|b| - 1], b[|b| - 1];
      var keep := if last.1 != {} then [last] else [];
      assert (a + b)[..|a + b| - 1] == a + init;
      assert (a + b)[|a + b| - 1] == last;
      calc {
        NonEmpty(a + b);
        NonEmpty(a + init) + keep;
        { NonEmptyAppend(a, init); }
        NonEmpty(a) + NonEmpty(init) + keep;
        NonEmpty(a) + (NonEmpty(init) + keep);
        NonEmpty(a) + NonEmpty(b);
      }
    }
  }

  /** With no rules `has` passes, and a rule with no values, wherever it
      stands in the list, changes nothing. */
  lemma HasEdgeCases(rows: seq<Row>, a: seq<RuleView>, column: string, b: seq<RuleView>)
    ensures HasVerdict(rows, []) == Pass
    ensures HasVerdict(rows, a + [(column, {})] + b) == HasVerdict(rows, a + b)
  {
    var ua, ue, ub := Unseen(rows, a), Unseen(rows, [(column, {})]), Unseen(rows, b);
    assert ue[0].1 == {};
    assert NonEmpty(ue) == [];
    calc {
      NonEmpty(Unseen(rows, a + [(column, {})] + b));
      { UnseenAppend(rows, a + [(column, {})], b); UnseenAppend(rows, a, [(column, {})]); }
      NonEmpty(ua + ue + ub);
      { NonEmptyAppend(ua + ue, ub); NonEmptyAppend(ua, ue); }
      NonEmpty(ua) + NonEmpty(ub);
      { NonEmptyAppend(ua, ub); UnseenAppend(rows, a, b); }
      NonEmpty(Unseen(rows, a + b));
    }
  }

  /** Over no rows `has` passes only when no rule expects anything. */
  lemma HasNoRows(views: seq<RuleView>)
    ensures HasVerdict([], views) == Pass <==> forall k :: 0 <= k < |views| ==> views[k].1 == {}
  {
    forall k | 0 <= k < |views|
      ensures Unseen([], views)[k] == views[k]
    {
      assert Seen([], views[k].0) == {};
      assert views[k].1 - {} == views[k].1;
    }
    assert Unseen([], views) == views;
  }

  // ---------------------------------------------------------------------
  // The row-major scan shared by missing, no_nulls and only_nulls

  /** Row `i`, item `k` is the first flagged pair when rows are scanned in
      order and, within a row, items in order. */
  ghost predicate IsFirst<T>(rows: seq<Row>, items: seq<T>, bad: (Row, T) -> bool, i: int, k: int)
  {
    0 <= i < |rows| && 0 <= k < |items| && bad(rows[i], items[k]) &&
    forall i', k' :: 0 <= i' < |rows| && 0 <= k' < |items| && (i' < i || (i' == i && k' < k)) ==>
      !bad(rows[i'], items[k'])
  }

  /** The first item of `items` that `bad` flags in `row`. */
  function FirstBadIn<T>(row: Row, items: seq<T>, bad: (Row, T) -> bool): (r: Option<nat>)
    ensures r == None <==> forall k :: 0 <= k < |items| ==> !bad(row, items[k])
    ensures r.Some? ==>
      r.value < |items| && bad(row, items[r.value]) &&
      forall k :: 0 <= k < r.value ==> !bad(row, items[k])
  {
    if items == [] then None
    else if bad(row, items[0]) then Some(0)
    else match FirstBadIn(row, items[1..], bad)
      case None => None
      case Some(k) => Some(k + 1)
  }

  /** The first (row, item) pair that `bad` flags, scanning rows outer and
      items inner; `None` when there is none. */
  function FirstBad<T>(rows: seq<Row>, items: seq<T>, bad: (Row, T) -> bool): (r: Option<(nat, nat)>)
    ensures r == None <==>
      forall i, k :: 0 <= i < |rows| && 0 <= k < |items| ==> !bad(rows[i], items[k])
    ensures r.Some? ==> IsFirst(rows, items, bad, r.value.0, r.value.1)
  {
    if rows == [] then None
    else match FirstBadIn(rows[0], items, bad)
      case Some(k) => Some((0, k))
      case None =>
        match FirstBad(rows[1..], items, bad)
        case None => None
        case Some((i, k)) => Some((i + 1, k))
  }

  /** A flagged pair with nothing flagged before it is the one the scan finds. */
  lemma FirstBadAt<T>(rows: seq<Row>, items: seq<T>, bad: (Row, T) -> bool, i: nat, k: nat)
    requires IsFirst(rows, items, bad, i, k)
    ensures FirstBad(rows, items, bad) == Some((i, k))
  {
    var r := FirstBad(rows, items, bad);
    assert r.Some?;
    var (i', k') := r.value;
    assert !(i' < i || (i' == i && k' < k));
    assert !(i < i' || (i == i' && k < k'));
  }

  // ---------------------------------------------------------------------
  // missing

  predicate Forbidden(row: Row, rule: RuleView)
  {
    Get(row, rule.0) in rule.1
  }

  /** `missing` as a function of the rows and the rules' value sets: the
      first row value found in its rule's set, if any. */
  function MissingVerdict(rows: seq<Row>, views: seq<RuleView>): (v: Verdict)
    ensures v.Fail? ==> v.failure.UnexpectedValue?
    ensures v.Fail? ==> exists k :: 0 <= k < |views| && v.failure.column == views[k].0 && v.failure.value in views[k].1
  {
    match FirstBad(rows, views, Forbidden)
    case None => Pass
    case Some((i, k)) => Fail(UnexpectedValue(Get(rows[i], views[k].0), views[k].0))
  }

  /** `missing` passes exactly when no row's value in a rule's column is one
      of that rule's values. On failure it names the value and column of the
      first such pair, rows scanned outer and rules inner. */
  lemma MissingMeaning(rows: seq<Row>, views: seq<RuleView>)
    ensures MissingVerdict(rows, views) == Pass <==>
      forall i, k :: 0 <= i < |rows| && 0 <= k < |views| ==> Get(rows[i], views[k].0) !in views[k].1
    ensures MissingVerdict(rows, views).Fail? ==> exists i, k ::
      IsFirst(rows, views, Forbidden, i, k) &&
      MissingVerdict(rows, views).failure == UnexpectedValue(Get(rows[i], views[k].0), views[k].0)
  {
    match FirstBad(rows, views, Forbidden)
    case None =>
    case Some((i, k)) =>
      assert IsFirst(rows, views, Forbidden, i, k);
  }

  /** `missing` as written: turns every rule's values into a set in place,
      then stops at the first row value found in its rule's set. */
  method Missing(rows: seq<Row>, rules: seq<ColumnRule>) returns (v: Verdict)
    modifies Footprint(rules)
    ensures forall k :: 0 <= k < |rules| ==> rules[k].values == SetOf(old(Members(rules[k].values)))
    ensures v == MissingVerdict(rows, old(Views(rules)))
  {
    ghost var before := Views(rules);
    ToSets(rules);
    assert Views(rules) == before;
    var i := 0;
    while i < |rows|
      invariant 0 <= i <= |rows|
      invariant forall i', k :: 0 <= i' < i && 0 <= k < |rules| ==> !Forbidden(rows[i'], before[k])
    {
      var j := 0;
      while j < |rules|
        invariant 0 <= j <= |rules|
        invariant forall k :: 0 <= k < j ==> !Forbidden(rows[i], before[k])
      {
        var rule := rules[j];
        var x := Get(rows[i], rule.column);
        if x in rule.values.members {
          FirstBadAt(rows, before, Forbidden, i, j);
          return Fail(UnexpectedValue(x, rule.column));
        }
        j := j + 1;
      }
      i := i + 1;
    }
    v := Pass;
  }

  // ---------------------------------------------------------------------
  // no_nulls and only_nulls

  predicate NullAt(row: Row, column: string)
  {
    Get(row, column) == Null
  }

  predicate ValueAt(row: Row, column: string)
  {
    Get(row, column) != Null
  }

  /** `no_nulls` as a function: the column of the first NULL, if any. */
  function NoNullsVerdict(rows: seq<Row>, columns: seq<string>): (v: Verdict)
    ensures v.Fail? ==> v.failure.UnexpectedNull? && v.failure.column in columns
  {
    match FirstBad(rows, columns, NullAt)
    case None => Pass
    case Some((_, k)) => Fail(UnexpectedNull(columns[k]))
  }

  /** `no_nulls` passes exactly when every listed column is set in every row,
      an absent column counting as NULL; on failure it names the column of
      the first NULL found. */
  lemma NoNullsMeaning(rows: seq<Row>, columns: seq<string>)
    ensures NoNullsVerdict(rows, columns) == Pass <==>
      forall i, k :: 0 <= i < |rows| && 0 <= k < |columns| ==> Get(rows[i], columns[k]) != Null
    ensures NoNullsVerdict(rows, columns).Fail? ==> exists i, k ::
      IsFirst(rows, columns, NullAt, i, k) && NoNullsVerdict(rows, columns).failure == UnexpectedNull(columns[k])
  {
    match FirstBad(rows, columns, NullAt)
    case None =>
    case Some((i, k)) =>
      assert IsFirst(rows, columns, NullAt, i, k);
  }

  /** `only_nulls` as a function: the first value that is not NULL, with its
      column, if any. */
  function OnlyNullsVerdict(rows: seq<Row>, columns: seq<string>): (v: Verdict)
    ensures v.Fail? ==> v.failure.UnexpectedNonNull? && v.failure.value != Null && v.failure.column in columns
  {
    match FirstBad(rows, columns, ValueAt)
    case None => Pass
    case Some((i, k)) => Fail(UnexpectedNonNull(Get(rows[i], columns[k]), columns[k]))
  }

  /** `only_nulls` passes exactly when every listed column is NULL or absent
      in every row; on failure it names the first non-NULL value and its
      column. */
  lemma OnlyNullsMeaning(rows: seq<Row>, columns: seq<string>)
    ensures OnlyNullsVerdict(rows, columns) == Pass <==>
      forall i, k :: 0 <= i < |rows| && 0 <= k < |columns| ==> Get(rows[i], columns[k]) == Null
    ensures OnlyNullsVerdict(rows, columns).Fail? ==> exists i, k ::
      IsFirst(rows, columns, ValueAt, i, k) &&
      OnlyNullsVerdict(rows, columns).failure == UnexpectedNonNull(Get(rows[i], columns[k]), columns[k]) &&
      Get(rows[i], columns[k]) != Null
  {
    match FirstBad(rows, columns, ValueAt)
    case None =>
    case Some((i, k)) =>
      assert IsFirst(rows, columns, ValueAt, i, k);
  }

  /** `no_nulls` as written: a nested scan that stops at the first NULL. */
  method NoNulls(rows: seq<Row>, columns: seq<string>) returns (v: Verdict)
    ensures v == NoNullsVerdict(rows, columns)
  {
    var i := 0;
    while i < |rows|
      invariant 0 <= i <= |rows|
      invariant forall i', k :: 0 <= i' < i && 0 <= k < |columns| ==> !NullAt(rows[i'], columns[k])
    {
      var j := 0;
      while j < |columns|
        invariant 0 <= j <= |columns|
        invariant forall k :: 0 <= k < j ==> !NullAt(rows[i], columns[k])
      {
        var column := columns[j];
        if Get(rows[i], column) == Null {
          FirstBadAt(rows, columns, NullAt, i, j);
          return Fail(UnexpectedNull(column));
        }
        j := j + 1;
      }
      i := i + 1;
    }
    v := Pass;
  }

  /** `only_nulls` as written: a nested scan that stops at the first value
      that is not NULL. */
  method OnlyNulls(rows: seq<Row>, columns: seq<string>) returns (v: Verdict)
    ensures v == OnlyNullsVerdict(rows, columns)
  {
    var i := 0;
    while i < |rows|
      invariant 0 <= i <= |rows|
      invariant forall i', k :: 0 <= i' < i && 0 <= k < |columns| ==> !ValueAt(rows[i'], columns[k])
    {
      var j := 0;
      while j < |columns|
        invariant 0 <= j <= |columns|
        invariant forall k :: 0 <= k < j ==> !ValueAt(rows[i], columns[k])
      {
        var column := columns[j];
        var x := Get(rows[i], column);
        if x != Null {
          FirstBadAt(rows, columns, ValueAt, i, j);
          return Fail(UnexpectedNonNull(x, column));
        }
        j := j + 1;
      }
      i := i + 1;
    }
    v := Pass;
  }

  /** With no rows, or with nothing to check, the three scanning validators
      pass. */
  lemma EmptyScansPass(rows: seq<Row>, views: seq<RuleView>, columns: seq<string>)
    ensures MissingVerdict([], views) == Pass && MissingVerdict(rows, []) == Pass
    ensures NoNullsVerdict([], columns) == Pass && NoNullsVerdict(rows, []) == Pass
    ensures OnlyNullsVerdict([], columns) == Pass && OnlyNullsVerdict(rows, []) == Pass
  {
    MissingMeaning([], views);
    MissingMeaning(rows, []);
    NoNullsMeaning([], columns);
    NoNullsMeaning(rows, []);
    OnlyNullsMeaning([], columns);
    OnlyNullsMeaning(rows, []);
  }

  /** With at least one row and one column, `no_nulls` and `only_nulls`
      cannot both pass. */
  lemma NullChecksExclusive(rows: seq<Row>, columns: seq<string>)
    requires |rows| > 0 && |columns| > 0
    ensures NoNullsVerdict(rows, columns).Fail? || OnlyNullsVerdict(rows, columns).Fail?
  {
    NoNullsMeaning(rows, columns);
    OnlyNullsMeaning(rows, columns);
    if NoNullsVerdict(rows, columns) == Pass {
      assert Get(rows[0], columns[0]) != Null;
    }
  }
}

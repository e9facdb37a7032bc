/**
 * The expense list of the page: the rows built at start-up
 * (`add_input_group`) and the callback behind the "+" and "-" buttons
 * (`add_remove_step`).
 *
 * A row is one input group: a caption (the `dbc.Label` text), an addon showing the currency prefix,
 * and an amount field. The addon and the amount field of a row carry the
 * same pattern-matching index, so one `index` stands for both.
 */
module ExpenseList {
  import opened Wrappers
  import opened Metrics

  datatype Row = Row(caption: string, prefix: string, index: nat, amount: Option<Amount>)

  /** What made Dash call `add_remove_step`: one of its four inputs, or none yet. */
  datatype Event =
    | Add                  // the "+" button
    | Remove               // the "-" button
    | NameEdit             // the expense-name field changed
    | CurrencyLabelChange  // the dropdown label changed
    | NoTrigger            // the initial call, nothing triggered it

  /** One call of the callback: its trigger and the current name and dropdown label. */
  datatype Call = Call(event: Event, name: string, currency: string)

  /** The prefix every start-up row shows. */
  const DefaultPrefix := "$"

  /** The labels of the start-up rows, in order. */
  const DefaultLabels: seq<string> :=
    ["Material Expenses", "Labor Expenses", "Shipping Expenses", "Third-Party Market Fees", "Other Expenses"]

  /** Row `i` carries index `i`: the only index space the page uses to address a row. */
  predicate WellIndexed(rows: seq<Row>)
  {
    forall i :: 0 <= i < |rows| ==> rows[i].index == i
  }

  /** Builds one row per label, in order, appending as it goes. */
  method AddInputGroup(labels: seq<string>) returns (inputs: seq<Row>)
    ensures |inputs| == |labels|
    ensures forall i :: 0 <= i < |labels| ==> inputs[i] == Row(labels[i], DefaultPrefix, i, None)
    ensures WellIndexed(inputs)
  {
    inputs := [];
    for k := 0 to |labels|
      invariant |inputs| == k
      invariant forall i :: 0 <= i < k ==> inputs[i] == Row(labels[i], DefaultPrefix, i, None)
    {
      inputs := inputs + [Row(labels[k], DefaultPrefix, |inputs|, None)];
    }
  }

  /** The list after one call of the callback. */
  function Step(rows: seq<Row>, c: Call): seq<Row>
  {
    if c.event == Add then rows + [Row(c.name, c.currency, |rows|, None)]
    else if |rows| > 0 && c.event == Remove then rows[..|rows| - 1]
    else rows
  }

  /** The callback: extends the list in place on Add, drops its last row on Remove. */
  method AddRemoveStep(c: Call, divList: seq<Row>) returns (result: seq<Row>)
    ensures result == Step(divList, c)
    // Add: one new empty row at the end, numbered by the old length; the rest kept
    ensures c.event == Add ==>
      |result| == |divList| + 1 && result[..|divList|] == divList &&
      result[|divList|] == Row(c.name, c.currency, |divList|, None)
    // Remove on a non-empty list: the list without its last row
    ensures c.event == Remove && divList != [] ==> result == divList[..|divList| - 1]
    // Remove on an empty list, and every other trigger: unchanged
    ensures c.event == Remove && divList == [] ==> result == []
    ensures c.event != Add && c.event != Remove ==> result == divList
  {
    result := divList;
    if c.event == Add {
      result := result + [Row(c.name, c.currency, |result|, None)];
    } else if |result| > 0 && c.event == Remove {
      result := result[..|result| - 1];
    }
  }

  /** The list after a sequence of calls, in the order Dash delivers them. */
  function Run(rows: seq<Row>, calls: seq<Call>): seq<Row>
    decreases |calls|
  {
    if calls == [] then rows else Run(Step(rows, calls[0]), calls[1..])
  }

  /** The row count after one call: +1 on Add, -1 on Remove but never below 0. */
  function NextCount(n: nat, e: Event): nat
  {
    match e
    case Add => n + 1
    case Remove => if n > 0 then n - 1 else 0
    case _ => n
  }

  /** The row count after a sequence of calls, as a stepwise floored counter. */
  function Count(n: nat, calls: seq<Call>): nat
    decreases |calls|
  {
    if calls == [] then n else Count(NextCount(n, calls[0].event), calls[1..])
  }

  function Adds(calls: seq<Call>): nat
  {
    if calls == [] then 0 else (if calls[0].event == Add then 1 else 0) + Adds(calls[1..])
  }

  function Removes(calls: seq<Call>): nat
  {
    if calls == [] then 0 else (if calls[0].event == Remove then 1 else 0) + Removes(calls[1..])
  }

  /** One call keeps the rows numbered 0..n-1, and changes the count as NextCount says. */
  lemma StepInvariant(rows: seq<Row>, c: Call)
    requires WellIndexed(rows)
    ensures WellIndexed(Step(rows, c))
    ensures |Step(rows, c)| == NextCount(|rows|, c.event)
  {
  }

  /** Every sequence of calls keeps the rows numbered 0..n-1. */
  lemma {:induction false} RunPreservesIndexing(rows: seq<Row>, calls: seq<Call>)
    requires WellIndexed(rows)
    ensures WellIndexed(Run(rows, calls))
    decreases |calls|
  {
    if calls != [] {
      StepInvariant(rows, calls[0]);
      RunPreservesIndexing(Step(rows, calls[0]), calls[1..]);
    }
  }

  /** The length of the list after a sequence of calls is the stepwise floored counter. */
  lemma {:induction false} RunCount(rows: seq<Row>, calls: seq<Call>)
    ensures |Run(rows, calls)| == Count(|rows|, calls)
    decreases |calls|
  {
    if calls != [] {
      var c := calls[0];
      assert |Step(rows, c)| == NextCount(|rows|, c.event);
      RunCount(Step(rows, c), calls[1..]);
    }
  }

  /**
   * The counter lies between n + adds - removes and n + adds: a Remove on an
   * empty list is lost, so the count is not simply the net number of clicks.
   */
  lemma {:induction false} CountBounds(n: nat, calls: seq<Call>)
    ensures n + Adds(calls) - Removes(calls) <= Count(n, calls) <= n + Adds(calls)
    decreases |calls|
  {
    if calls != [] {
      CountBounds(NextCount(n, calls[0].event), calls[1..]);
    }
  }

  /** The counter is exactly n + adds - removes when no Remove ever meets an empty list. */
  lemma {:induction false} CountWithoutUnderflow(n: nat, calls: seq<Call>)
    requires forall k :: 0 <= k <= |calls| ==> Removes(calls[..k]) <= n + Adds(calls[..k])
    ensures Count(n, calls) == n + Adds(calls) - Removes(calls)
    decreases |calls|
  {
    if calls != [] {
      var c := calls[0];
      assert calls[..1] == [c];
      assert Removes([c]) <= n + Adds([c]);
      var m := n + (if c.event == Add then 1 else 0) - (if c.event == Remove then 1 else 0);
      assert m >= 0;
      forall k | 0 <= k <= |calls[1..]|
        ensures Removes(calls[1..][..k]) <= m + Adds(calls[1..][..k])
      {
        var t := calls[1..][..k];
        assert calls[..k + 1] == [c] + t;
        assert Removes([c] + t) <= n + Adds([c] + t);
        assert ([c] + t)[0] == c && ([c] + t)[1..] == t;
        assert Adds([c] + t) == (if c.event == Add then 1 else 0) + Adds(t);
        assert Removes([c] + t) == (if c.event == Remove then 1 else 0) + Removes(t);
      }
      CountWithoutUnderflow(m, calls[1..]);
    }
  }

  /** A Remove on an empty list followed by an Add leaves one row, not max(0, 1 - 1). */
  lemma RemoveThenAddOnEmpty(name: string, currency: string)
    ensures |Run([], [Call(Remove, name, currency), Call(Add, name, currency)])| == 1
  {
    var calls := [Call(Remove, name, currency), Call(Add, name, currency)];
    RunCount([], calls);
    assert calls[1..][1..] == [];
    assert Count(1, calls[1..][1..]) == 1;
    assert Count(0, calls[1..]) == 1;
  }
}

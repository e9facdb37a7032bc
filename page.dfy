/**
 * How the three callbacks meet on the page: the amount fields of the rows
 * feed the Calculate callback, and the prefixes from the currency callback
 * are written into the addons of the rows (the output
 * `{'type': 'addon', 'index': ALL}`, in row order).
 */
module Page {
  import opened Wrappers
  import opened Metrics
  import opened ExpenseList
  import opened Currency

  /** The values of all amount fields, in row order: the last input of the Calculate callback. */
  function Amounts(rows: seq<Row>): (a: seq<Option<Amount>>)
    ensures |a| == |rows| && forall i :: 0 <= i < |rows| ==> a[i] == rows[i].amount
  {
    seq(|rows|, i requires 0 <= i < |rows| => rows[i].amount)
  }

  /** Dash writing one prefix into the addon of each row. */
  function ApplyPrefixes(rows: seq<Row>, prefixes: seq<string>): (r: seq<Row>)
    requires |prefixes| == |rows|
    ensures |r| == |rows|
    ensures forall i :: 0 <= i < |rows| ==>
      r[i].prefix == prefixes[i] && r[i].caption == rows[i].caption &&
      r[i].index == rows[i].index && r[i].amount == rows[i].amount
  {
    seq(|rows|, i requires 0 <= i < |rows| => rows[i].(prefix := prefixes[i]))
  }

  /**
   * A currency click relabels every existing row, and only its prefix: the
   * captions, the numbering and the amounts (hence the totals) stay as they were.
   */
  lemma BroadcastRelabelsEveryRow(cs: seq<string>, input: DropdownInput, rows: seq<Row>)
    requires UpdateLabel(cs, input, rows).Relabel?
    ensures var u := UpdateLabel(cs, input, rows);
      var r := ApplyPrefixes(rows, u.prefixes);
      (forall i :: 0 <= i < |r| ==> r[i].prefix == u.symbol) &&
      (WellIndexed(rows) ==> WellIndexed(r)) &&
      Amounts(r) == Amounts(rows)
  {
  }

  /** A new row has an empty amount field, so an Add changes neither the total nor the outcome. */
  lemma AddKeepsTotal(rows: seq<Row>, name: string, currency: string)
    ensures var after := Amounts(Step(rows, Call(Add, name, currency)));
      SumPresent(after) == SumPresent(Amounts(rows)) &&
      (AllParsable(after) <==> AllParsable(Amounts(rows)))
  {
    var after := Amounts(Step(rows, Call(Add, name, currency)));
    assert after[..|after| - 1] == Amounts(rows);
    assert after == Amounts(rows) + [None];
  }

  /** A Remove takes the amount of the last row out of the total. */
  lemma RemoveDropsLastAmount(rows: seq<Row>, name: string, currency: string)
    requires rows != []
    ensures SumPresent(Amounts(rows)) ==
            SumPresent(Amounts(Step(rows, Call(Remove, name, currency)))) + Contribution(rows[|rows| - 1].amount)
  {
    assert Amounts(rows)[..|rows| - 1] == Amounts(Step(rows, Call(Remove, name, currency)));
  }

  /** The start-up rows: five labels, all with "$", numbered 0..4, with empty amounts. */
  method InitialPage() returns (rows: seq<Row>)
    ensures |rows| == 5 && WellIndexed(rows)
    ensures forall i :: 0 <= i < 5 ==> rows[i].caption == DefaultLabels[i] && rows[i].prefix == "$"
    ensures SumPresent(Amounts(rows)) == 0.0
  {
    rows := AddInputGroup(DefaultLabels);
    var a := Amounts(rows);
    assert forall i :: 0 <= i < 5 ==> a[i] == None;
    AllNoneSumZero(a);
  }
}

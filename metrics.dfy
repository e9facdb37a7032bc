/**
 * The "Calculate" callback of the page (`on_button_click`): the total of the
 * entered expense amounts, the profit margin and the product price derived
 * from the markup percentage.
 *
 * Numbers are reals. How Python's `float()` reads an entry is not modelled:
 * an entry is already either a number or text that `float()` rejects. The
 * `'{0}{1:.2f}'` formatting is not modelled either: a computed readout keeps
 * the currency prefix and the real value it would print.
 */
module Metrics {
  import opened Wrappers

  /** A present amount field: what `float()` makes of its text. */
  datatype Amount = Number(v: real) | Unparsable(text: string)

  /** The Python exceptions the callback can raise. */
  datatype Error =
    | ValueError  // `float(i)` on text that is not a number
    | TypeError   // `markup / 100` when the markup field is empty (None)

  datatype Result<T> = Ok(value: T) | Raised(error: Error)

  /** One readout: literal text, or a prefix followed by a value printed to two decimals. */
  datatype Readout = Plain(text: string) | Fixed2(prefix: string, value: real)

  /** The three outputs, in the callback's order: margin, price, total. */
  datatype Readouts = Readouts(margin: Readout, price: Readout, total: Readout)

  /** `float(i)` succeeds on this entry, or the entry is skipped because it is None. */
  predicate Parsable(e: Option<Amount>)
  {
    e.None? || e.value.Number?
  }

  predicate AllParsable(s: seq<Option<Amount>>)
  {
    forall i :: 0 <= i < |s| ==> Parsable(s[i])
  }

  /** What one entry adds to the total: its number, or nothing. */
  function Contribution(e: Option<Amount>): real
  {
    if e.Some? && e.value.Number? then e.value.v else 0.0
  }

  /** The sum of the numbers among the entries, left to right. */
  function SumPresent(s: seq<Option<Amount>>): real
  {
    if s == [] then 0.0 else SumPresent(s[..|s| - 1]) + Contribution(s[|s| - 1])
  }

  /** The sum of a concatenation is the sum of its parts. */
  lemma {:induction false} SumPresentAppend(a: seq<Option<Amount>>, b: seq<Option<Amount>>)
    ensures SumPresent(a + b) == SumPresent(a) + SumPresent(b)
    decreases |b|
  {
    if b != [] {
      var b' := b[..|b| - 1];
      assert (a + b)[..|a + b| - 1] == a + b';
      assert (a + b)[|a + b| - 1] == b[|b| - 1];
      SumPresentAppend(a, b');
    } else {
      assert a + b == a;
    }
  }

  /** Missing entries (None) add nothing to the total, wherever they are. */
  lemma {:induction false} SumPresentIgnoresNone(a: seq<Option<Amount>>, b: seq<Option<Amount>>)
    ensures SumPresent(a + [None] + b) == SumPresent(a + b)
  {
    SumPresentAppend(a + [None], b);
    SumPresentAppend(a, [None]);
    SumPresentAppend(a, b);
    var none: seq<Option<Amount>> := [None];
    assert none[..0] == [];
  }

  /** The total does not depend on the order of the fields: any permutation has the same sum. */
  lemma {:induction false} SumPresentPermutation(a: seq<Option<Amount>>, b: seq<Option<Amount>>)
    requires multiset(a) == multiset(b)
    ensures SumPresent(a) == SumPresent(b)
    decreases |a|
  {
    if a == [] {
      assert |b| == |multiset(b)| == 0;
    } else {
      var x := a[|a| - 1];
      var a' := a[..|a| - 1];
      assert a == a' + [x];
      assert x in multiset(b);
      var j :| 0 <= j < |b| && b[j] == x;
      var b' := b[..j] + b[j + 1..];
      assert b == b[..j] + [x] + b[j + 1..];
      assert multiset(a) == multiset(a') + multiset{x};
      assert multiset(b) == multiset(b[..j]) + multiset{x} + multiset(b[j + 1..]);
      assert multiset(b') == multiset(b[..j]) + multiset(b[j + 1..]);
      assert multiset(a') == multiset(a) - multiset{x};
      assert multiset(b') == multiset(b) - multiset{x};
      SumPresentPermutation(a', b');
      SumPresentAppend(b[..j] + [x], b[j + 1..]);
      SumPresentAppend(b[..j], [x]);
      SumPresentAppend(b[..j], b[j + 1..]);
      SumPresentAppend(a', [x]);
      var xs: seq<Option<Amount>> := [x];
      assert xs[..0] == [];
    }
  }

  /** Only empty fields: the total is 0. */
  lemma {:induction false} AllNoneSumZero(a: seq<Option<Amount>>)
    requires forall i :: 0 <= i < |a| ==> a[i] == None
    ensures SumPresent(a) == 0.0
    decreases |a|
  {
    if a != [] {
      AllNoneSumZero(a[..|a| - 1]);
    }
  }

  /**
   * The callback as a function of its inputs: the click count of the button
   * (None before the first click), the markup field, the dropdown label and
   * the values of all amount fields in row order.
   */
  function Calculate(n: Option<nat>, markup: Option<real>, currency: string,
                     inputs: seq<Option<Amount>>): (r: Result<Readouts>)
    // before the first click: three times the currency followed by "0"
    ensures n.None? ==> r == Ok(Readouts(Plain(currency + "0"), Plain(currency + "0"), Plain(currency + "0")))
    // after a click: a present entry that is not a number raises, before the markup is looked at
    ensures n.Some? && !AllParsable(inputs) ==> r == Raised(ValueError)
    ensures n.Some? && AllParsable(inputs) && markup.None? ==> r == Raised(TypeError)
    ensures n.Some? && AllParsable(inputs) && markup.Some? ==> r.Ok?
    ensures n.Some? && AllParsable(inputs) && markup.Some? ==>
      r.value.total == Fixed2(currency, SumPresent(inputs))
    ensures n.Some? && AllParsable(inputs) && markup.Some? ==>
      r.value.margin == Fixed2(currency, SumPresent(inputs) * (markup.value / 100.0))
    // so the price is the total plus the margin
    ensures n.Some? && AllParsable(inputs) && markup.Some? ==>
      r.value.price == Fixed2(currency, r.value.total.value + r.value.margin.value)
  {
    if n.None? then
      Ok(Readouts(Plain(currency + "0"), Plain(currency + "0"), Plain(currency + "0")))
    else if !AllParsable(inputs) then
      Raised(ValueError)
    else if markup.None? then
      Raised(TypeError)
    else
      var te := SumPresent(inputs);
      var pm := te * (markup.value / 100.0);
      var pp := te * (1.0 + markup.value / 100.0);
      assert pm == SumPresent(inputs) * (markup.value / 100.0);
      Ok(Readouts(Fixed2(currency, pm), Fixed2(currency, pp), Fixed2(currency, te)))
  }

  /**
   * The callback as the source runs it: one pass over the entries that
   * accumulates their sum and stops at the first entry `float` rejects.
   */
  method OnButtonClick(n: Option<nat>, markup: Option<real>, currency: string,
                       inputs: seq<Option<Amount>>) returns (r: Result<Readouts>)
    ensures r == Calculate(n, markup, currency, inputs)
  {
    if n.None? {
      return Ok(Readouts(Plain(currency + "0"), Plain(currency + "0"), Plain(currency + "0")));
    }
    var te := 0.0;
    for k := 0 to |inputs|
      invariant AllParsable(inputs[..k])
      invariant te == SumPresent(inputs[..k])
    {
      assert inputs[..k + 1][..k] == inputs[..k];
      match inputs[k]
      case None =>
      case Some(Unparsable(_)) =>
        assert !Parsable(inputs[k]);
        assert Calculate(n, markup, currency, inputs) == Raised(ValueError);
        return Raised(ValueError);
      case Some(Number(v)) =>
        te := te + v;
    }
    assert inputs[..|inputs|] == inputs;
    if markup.None? {
      assert Calculate(n, markup, currency, inputs) == Raised(TypeError);
      return Raised(TypeError);
    }
    var pm := te * (markup.value / 100.0);
    var pp := te * (1.0 + markup.value / 100.0);
    assert AllParsable(inputs) && te == SumPresent(inputs);
    ghost var c := Calculate(n, markup, currency, inputs);
    assert c.Ok?;
    assert c.value.total == Fixed2(currency, te);
    assert c.value.margin == Fixed2(currency, pm);
    assert c.value.price == Fixed2(currency, pp);
    r := Ok(Readouts(Fixed2(currency, pm), Fixed2(currency, pp), Fixed2(currency, te)));
  }

  /** Two amounts with a 50% markup: total 30, margin 15, price 45. */
  lemma FiftyPercentOnThirty()
    ensures Calculate(Some(1), Some(50.0), "$", [Some(Number(10.0)), Some(Number(20.0))])
         == Ok(Readouts(Fixed2("$", 15.0), Fixed2("$", 45.0), Fixed2("$", 30.0)))
  {
    var s := [Some(Number(10.0)), Some(Number(20.0))];
    assert s[..1][..0] == [];
    assert SumPresent(s) == 30.0;
  }

  /** A present entry that is not a number is not skipped: the callback raises. */
  lemma UnparsableEntryRaises()
    ensures Calculate(Some(1), Some(10.0), "€", [Some(Number(10.0)), None, Some(Unparsable("abc"))])
         == Raised(ValueError)
  {
  }
}

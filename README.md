# Product Pricing & Profit Margin Calculator — Dafny model

The application is a single Dash page (`app.py`). Underneath its widget
layout sit three callbacks, and this project models them:

- **Expense list** (`add_input_group`, `add_remove_step`; module `ExpenseList`,
  `expense_list.dfy`). The page starts with one row per default label. Each row
  has a caption, a currency addon showing `'$'`, and an amount field, and both
  widgets carry the row's position as their pattern-matching `index`. The "+"
  button appends a row named after the expense-name field. That row shows the
  current dropdown label and gets the old list length as its index. The "-"
  button drops the last row if there is one. Every other trigger leaves the
  list alone. Dash's `callback_context` is replaced by an explicit `Event`
  (`Add`, `Remove`, `NameEdit`, `CurrencyLabelChange`, `NoTrigger`).
  `WellIndexed` says row `i` has index `i`. Every call preserves it, and over a
  sequence of calls the row count is a stepwise counter floored at 0.
- **Currency selector** (`update_label`; module `Currency`, `currency.dfy`).
  Dropdown items are keyed `item-1`, `item-2`, and so on, one per row of the
  currency table. The table `cs` is a parameter whose entries read
  `symbol + " - " + name`. A click looks the key up, runs
  `re.findall('^(.*-)', s)[0][:-2]` on the display string, and returns the
  symbol together with one copy of it per existing row. The regex is modelled
  exactly: its group is the longest prefix that ends in `'-'` and has no
  newline. So the cut falls at the last hyphen of the first line.
- **Derived metrics** (`on_button_click`; module `Metrics`, `metrics.dfy`).
  Before the first click of "Calculate", all three readouts are the currency
  followed by `"0"`. After a click, the callback sums the amounts that are
  present, left to right. It raises on an amount that `float()` rejects. It
  then derives margin = total × markup/100 and price = total × (1 + markup/100),
  so price = total + margin. Arithmetic is over `real`.
- **Page** (`page.dfy`) ties these together. The amounts of the rows are the
  input of the calculation. Dash writes the broadcast prefixes into the addons
  of the rows.

`wrappers.dfy` holds the `Option` type, which stands for Python's `None`.

The callbacks receive the Dash state as an argument and return the new value.
So each one is a method with a real out-parameter. Where the source loops, the
method loops too (`AddInputGroup`, `OnButtonClick`). `AddRemoveStep` and
`OnButtonClick` are proved equal to pure specification functions (`Step` and
`Calculate`), and the lemmas are stated over those functions. `AddInputGroup`
and `Page.InitialPage` state their result row by row in their own `ensures`.

Two behaviours of the code worth stating:

- A present amount that is not a number makes `float(i)` raise (`ValueError`).
  It is not skipped (`Metrics.UnparsableEntryRaises`).
- The row count after a run of clicks is the stepwise floored counter, not
  `max(0, adds - removes)`. A "-" on an empty list is lost
  (`ExpenseList.RemoveThenAddOnEmpty`, `ExpenseList.CountBounds`).

## Model

| member | source | states |
|---|---|---|
| `ExpenseList.AddInputGroup` | app.py:31-49 | one row per label, in input order; row `i` has caption `labels[i]`, prefix `'$'`, index `i` and an empty amount |
| `Page.InitialPage` | app.py:51-54 | the start-up list has the five default captions with `'$'`, numbered 0..4, and totals 0 |
| `ExpenseList.AddRemoveStep` | app.py:187-215 | Add appends exactly one empty row (caption = expense name, prefix = dropdown label, index = old length) and keeps every earlier row; Remove on a non-empty list drops the last row; Remove on an empty list and every other trigger return the list unchanged |
| `ExpenseList.StepInvariant` | app.py:196-215 | one call keeps indices exactly `0..n-1`, and the new length is +1 on Add, -1 floored at 0 on Remove, unchanged otherwise |
| `ExpenseList.RunPreservesIndexing` | app.py:196-215 | any sequence of calls keeps row `i` at index `i` |
| `ExpenseList.RunCount` | app.py:196-215 | the length after a sequence of calls is the stepwise floored counter `Count` |
| `ExpenseList.CountBounds` | app.py:213-215 | the counter lies between `n + adds - removes` and `n + adds` |
| `ExpenseList.CountWithoutUnderflow` | app.py:196-215 | if no Remove ever meets an empty list, the count is exactly `n + adds - removes` |
| `ExpenseList.RemoveThenAddOnEmpty` | app.py:213-214 | on an empty list, "-" and then "+" leave one row, so the count is not the net number of clicks |
| `Currency.DecimalStringInjective` | app.py:63 | `str(n)` is one-to-one on naturals |
| `Currency.KeyInjective` | app.py:60-63 | the keys `'item-'+str(i+1)` of different table positions differ |
| `Currency.IdLookup` | app.py:229 | the lookup maps key `item-(i+1)` to `cs[i]` for every table row and holds no other key |
| `Currency.RegexGroup` | app.py:243 | `findall('^(.*-)', s)` gives the longest newline-free prefix of `s` that ends in `'-'`, or no match when there is none |
| `Currency.LastHyphenCut` | app.py:243 | for `a + "-" + b` where `b` has no `'-'`, the group is `a + "-"` and the symbol is `a` without its last character: the cut is at the last hyphen |
| `Currency.SymbolOfDisplay` | app.py:243 | for a display string `sym + " - " + name` whose name has no `'-'`, the extracted symbol is exactly `sym` |
| `Currency.HyphenatedNameKeepsPartOfName` | app.py:243 | for `"XOF - Guinea-Bissau Franc"` the extracted symbol is `"XOF - Guine"` |
| `Currency.NoHyphenNoSymbol` | app.py:243 | with no `'-'` before the first newline there is no match, so `[0]` raises |
| `Currency.UpdateLabel` | app.py:227-244 | before any click: `('$', ['$'] * n)`; no trigger: no update; a key missing from the lookup raises `KeyError` exactly when it is not `item-(i+1)` for some table row; every relabel carries one copy of the symbol per existing row |
| `Currency.ClickedItem` | app.py:238-244 | clicking item `i+1` yields `(sym, [sym] * n)` for the symbol of `cs[i]`, or `IndexError` when it has none |
| `Currency.ClickedTableRow` | app.py:238-244 | clicking the item of a table row `sym + " - " + name` yields `(sym, [sym] * n)` |
| `Page.BroadcastRelabelsEveryRow` | app.py:219-244 | after a relabel every existing row shows the new symbol, while captions, indices and amounts are unchanged |
| `Page.AddKeepsTotal` | app.py:196-212 | a row added by "+" has an empty amount, so the total and whether the calculation raises stay the same |
| `Page.RemoveDropsLastAmount` | app.py:213-214 | "-" takes exactly the last row's amount out of the total |
| `Metrics.Calculate` | app.py:263-275 | before a click, all three readouts are `currency + "0"`; after a click, an unparsable present entry raises `ValueError`, an empty markup raises `TypeError`, and otherwise total = sum of present entries, margin = total × markup/100 and price = total + margin, all prefixed by the currency |
| `Metrics.OnButtonClick` | app.py:263-275 | the accumulating loop, which stops at the first unparsable entry, computes exactly `Calculate` |
| `Metrics.SumPresentAppend` | app.py:267-270 | the total of a concatenation is the sum of the totals |
| `Metrics.SumPresentIgnoresNone` | app.py:268-270 | an empty (None) field contributes nothing wherever it stands |
| `Metrics.SumPresentPermutation` | app.py:267-270 | the total does not depend on the order of the fields: any two sequences with the same multiset of entries have the same total |
| `Metrics.AllNoneSumZero` | app.py:267-270 | fields that are all empty total 0 |
| `Metrics.FiftyPercentOnThirty` | app.py:267-275 | amounts 10 and 20 with a 50% markup give total 30, margin 15, price 45 |
| `Metrics.UnparsableEntryRaises` | app.py:268-270 | `[10, None, "abc"]` raises rather than skipping `"abc"` |

## Left out

- Page layout: the Dash, dbc and html widget construction, `app.layout` and `app.run_server`. This is UI wiring.
- Loading `currencies.csv` with pandas. This is file I/O, so the table is the parameter `cs`.
- The projection chart with its `datetime` and `pd.date_range` data. It is static and unrelated to the entered data.
- Dash's `callback_context`, the `prop_id` splitting and `json.loads` of the triggered id. These are framework dispatch. They are replaced by `ExpenseList.Event` and `Currency.DropdownInput`, which carries the `index` of the clicked item.
- `dash.exceptions.PreventUpdate`. It is the value `PreventUpdate` rather than an exception.
- `float()` parsing. An amount is already `Number(v)` or `Unparsable(text)`, and an empty string counts as unparsable.
- `'{:.2f}'` formatting. A computed readout is `Fixed2(prefix, value)`, the value it would print, with no rounding of floats.
- Floating-point rounding. Totals, margin and price are exact reals.
- A markup of a non-numeric type is not modelled. The number input gives a number or None, and only None (`TypeError`) is modelled.
- An expense name that was never typed (Python `None` as the caption) is represented by some string.
- Editing an amount field. This happens in the browser, not in any callback. The rows carry their current amounts, and new rows start empty.
- The initial label `'$'` of the dropdown widget. It is the constant `DefaultPrefix`, which both the start-up rows and the no-click branch of `update_label` use.

/**
 * The currency dropdown (`update_label`): its items are the display strings
 * `symbol + " - " + name` of the currency table, keyed `item-1`, `item-2`, ...
 * A click sets the dropdown label to the symbol cut out of the display string
 * and sends that symbol to the addon of every row.
 *
 * The table is a parameter `cs`; reading it from the CSV file is not modelled.
 */
module Currency {
  import opened Wrappers
  import opened ExpenseList

  /* ---------- Dropdown keys: 'item-' + str(i + 1) ---------- */

  function Digit(d: nat): char
    requires d < 10
  {
    "0123456789"[d]
  }

  /** Python's `str(n)` for a natural number: decimal, no leading zeros. */
  function DecimalString(n: nat): (s: string)
    ensures |s| >= 1
    decreases n
  {
    if n < 10 then [Digit(n)] else DecimalString(n / 10) + [Digit(n % 10)]
  }

  /** Different numbers print differently. */
  lemma {:induction false} DecimalStringInjective(a: nat, b: nat)
    requires DecimalString(a) == DecimalString(b)
    ensures a == b
    decreases a
  {
    var s := DecimalString(a);
    if a >= 10 && b >= 10 {
      assert s[..|s| - 1] == DecimalString(a / 10) && s[..|s| - 1] == DecimalString(b / 10);
      DecimalStringInjective(a / 10, b / 10);
      assert Digit(a % 10) == s[|s| - 1] == Digit(b % 10);
    }
  }

  /** The key of the item at 0-based position `i` of the table. */
  function Key(i: nat): string
  {
    "item-" + DecimalString(i + 1)
  }

  /** Keys are one-to-one with table positions. */
  lemma KeyInjective(i: nat, j: nat)
    requires Key(i) == Key(j)
    ensures i == j
  {
    assert Key(i)[5..] == DecimalString(i + 1);
    assert Key(j)[5..] == DecimalString(j + 1);
    DecimalStringInjective(i + 1, j + 1);
  }

  lemma KeysDistinct(n: nat)
    ensures forall i, j :: 0 <= i < n && 0 <= j < n && Key(i) == Key(j) ==> i == j
  {
    forall i, j | 0 <= i < n && 0 <= j < n && Key(i) == Key(j) ensures i == j {
      KeyInjective(i, j);
    }
  }

  /** `id_lookup`: the 1-based key of each item mapped to its display string. */
  function IdLookup(cs: seq<string>): (m: map<string, string>)
    ensures forall i :: 0 <= i < |cs| ==> Key(i) in m && m[Key(i)] == cs[i]
    ensures forall k :: k in m ==> exists i :: 0 <= i < |cs| && k == Key(i)
  {
    KeysDistinct(|cs|);
    map i | 0 <= i < |cs| :: Key(i) := cs[i]
  }

  /* ---------- The symbol: re.findall('^(.*-)', s)[0][:-2] ---------- */

  /** A match of `^(.*-)`: a prefix of `s`, without newlines (`.`), ending in '-'. */
  predicate IsMatch(s: string, p: string)
  {
    p <= s && |p| > 0 && p[|p| - 1] == '-' && '\n' !in p
  }

  /** The text before the first newline. */
  function FirstLine(s: string): (t: string)
    ensures t <= s && '\n' !in t
    ensures |t| < |s| ==> s[|t|] == '\n'
  {
    if s == [] || s[0] == '\n' then [] else [s[0]] + FirstLine(s[1..])
  }

  /** The position of the last `c` in `s`, if any. */
  function LastIndex(s: string, c: char): (r: Option<nat>)
    ensures r.None? ==> c !in s
    ensures r.Some? ==> r.value < |s| && s[r.value] == c &&
                        forall j :: r.value < j < |s| ==> s[j] != c
  {
    if s == [] then None
    else if s[|s| - 1] == c then Some(|s| - 1)
    else LastIndex(s[..|s| - 1], c)
  }

  /**
   * What `re.findall('^(.*-)', s)` returns: no match at all, or the single
   * group, which the greedy `.*` makes as long as possible.
   */
  function RegexGroup(s: string): (r: Option<string>)
    ensures r.Some? ==> IsMatch(s, r.value)
    ensures r.Some? ==> forall p :: IsMatch(s, p) ==> |p| <= |r.value|
    ensures r.None? ==> forall p :: !IsMatch(s, p)
  {
    var line := FirstLine(s);
    match LastIndex(line, '-')
    case None =>
      assert forall p :: IsMatch(s, p) ==> p <= line by {
        forall p | IsMatch(s, p) ensures p <= line {
          PrefixWithoutNewline(s, p);
        }
      }
      None
    case Some(k) =>
      assert forall p :: IsMatch(s, p) ==> |p| <= k + 1 by {
        forall p | IsMatch(s, p) ensures |p| <= k + 1 {
          PrefixWithoutNewline(s, p);
        }
      }
      Some(s[..k + 1])
  }

  /** A prefix of `s` without newlines lies within the first line of `s`. */
  lemma PrefixWithoutNewline(s: string, p: string)
    requires p <= s && '\n' !in p
    ensures p <= FirstLine(s)
  {
  }

  /** Python's `t[:-2]`: all but the last two characters, or nothing. */
  function DropLastTwo(t: string): (u: string)
    ensures u <= t && |u| == if |t| >= 2 then |t| - 2 else 0
  {
    t[..if |t| >= 2 then |t| - 2 else 0]
  }

  /** The symbol cut out of a display string; None where `findall(...)[0]` raises. */
  function ExtractSymbol(display: string): Option<string>
  {
    match RegexGroup(display)
    case None => None
    case Some(g) => Some(DropLastTwo(g))
  }

  /** The regex cuts at the last '-' of the (first) line, whatever comes before it. */
  lemma LastHyphenCut(a: string, b: string)
    requires '\n' !in a && '-' !in b
    ensures RegexGroup(a + "-" + b) == Some(a + "-")
    ensures ExtractSymbol(a + "-" + b) == Some(a[..if |a| >= 1 then |a| - 1 else 0])
  {
    var s := a + "-" + b;
    assert IsMatch(s, a + "-");
    var g := RegexGroup(s).value;
    assert |g| <= |a| + 1;
    assert g == s[..|g|] && a + "-" == s[..|a| + 1];
    assert DropLastTwo(a + "-") == a[..if |a| >= 1 then |a| - 1 else 0];
  }

  /** A table row `sym + " - " + name` whose name has no '-' yields exactly `sym`. */
  lemma SymbolOfDisplay(sym: string, name: string)
    requires '\n' !in sym && '-' !in name
    ensures ExtractSymbol(sym + " - " + name) == Some(sym)
  {
    assert sym + " - " + name == (sym + " ") + "-" + (" " + name);
    LastHyphenCut(sym + " ", " " + name);
    assert (sym + " ")[..|sym|] == sym;
  }

  /** A currency name with a '-' in it: the cut falls inside the name. */
  lemma HyphenatedNameKeepsPartOfName()
    ensures ExtractSymbol("XOF - Guinea" + "-" + "Bissau Franc") == Some("XOF - Guine")
  {
    var a, b := "XOF - Guinea", "Bissau Franc";
    assert '\n' !in a;
    assert '-' !in b;
    LastHyphenCut(a, b);
    assert a[..11] == "XOF - Guine";
  }

  /** A display string with no '-' on its first line has no match: `[0]` raises. */
  lemma NoHyphenNoSymbol(s: string)
    requires '-' !in FirstLine(s)
    ensures ExtractSymbol(s) == None
  {
  }

  /* ---------- The callback ---------- */

  /** What the dropdown delivers to the callback. */
  datatype DropdownInput =
    | NoClicks            // `input is None`
    | Untriggered         // clicks are present but nothing triggered the call
    | Clicked(key: string) // the `index` of the item that triggered it

  /** The Python exceptions the lookup can raise. */
  datatype LookupError = KeyError | IndexError

  /** The callback's outcome: a new label and one prefix per row, no update, or an exception. */
  datatype LabelUpdate =
    | Relabel(symbol: string, prefixes: seq<string>)
    | PreventUpdate
    | Failed(error: LookupError)

  /** `[c] * n` */
  function Replicate(c: string, n: nat): (r: seq<string>)
    ensures |r| == n && forall j :: 0 <= j < n ==> r[j] == c
  {
    seq(n, _ => c)
  }

  /** `update_label(input, div_list)` over the currency table `cs`. */
  function UpdateLabel(cs: seq<string>, input: DropdownInput, divList: seq<Row>): (r: LabelUpdate)
    // every new label is broadcast to exactly one addon per existing row
    ensures r.Relabel? ==> |r.prefixes| == |divList| &&
                           forall j :: 0 <= j < |divList| ==> r.prefixes[j] == r.symbol
    ensures input.NoClicks? ==> r == Relabel(DefaultPrefix, Replicate(DefaultPrefix, |divList|))
    ensures input.Untriggered? ==> r == PreventUpdate
    ensures input.Clicked? ==>
      (r == Failed(KeyError) <==> forall i :: 0 <= i < |cs| ==> input.key != Key(i))
  {
    var idLookup := IdLookup(cs);
    match input
    case NoClicks => Relabel(DefaultPrefix, Replicate(DefaultPrefix, |divList|))
    case Untriggered => PreventUpdate
    case Clicked(key) =>
      if key !in idLookup then Failed(KeyError)
      else
        match ExtractSymbol(idLookup[key])
        case None => Failed(IndexError)
        case Some(current) => Relabel(current, Replicate(current, |divList|))
  }

  /** Clicking item `i + 1` relabels with the symbol of table row `i`, or raises IndexError. */
  lemma ClickedItem(cs: seq<string>, i: nat, divList: seq<Row>)
    requires i < |cs|
    ensures UpdateLabel(cs, Clicked(Key(i)), divList) ==
      match ExtractSymbol(cs[i])
      case None => Failed(IndexError)
      case Some(sym) => Relabel(sym, Replicate(sym, |divList|))
  {
  }

  /** For a well-formed table row the dropdown shows its symbol, on every row too. */
  lemma ClickedTableRow(cs: seq<string>, i: nat, sym: string, name: string, divList: seq<Row>)
    requires i < |cs| && cs[i] == sym + " - " + name
    requires '\n' !in sym && '-' !in name
    ensures UpdateLabel(cs, Clicked(Key(i)), divList) == Relabel(sym, Replicate(sym, |divList|))
  {
    SymbolOfDisplay(sym, name);
    ClickedItem(cs, i, divList);
  }
}

// gui/import_html_dialog.py: duplicate detection of parsed orders against
// the stored ones, the pre-selection of the table's checkboxes, and the
// tally of the import loop.

module ImportHtml {
  import opened Text
  import opened Orders
  import opened Database

  /** `(order.get(key) or '').strip()` for an incoming dictionary. */
  function Key(v: Option<string>): (r: string)
  {
    Strip(GetOr(v, ""))
  }

  /**
   * The test of the inner loop (import_html_dialog.py:244-250): equal
   * non-blank site order ids, or else equal non-blank tracking numbers,
   * compared exactly after trimming.
   */
  predicate SameShipment(newSite: string, newTracking: string, e: Order)
  {
    (newSite != "" && Strip(e.siteOrderId) != "" && newSite == Strip(e.siteOrderId))
    || (newTracking != "" && Strip(e.trackingNumber) != "" && newTracking == Strip(e.trackingNumber))
  }

  /** The stored order the inner loop stops at: the first one, from `from` on, that matches. */
  function FirstSameShipment(all: seq<Order>, newSite: string, newTracking: string, from: nat): (r: Option<nat>)
    requires from <= |all|
    ensures r.Some? ==> from <= r.value < |all| && SameShipment(newSite, newTracking, all[r.value])
    ensures r.Some? ==> forall j :: from <= j < r.value ==> !SameShipment(newSite, newTracking, all[j])
    ensures r.None? ==> forall j :: from <= j < |all| ==> !SameShipment(newSite, newTracking, all[j])
    decreases |all| - from
  {
    if from == |all| then None
    else if SameShipment(newSite, newTracking, all[from]) then Some(from)
    else FirstSameShipment(all, newSite, newTracking, from + 1)
  }

  /** The first match is the only index that matches with no match before it. */
  lemma FirstSameShipmentAt(all: seq<Order>, newSite: string, newTracking: string, j: nat)
    requires j < |all| && SameShipment(newSite, newTracking, all[j])
    requires forall i :: 0 <= i < j ==> !SameShipment(newSite, newTracking, all[i])
    ensures FirstSameShipment(all, newSite, newTracking, 0) == Some(j)
  {
  }

  /** The index of the stored order parsed row `row` duplicates, if any. */
  function FirstDup(all: seq<Order>, d: OrderData): (r: Option<nat>)
  {
    FirstSameShipment(all, Key(d.siteOrderId), Key(d.trackingNumber), 0)
  }

  /** The stored order parsed row `row` duplicates, if any. */
  function DupOf(all: seq<Order>, d: OrderData): (r: Option<Order>)
  {
    var f := FirstDup(all, d);
    if f.Some? then Some(all[f.value]) else None
  }

  /**
   * The dictionary `_find_duplicates` returns, keyed by table row: one entry
   * per parsed order, the stored order it duplicates or None. A row is in
   * the dictionary exactly when its entry holds an order.
   */
  type DupTable = seq<Option<Order>>

  predicate IsDup(dups: DupTable, row: nat)
  {
    row < |dups| && dups[row].Some?
  }

  /** For every parsed row, the stored order it duplicates, if any. */
  function Dups(orders: seq<OrderData>, all: seq<Order>): (ds: DupTable)
    ensures |ds| == |orders|
  {
    seq(|orders|, row requires 0 <= row < |orders| => DupOf(all, orders[row]))
  }

  /**
   * A row is a duplicate exactly when some stored order shares its trimmed
   * id or tracking number, and it is then paired with the first such order
   * in store order.
   */
  lemma DupsSpec(orders: seq<OrderData>, all: seq<Order>, row: nat)
    requires row < |orders|
    ensures var site := Key(orders[row].siteOrderId);
      var tracking := Key(orders[row].trackingNumber);
      (IsDup(Dups(orders, all), row) <==> exists j :: 0 <= j < |all| && SameShipment(site, tracking, all[j]))
      && (IsDup(Dups(orders, all), row) ==>
            exists j :: 0 <= j < |all| && Dups(orders, all)[row] == Some(all[j]) && SameShipment(site, tracking, all[j])
                     && forall i :: 0 <= i < j ==> !SameShipment(site, tracking, all[i]))
  {
    var f := FirstDup(all, orders[row]);
    assert Dups(orders, all)[row] == DupOf(all, orders[row]);
  }

  /** The inner loop of `_find_duplicates`: scan the stored orders and stop at the first match. */
  method FindFirstSameShipment(all: seq<Order>, d: OrderData) returns (r: Option<nat>)
    ensures r == FirstDup(all, d)
  {
    var newSite := Key(d.siteOrderId);
    var newTracking := Key(d.trackingNumber);
    var j := 0;
    while j < |all|
      invariant 0 <= j <= |all|
      invariant forall i :: 0 <= i < j ==> !SameShipment(newSite, newTracking, all[i])
    {
      var existing := all[j];
      var exSite := Strip(existing.siteOrderId);
      var exTracking := Strip(existing.trackingNumber);
      if (newSite != "" && exSite != "" && newSite == exSite)
        || (newTracking != "" && exTracking != "" && newTracking == exTracking)
      {
        FirstSameShipmentAt(all, newSite, newTracking, j);
        return Some(j);
      }
      j := j + 1;
    }
    return None;
  }

  /** `_find_duplicates` (import_html_dialog.py:235-254): for every parsed row, the first stored order it duplicates. */
  method FindDuplicates(orders: seq<OrderData>, all: seq<Order>) returns (dups: DupTable)
    ensures dups == Dups(orders, all)
  {
    dups := [];
    for row := 0 to |orders|
      invariant |dups| == row
      invariant forall k :: 0 <= k < row ==> dups[k] == DupOf(all, orders[k])
    {
      var f := FindFirstSameShipment(all, orders[row]);
      if f.Some? {
        dups := dups + [Some(all[f.value])];
      } else {
        dups := dups + [None];
      }
    }
  }

  /** A blank id and a blank tracking number on either side never make a duplicate. */
  lemma BlankNeverDuplicate(orders: seq<OrderData>, all: seq<Order>, row: nat)
    requires row < |orders|
    requires (Key(orders[row].siteOrderId) == "" || forall e :: e in all ==> Strip(e.siteOrderId) == "")
    requires (Key(orders[row].trackingNumber) == "" || forall e :: e in all ==> Strip(e.trackingNumber) == "")
    ensures !IsDup(Dups(orders, all), row)
  {
    forall j | 0 <= j < |all|
      ensures !SameShipment(Key(orders[row].siteOrderId), Key(orders[row].trackingNumber), all[j])
    {
      assert all[j] in all;
    }
    DupsSpec(orders, all, row);
  }

  /** The checkboxes `_populate_table` creates: checked exactly for the rows that are not duplicates. */
  function InitialChecks(dups: DupTable): (checks: seq<bool>)
    ensures |checks| == |dups|
    ensures forall row :: 0 <= row < |dups| ==> (checks[row] <==> !IsDup(dups, row))
  {
    seq(|dups|, row requires 0 <= row < |dups| => dups[row].None?)
  }

  /** A row starts checked if and only if no stored order shares its id or tracking number. */
  lemma PreselectIffNew(orders: seq<OrderData>, all: seq<Order>, row: nat)
    requires row < |orders|
    ensures InitialChecks(Dups(orders, all))[row]
        <==> forall j :: 0 <= j < |all| ==> !SameShipment(Key(orders[row].siteOrderId), Key(orders[row].trackingNumber), all[j])
  {
    DupsSpec(orders, all, row);
  }

  /** The row indices whose checkbox is checked, in table order. */
  function SelectedRows(checks: seq<bool>): (rows: seq<nat>)
    ensures forall r: nat :: r in rows <==> r < |checks| && checks[r]
    ensures forall i, j :: 0 <= i < j < |rows| ==> rows[i] < rows[j]
    ensures forall i :: 0 <= i < |rows| ==> rows[i] < |checks|
  {
    if checks == [] then []
    else
      var init := SelectedRows(checks[..|checks| - 1]);
      assert forall r: nat :: r < |checks| - 1 ==> checks[..|checks| - 1][r] == checks[r];
      if checks[|checks| - 1] then init + [|checks| - 1] else init
  }

  /** The list comprehension that opens `_import_selected`. */
  method CollectSelected(checks: seq<bool>) returns (selectedRows: seq<nat>)
    ensures selectedRows == SelectedRows(checks)
  {
    selectedRows := [];
    for row := 0 to |checks|
      invariant selectedRows == SelectedRows(checks[..row])
    {
      assert checks[..row + 1][..row] == checks[..row];
      if checks[row] {
        selectedRows := selectedRows + [row];
      }
    }
    assert checks[..|checks|] == checks;
  }

  /** How a call of `_import_selected` ends. */
  datatype ImportOutcome =
    | NothingSelected
    | Declined
    | Imported(imported: nat, skipped: nat)

  /** The rows of `sel` below `n`. */
  function InRange(sel: seq<nat>, n: nat): (r: seq<nat>)
    ensures |r| <= |sel|
    ensures forall x :: x in r <==> x in sel && x < n
  {
    if sel == [] then []
    else
      var init := InRange(sel[..|sel| - 1], n);
      assert forall x :: x in sel <==> x in sel[..|sel| - 1] || x == sel[|sel| - 1];
      if sel[|sel| - 1] < n then init + [sel[|sel| - 1]] else init
  }

  /** The table and the two counters after the import loop has run over `sel`. */
  function ImportAll(t: Table, parsed: seq<OrderData>, sel: seq<nat>): (r: (Table, nat, nat))
    ensures r.1 + r.2 == |InRange(sel, |parsed|)|
    ensures TableValid(t) ==> TableValid(r.0)
    ensures |r.0.rows| == |t.rows| + r.1 && r.0.rows[..|t.rows|] == t.rows
  {
    if sel == [] then (t, 0, 0)
    else
      var prev := ImportAll(t, parsed, sel[..|sel| - 1]);
      var row := sel[|sel| - 1];
      if row < |parsed| then
        var (t2, id) := AddOrderTo(prev.0, parsed[row]);
        if id.Some? then
          assert t2.rows[..|t.rows|] == prev.0.rows[..|t.rows|];
          (t2, prev.1 + 1, prev.2)
        else (t2, prev.1, prev.2 + 1)
      else prev
  }

  /** The import loop of `_import_selected`: add each selected row and count the outcome. */
  method ImportRows(store: OrderStore, parsed: seq<OrderData>, sel: seq<nat>) returns (imported: nat, skipped: nat)
    requires store.Valid()
    modifies store
    ensures store.Valid()
    ensures (store.AsTable(), imported, skipped) == ImportAll(old(store.AsTable()), parsed, sel)
  {
    imported, skipped := 0, 0;
    for k := 0 to |sel|
      invariant store.Valid()
      invariant (store.AsTable(), imported, skipped) == ImportAll(old(store.AsTable()), parsed, sel[..k])
    {
      assert sel[..k + 1][..k] == sel[..k];
      var row := sel[k];
      if row < |parsed| {
        var id := store.AddOrder(parsed[row]);
        if id.Some? {
          imported := imported + 1;
        } else {
          skipped := skipped + 1;
        }
      }
    }
    assert sel[..|sel|] == sel;
  }

  /**
   * `_import_selected` (import_html_dialog.py:343-397): nothing happens
   * without a selection, or when duplicates are selected and the user does
   * not confirm; otherwise every selected row within the parsed orders is
   * added, and counted as imported or skipped.
   */
  method ImportSelected(store: OrderStore, parsed: seq<OrderData>, checks: seq<bool>,
                        dups: DupTable, confirmed: bool) returns (outcome: ImportOutcome)
    requires store.Valid()
    modifies store
    ensures store.Valid()
    ensures SelectedRows(checks) == [] ==> outcome == NothingSelected && store.AsTable() == old(store.AsTable())
    ensures outcome.Declined? <==>
      SelectedRows(checks) != [] && (exists r :: r in SelectedRows(checks) && IsDup(dups, r)) && !confirmed
    ensures outcome.Declined? ==> store.AsTable() == old(store.AsTable())
    ensures outcome.Imported? ==>
      var r := ImportAll(old(store.AsTable()), parsed, SelectedRows(checks));
      store.AsTable() == r.0 && outcome.imported == r.1 && outcome.skipped == r.2
  {
    var selectedRows := CollectSelected(checks);
    if selectedRows == [] {
      return NothingSelected;
    }
    var anyDup := exists r :: r in selectedRows && IsDup(dups, r);
    if anyDup && !confirmed {
      return Declined;
    }
    var imported, skipped := ImportRows(store, parsed, selectedRows);
    outcome := Imported(imported, skipped);
  }

  /** `imported + skipped` is the number of selected rows within the parsed orders. */
  lemma ImportTally(t: Table, parsed: seq<OrderData>, checks: seq<bool>)
    ensures var r := ImportAll(t, parsed, SelectedRows(checks));
      r.1 + r.2 == |InRange(SelectedRows(checks), |parsed|)|
  {
  }

  /** Parsed orders always carry the required keys, so every selected row in range is imported. */
  lemma {:induction false} ImportAllComplete(t: Table, parsed: seq<OrderData>, sel: seq<nat>)
    requires forall k :: 0 <= k < |parsed| ==> HasRequiredKeys(parsed[k])
    ensures ImportAll(t, parsed, sel).2 == 0
    ensures ImportAll(t, parsed, sel).1 == |InRange(sel, |parsed|)|
  {
    if sel != [] {
      ImportAllComplete(t, parsed, sel[..|sel| - 1]);
    }
  }
}

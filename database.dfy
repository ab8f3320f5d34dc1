// database.py: the non-destructive merge policy of merge_order_data, the
// WHERE clause get_orders assembles, and the order store that add_order,
// update_order, get_order_by_id and merge_order_data read and write.

module Database {
  import opened Text
  import opened Orders
  import StatusHierarchy

  // =====================================================================
  // merge_order_data: the field-by-field fill
  // =====================================================================

  /** The entries of `fields_to_merge` (database.py:324-328). */
  datatype MergeField =
    | Seller | Destination | Link | EstimatedDelivery | Position | Category
    | TrackingNumber | Carrier | LastMileCarrier | SiteOrderId | Price | ImageUrl

  const FieldsToMerge: seq<MergeField> :=
    [Seller, Destination, Link, EstimatedDelivery, Position, Category,
     TrackingNumber, Carrier, LastMileCarrier, SiteOrderId, Price, ImageUrl]

  /** A value stored under one of those keys: text, or the price column. */
  datatype FieldValue = TextValue(text: string) | PriceValue(price: Option<int>)

  predicate Kind(f: MergeField, v: FieldValue)
  {
    if f == Price then v.PriceValue? else v.TextValue?
  }

  /** `existing.get(field)`. */
  function FieldOf(o: Order, f: MergeField): (v: FieldValue)
    ensures Kind(f, v)
  {
    match f
    case Seller => TextValue(o.seller)
    case Destination => TextValue(o.destination)
    case Link => TextValue(o.link)
    case EstimatedDelivery => TextValue(o.estimatedDelivery)
    case Position => TextValue(o.position)
    case Category => TextValue(o.category)
    case TrackingNumber => TextValue(o.trackingNumber)
    case Carrier => TextValue(o.carrier)
    case LastMileCarrier => TextValue(o.lastMileCarrier)
    case SiteOrderId => TextValue(o.siteOrderId)
    case Price => PriceValue(o.price)
    case ImageUrl => TextValue(o.imageUrl)
  }

  /** `new_data.get(field)`, `None` when the key is absent. */
  function NewValueOf(n: OrderData, f: MergeField): (v: Option<FieldValue>)
    ensures v.Some? ==> Kind(f, v.value)
  {
    var t := (s: Option<string>) => if s.Some? then Some(TextValue(s.value)) else None;
    match f
    case Seller => t(n.seller)
    case Destination => t(n.destination)
    case Link => t(n.link)
    case EstimatedDelivery => t(n.estimatedDelivery)
    case Position => t(n.position)
    case Category => t(n.category)
    case TrackingNumber => t(n.trackingNumber)
    case Carrier => t(n.carrier)
    case LastMileCarrier => t(n.lastMileCarrier)
    case SiteOrderId => t(n.siteOrderId)
    case Price => if n.price.Some? then Some(PriceValue(n.price)) else None
    case ImageUrl => t(n.imageUrl)
  }

  /** Python truthiness of `new_val`: a non-empty text or a non-zero price. */
  predicate Truthy(v: Option<FieldValue>)
  {
    match v
    case None => false
    case Some(TextValue(s)) => s != ""
    case Some(PriceValue(p)) => p.Some? && p.value != 0
  }

  /** `old_val is None or str(old_val).strip() == ''`. */
  predicate Blank(v: FieldValue)
  {
    match v
    case TextValue(s) => IsBlank(s)
    case PriceValue(p) => p.None?
  }

  /** `merged_data[field] = v`. */
  function WithField(o: Order, f: MergeField, v: FieldValue): (r: Order)
    requires Kind(f, v)
    ensures FieldOf(r, f) == v
    ensures forall g :: g != f ==> FieldOf(r, g) == FieldOf(o, g)
  {
    match f
    case Seller => o.(seller := v.text)
    case Destination => o.(destination := v.text)
    case Link => o.(link := v.text)
    case EstimatedDelivery => o.(estimatedDelivery := v.text)
    case Position => o.(position := v.text)
    case Category => o.(category := v.text)
    case TrackingNumber => o.(trackingNumber := v.text)
    case Carrier => o.(carrier := v.text)
    case LastMileCarrier => o.(lastMileCarrier := v.text)
    case SiteOrderId => o.(siteOrderId := v.text)
    case Price => o.(price := v.price)
    case ImageUrl => o.(imageUrl := v.text)
  }

  /** The columns merge_order_data never writes: identity, dates, flags, bookkeeping. */
  predicate SameUnmergedColumns(a: Order, b: Order)
  {
    a.id == b.id && a.orderDate == b.orderDate && a.platform == b.platform
    && a.description == b.description && a.alarmEnabled == b.alarmEnabled
    && a.isDelivered == b.isDelivered && a.lastEmailId == b.lastEmailId
    && a.lastSyncAt == b.lastSyncAt
  }

  lemma WithFieldKeepsOthers(o: Order, f: MergeField, v: FieldValue)
    requires Kind(f, v)
    ensures SameUnmergedColumns(WithField(o, f, v), o)
    ensures WithField(o, f, v).status == o.status && WithField(o, f, v).quantity == o.quantity
    ensures WithField(o, f, v).notes == o.notes
  {
  }

  lemma WithSameField(o: Order, f: MergeField)
    ensures WithField(o, f, FieldOf(o, f)) == o
  {
  }

  /** Does one pass of the loop body fill `f`? (database.py:336) */
  predicate Fills(existing: Order, n: OrderData, f: MergeField)
  {
    Truthy(NewValueOf(n, f)) && Blank(FieldOf(existing, f))
  }

  /** The record after the loop of database.py:331-338 has run over `fs`. */
  function FillFields(existing: Order, n: OrderData, fs: seq<MergeField>): (r: Order)
    ensures r.id == existing.id
  {
    if fs == [] then existing
    else
      var f := fs[|fs| - 1];
      var before := FillFields(existing, n, fs[..|fs| - 1]);
      if Fills(existing, n, f) then WithField(before, f, NewValueOf(n, f).value) else before
  }

  /** `changes_made` after the loop has run over `fs`. */
  predicate AnyFilled(existing: Order, n: OrderData, fs: seq<MergeField>)
  {
    exists f :: f in fs && Fills(existing, n, f)
  }

  /** One more pass of the loop body. */
  lemma FillFieldsSnoc(existing: Order, n: OrderData, fs: seq<MergeField>, f: MergeField)
    ensures FillFields(existing, n, fs + [f])
         == if Fills(existing, n, f) then WithField(FillFields(existing, n, fs), f, NewValueOf(n, f).value)
            else FillFields(existing, n, fs)
    ensures AnyFilled(existing, n, fs + [f]) == (AnyFilled(existing, n, fs) || Fills(existing, n, f))
  {
    assert (fs + [f])[..|fs|] == fs;
    if Fills(existing, n, f) {
      assert f in fs + [f];
    }
    forall g | g in fs + [f] && Fills(existing, n, g) && g != f
      ensures g in fs
    {
    }
  }

  /**
   * The fill loop takes each listed field from the new data exactly when the
   * new value is truthy and the stored one blank, and leaves every other
   * field as it was.
   */
  lemma {:induction false} FillFieldsValue(existing: Order, n: OrderData, fs: seq<MergeField>, g: MergeField)
    ensures FieldOf(FillFields(existing, n, fs), g)
         == if g in fs && Fills(existing, n, g) then NewValueOf(n, g).value else FieldOf(existing, g)
    decreases |fs|
  {
    if fs != [] {
      var init := fs[..|fs| - 1];
      FillFieldsValue(existing, n, init, g);
      assert fs == init + [fs[|fs| - 1]];
    }
  }

  lemma {:induction false} FillFieldsKeepsOthers(existing: Order, n: OrderData, fs: seq<MergeField>)
    ensures var r := FillFields(existing, n, fs);
      SameUnmergedColumns(r, existing) && r.status == existing.status
      && r.quantity == existing.quantity && r.notes == existing.notes
    decreases |fs|
  {
    if fs != [] {
      FillFieldsKeepsOthers(existing, n, fs[..|fs| - 1]);
      var f := fs[|fs| - 1];
      if Fills(existing, n, f) {
        WithFieldKeepsOthers(FillFields(existing, n, fs[..|fs| - 1]), f, NewValueOf(n, f).value);
      }
    }
  }

  /** When no step of the loop changes a value, the loop leaves the record as it was. */
  lemma {:induction false} FillFieldsNoop(o: Order, n: OrderData, fs: seq<MergeField>)
    requires forall f :: f in fs && Fills(o, n, f) ==> FieldOf(o, f) == NewValueOf(n, f).value
    ensures FillFields(o, n, fs) == o
    decreases |fs|
  {
    if fs != [] {
      var f := fs[|fs| - 1];
      FillFieldsNoop(o, n, fs[..|fs| - 1]);
      if Fills(o, n, f) {
        WithSameField(o, f);
      }
    }
  }

  // =====================================================================
  // merge_order_data: status, quantity and notes
  // =====================================================================

  /** database.py:342-345: only a record still "In Attesa" takes a new status. */
  function MergedStatus(existing: Order, n: OrderData): (r: string)
  {
    if n.status.Some? && n.status.value != "" && n.status.value != StatusHierarchy.InAttesa
       && existing.status == StatusHierarchy.InAttesa
    then n.status.value else existing.status
  }

  /** database.py:348-351: the new quantity (1 when absent) replaces a smaller one. */
  function MergedQuantity(existing: Order, n: OrderData): (q: int)
    ensures q >= existing.quantity && q >= GetOr(n.quantity, 1)
    ensures q == existing.quantity || q == GetOr(n.quantity, 1)
  {
    var nq := GetOr(n.quantity, 1);
    if nq > existing.quantity then nq else existing.quantity
  }

  /** `new_data.get('notes', '').strip()`. */
  function NewNotes(n: OrderData): (r: string)
  {
    Strip(GetOr(n.notes, ""))
  }

  predicate AppendsNotes(existing: Order, n: OrderData)
  {
    NewNotes(n) != "" && !Contains(existing.notes, NewNotes(n))
  }

  /** database.py:354-360: new notes are appended on a line of their own. */
  function MergedNotes(existing: Order, n: OrderData): (s: string)
    ensures AppendsNotes(existing, n) ==> Contains(s, NewNotes(n))
  {
    if AppendsNotes(existing, n) then
      if existing.notes != "" then
        ContainsSuffix(existing.notes + "\n", NewNotes(n));
        existing.notes + "\n" + NewNotes(n)
      else NewNotes(n)
    else existing.notes
  }

  /** The record merge_order_data writes (or would write). */
  function Merged(existing: Order, n: OrderData): (r: Order)
    ensures r.id == existing.id
  {
    FillFields(existing, n, FieldsToMerge).(
      status := MergedStatus(existing, n),
      quantity := MergedQuantity(existing, n),
      notes := MergedNotes(existing, n))
  }

  /** `changes_made` at database.py:362. */
  predicate ChangesMade(existing: Order, n: OrderData)
  {
    AnyFilled(existing, n, FieldsToMerge)
    || MergedStatus(existing, n) != existing.status
    || GetOr(n.quantity, 1) > existing.quantity
    || AppendsNotes(existing, n)
  }

  /**
   * merge_order_data's computation of `merged_data` and `changes_made`
   * (database.py:321-360), the loop over `fields_to_merge` included.
   */
  method MergeRecord(existing: Order, n: OrderData) returns (merged: Order, changed: bool)
    ensures merged == Merged(existing, n)
    ensures changed == ChangesMade(existing, n)
  {
    merged, changed := FillLoop(existing, n);
    FillFieldsKeepsOthers(existing, n, FieldsToMerge);
    var newStatus := n.status;
    if newStatus.Some? && newStatus.value != "" && newStatus.value != StatusHierarchy.InAttesa
       && existing.status == StatusHierarchy.InAttesa {
      merged := merged.(status := newStatus.value);
      changed := true;
    }
    var newQty := GetOr(n.quantity, 1);
    if newQty > existing.quantity {
      merged := merged.(quantity := newQty);
      changed := true;
    }
    var newNotes := Strip(GetOr(n.notes, ""));
    if newNotes != "" && !Contains(existing.notes, newNotes) {
      if existing.notes != "" {
        merged := merged.(notes := existing.notes + "\n" + newNotes);
      } else {
        merged := merged.(notes := newNotes);
      }
      changed := true;
    }
  }

  /** The loop of database.py:331-338 over `fields_to_merge`. */
  method FillLoop(existing: Order, n: OrderData) returns (merged: Order, changed: bool)
    ensures merged == FillFields(existing, n, FieldsToMerge)
    ensures changed == AnyFilled(existing, n, FieldsToMerge)
  {
    merged := existing;
    changed := false;
    for k := 0 to |FieldsToMerge|
      invariant merged == FillFields(existing, n, FieldsToMerge[..k])
      invariant changed == AnyFilled(existing, n, FieldsToMerge[..k])
    {
      var f := FieldsToMerge[k];
      assert FieldsToMerge[..k + 1] == FieldsToMerge[..k] + [f];
      FillFieldsSnoc(existing, n, FieldsToMerge[..k], f);
      var newVal := NewValueOf(n, f);
      var oldVal := FieldOf(existing, f);
      if Truthy(newVal) && Blank(oldVal) {
        merged := WithField(merged, f, newVal.value);
        changed := true;
      }
    }
    assert FieldsToMerge[..|FieldsToMerge|] == FieldsToMerge;
  }

  // ---------------------------------------------------------------------
  // Properties of the merge
  // ---------------------------------------------------------------------

  /** A listed field takes the new value only when that is truthy and the stored one blank. */
  lemma MergeFillsOnlyBlank(existing: Order, n: OrderData, f: MergeField)
    ensures FieldOf(Merged(existing, n), f)
         == if Fills(existing, n, f) then NewValueOf(n, f).value else FieldOf(existing, f)
  {
    FillFieldsValue(existing, n, FieldsToMerge, f);
  }

  /** A non-blank stored value survives any merge. */
  lemma MergeKeepsFilled(existing: Order, n: OrderData, f: MergeField)
    requires !Blank(FieldOf(existing, f))
    ensures FieldOf(Merged(existing, n), f) == FieldOf(existing, f)
  {
    MergeFillsOnlyBlank(existing, n, f);
  }

  /** Columns outside the merge list, status, quantity and notes aside, never change. */
  lemma MergeKeepsUnmerged(existing: Order, n: OrderData)
    ensures SameUnmergedColumns(Merged(existing, n), existing)
  {
    FillFieldsKeepsOthers(existing, n, FieldsToMerge);
  }

  /** The quantity becomes the larger of the stored and the new one. */
  lemma MergeQuantityIsMax(existing: Order, n: OrderData)
    ensures Merged(existing, n).quantity
         == if GetOr(n.quantity, 1) > existing.quantity then GetOr(n.quantity, 1) else existing.quantity
  {
  }

  /** The stored notes stay a prefix; the new text is added only when it is not already there. */
  lemma MergeNotesAppendOnly(existing: Order, n: OrderData)
    ensures StartsWith(Merged(existing, n).notes, existing.notes)
    ensures Contains(existing.notes, NewNotes(n)) ==> Merged(existing, n).notes == existing.notes
    ensures Merged(existing, n).notes != existing.notes ==>
              Merged(existing, n).notes == (if existing.notes == "" then NewNotes(n) else existing.notes + "\n" + NewNotes(n))
  {
    if AppendsNotes(existing, n) && existing.notes == "" {
      assert existing.notes == NewNotes(n)[..0];
    }
  }

  /** Without changes, the merge result is the stored record itself (and nothing is written). */
  lemma {:induction false} NoChangeNoDifference(existing: Order, n: OrderData)
    requires !ChangesMade(existing, n)
    ensures Merged(existing, n) == existing
  {
    FillFieldsNoop(existing, n, FieldsToMerge);
  }

  /** After one merge, no listed field would be filled with anything new. */
  lemma {:induction false} MergedFieldsSettled(existing: Order, n: OrderData)
    ensures FillFields(Merged(existing, n), n, FieldsToMerge) == Merged(existing, n)
  {
    var m := Merged(existing, n);
    forall f | f in FieldsToMerge && Fills(m, n, f)
      ensures FieldOf(m, f) == NewValueOf(n, f).value
    {
      MergeFillsOnlyBlank(existing, n, f);
    }
    FillFieldsNoop(m, n, FieldsToMerge);
  }

  /** After one merge, the new notes are already in the merged notes. */
  lemma MergedNotesSettled(existing: Order, n: OrderData)
    ensures MergedNotes(existing.(notes := MergedNotes(existing, n)), n) == MergedNotes(existing, n)
  {
    if AppendsNotes(existing, n) && existing.notes == "" {
      assert NewNotes(n) == "" + NewNotes(n);
      ContainsSuffix("", NewNotes(n));
    }
  }

  /** Merging the same data a second time changes nothing more. */
  lemma {:induction false} MergeIdempotent(existing: Order, n: OrderData)
    ensures Merged(Merged(existing, n), n) == Merged(existing, n)
  {
    var m := Merged(existing, n);
    MergedFieldsSettled(existing, n);
    FillFieldsKeepsOthers(existing, n, FieldsToMerge);
    MergedNotesSettled(existing, n);
    assert MergedStatus(m, n) == m.status;
    assert MergedQuantity(m, n) == m.quantity;
  }

  // =====================================================================
  // get_orders: the WHERE clause
  // =====================================================================

  /** SQLite folds only ASCII letters when LIKE compares characters. */
  function SqlFold(c: char): (r: char)
  {
    if 'A' <= c <= 'Z' then (c as int + 32) as char else c
  }

  function SqlFoldString(s: string): (r: string)
    ensures |r| == |s| && forall i :: 0 <= i < |s| ==> r[i] == SqlFold(s[i])
  {
    seq(|s|, i requires 0 <= i < |s| => SqlFold(s[i]))
  }

  /** SQLite `s LIKE p` without ESCAPE: `%` any run, `_` any one character. */
  predicate Like(p: string, s: string)
    decreases |p| + |s|
  {
    if p == [] then s == []
    else if p[0] == '%' then Like(p[1..], s) || (|s| > 0 && Like(p, s[1..]))
    else |s| > 0 && (p[0] == '_' || SqlFold(p[0]) == SqlFold(s[0])) && Like(p[1..], s[1..])
  }

  predicate NoWildcards(q: string)
  {
    forall i :: 0 <= i < |q| ==> q[i] != '%' && q[i] != '_'
  }

  lemma {:induction false} LikeTrailingPercent(s: string)
    ensures Like("%", s)
    decreases |s|
  {
    if s != [] {
      LikeTrailingPercent(s[1..]);
    }
  }

  lemma {:induction false} LikePrefix(q: string, s: string)
    requires NoWildcards(q)
    ensures Like(q + "%", s) <==> StartsWith(SqlFoldString(s), SqlFoldString(q))
    decreases |q|
  {
    if q == [] {
      assert q + "%" == "%";
      LikeTrailingPercent(s);
    } else {
      assert (q + "%")[1..] == q[1..] + "%";
      if |s| > 0 {
        LikePrefix(q[1..], s[1..]);
        FoldedStartsWith(q, s);
      }
    }
  }

  /** A folded prefix test, one character at a time. */
  lemma FoldedStartsWith(q: string, s: string)
    requires q != [] && s != []
    ensures StartsWith(SqlFoldString(s), SqlFoldString(q)) <==>
      SqlFold(q[0]) == SqlFold(s[0]) && StartsWith(SqlFoldString(s[1..]), SqlFoldString(q[1..]))
  {
    var fs, fq := SqlFoldString(s), SqlFoldString(q);
    var ts, tq := SqlFoldString(s[1..]), SqlFoldString(q[1..]);
    if StartsWith(fs, fq) {
      assert fs[..|q|][0] == fs[0];
      forall i | 0 <= i < |tq|
        ensures ts[i] == tq[i]
      {
        assert fs[..|q|][i + 1] == fq[i + 1];
      }
      assert ts[..|tq|] == tq;
    }
    if SqlFold(q[0]) == SqlFold(s[0]) && StartsWith(ts, tq) {
      forall i | 0 <= i < |fq|
        ensures fs[i] == fq[i]
      {
        if i > 0 {
          assert ts[..|tq|][i - 1] == tq[i - 1];
        }
      }
      assert fs[..|fq|] == fq;
    }
  }

  /**
   * The search clause `col LIKE '%search%'` is a case-insensitive (ASCII)
   * substring test whenever the search text holds no LIKE wildcard.
   */
  lemma {:induction false} LikeIsSubstring(q: string, s: string)
    requires NoWildcards(q)
    ensures Like("%" + q + "%", s) <==> Contains(SqlFoldString(s), SqlFoldString(q))
    decreases |s|
  {
    assert ("%" + q + "%")[1..] == q + "%";
    LikePrefix(q, s);
    if |s| > 0 {
      LikeIsSubstring(q, s[1..]);
      assert SqlFoldString(s)[1..] == SqlFoldString(s[1..]);
    }
  }

  /** The arguments of get_orders. */
  datatype OrderQuery = OrderQuery(includeDelivered: bool, search: string, platformFilter: string, categoryFilter: string)

  /** What the assembled WHERE clause accepts (database.py:201-218). */
  predicate MatchesQuery(o: Order, q: OrderQuery)
  {
    var pattern := "%" + q.search + "%";
    (q.includeDelivered || !o.isDelivered)
    && (q.search == "" || Like(pattern, o.description) || Like(pattern, o.seller) || Like(pattern, o.notes))
    && (q.platformFilter == "" || o.platform == q.platformFilter)
    && (q.categoryFilter == "" || o.category == q.categoryFilter)
  }

  /** One `AND …` condition appended to `query`, with its parameter. */
  datatype Clause =
    | NotDelivered
    | SearchLike(pattern: string)
    | PlatformIs(platform: string)
    | CategoryIs(category: string)

  predicate ClauseHolds(c: Clause, o: Order)
  {
    match c
    case NotDelivered => !o.isDelivered
    case SearchLike(p) => Like(p, o.description) || Like(p, o.seller) || Like(p, o.notes)
    case PlatformIs(p) => o.platform == p
    case CategoryIs(cat) => o.category == cat
  }

  predicate AllHold(clauses: seq<Clause>, o: Order)
  {
    forall k :: 0 <= k < |clauses| ==> ClauseHolds(clauses[k], o)
  }

  /** get_orders appends one clause per active filter; the conjunction is the filter. */
  method BuildWhere(q: OrderQuery) returns (clauses: seq<Clause>)
    ensures forall o :: AllHold(clauses, o) <==> MatchesQuery(o, q)
    ensures |clauses| <= 4
  {
    clauses := [];
    if !q.includeDelivered {
      clauses := clauses + [NotDelivered];
      AllHoldSnoc([], NotDelivered);
    }
    ghost var c1 := clauses;
    if q.search != "" {
      clauses := clauses + [SearchLike("%" + q.search + "%")];
      AllHoldSnoc(c1, SearchLike("%" + q.search + "%"));
    }
    ghost var c2 := clauses;
    if q.platformFilter != "" {
      clauses := clauses + [PlatformIs(q.platformFilter)];
      AllHoldSnoc(c2, PlatformIs(q.platformFilter));
    }
    ghost var c3 := clauses;
    if q.categoryFilter != "" {
      clauses := clauses + [CategoryIs(q.categoryFilter)];
      AllHoldSnoc(c3, CategoryIs(q.categoryFilter));
    }
  }

  lemma AllHoldSnoc(clauses: seq<Clause>, c: Clause)
    ensures forall o :: AllHold(clauses + [c], o) <==> AllHold(clauses, o) && ClauseHolds(c, o)
  {
    forall o ensures AllHold(clauses + [c], o) <==> AllHold(clauses, o) && ClauseHolds(c, o) {
      if AllHold(clauses + [c], o) {
        forall k | 0 <= k < |clauses| ensures ClauseHolds(clauses[k], o) {
          assert (clauses + [c])[k] == clauses[k];
        }
        assert (clauses + [c])[|clauses|] == c;
      }
      if AllHold(clauses, o) && ClauseHolds(c, o) {
        forall k | 0 <= k < |clauses + [c]| ensures ClauseHolds((clauses + [c])[k], o) {
          if k < |clauses| {
            assert (clauses + [c])[k] == clauses[k];
          }
        }
      }
    }
  }

  /** The rows a query returns, in store order. */
  function Select(rows: seq<Order>, q: OrderQuery): (r: seq<Order>)
    ensures |r| <= |rows|
    ensures forall o :: o in r <==> o in rows && MatchesQuery(o, q)
  {
    if rows == [] then []
    else if MatchesQuery(rows[0], q) then [rows[0]] + Select(rows[1..], q)
    else Select(rows[1..], q)
  }

  /** With include_delivered false no delivered row is returned. */
  lemma SelectActiveOnly(rows: seq<Order>, search: string, platform: string, category: string)
    ensures forall o :: o in Select(rows, OrderQuery(false, search, platform, category)) ==> !o.isDelivered
  {
  }

  /** Without filters every row is returned, in order. */
  lemma {:induction false} SelectAll(rows: seq<Order>)
    ensures Select(rows, OrderQuery(true, "", "", "")) == rows
  {
    if rows != [] {
      SelectAll(rows[1..]);
      assert rows == [rows[0]] + rows[1..];
    }
  }

  /** A selection of a selection is the selection with both filters. */
  lemma {:induction false} SelectSubsequence(rows: seq<Order>, q: OrderQuery, i: nat)
    requires i < |Select(rows, q)|
    ensures exists j :: 0 <= j < |rows| && rows[j] == Select(rows, q)[i]
  {
    assert Select(rows, q)[i] in Select(rows, q);
  }

  // =====================================================================
  // The store
  // =====================================================================

  /** `get_order_by_id`: the row with that id, if any. */
  function FindById(rows: seq<Order>, id: int): (r: Option<Order>)
    ensures r.Some? ==> r.value in rows && r.value.id == id
    ensures r.None? ==> forall o :: o in rows ==> o.id != id
  {
    if rows == [] then None
    else if rows[0].id == id then Some(rows[0])
    else FindById(rows[1..], id)
  }

  /** The rows after `UPDATE orders SET … WHERE id = ?`. */
  function ReplaceById(rows: seq<Order>, id: int, row: Order): (r: seq<Order>)
    requires row.id == id
    ensures |r| == |rows|
    ensures forall k :: 0 <= k < |rows| ==> r[k] == if rows[k].id == id then row else rows[k]
  {
    seq(|rows|, k requires 0 <= k < |rows| => if rows[k].id == id then row else rows[k])
  }

  /** The `orders` table as a value: its rows and the next AUTOINCREMENT id. */
  datatype Table = Table(rows: seq<Order>, nextId: int)

  /** Ids are unique and all below the next one handed out. */
  predicate TableValid(t: Table)
  {
    t.nextId >= 1 && UniqueIds(t.rows) && forall k :: 0 <= k < |t.rows| ==> 1 <= t.rows[k].id < t.nextId
  }

  lemma ReplaceKeepsValid(t: Table, id: int, row: Order)
    requires TableValid(t) && row.id == id
    ensures TableValid(Table(ReplaceById(t.rows, id, row), t.nextId))
  {
  }

  /**
   * `add_order` (database.py:145-188): a dictionary without `order_date`,
   * `platform` or `description` raises KeyError inside the try and yields
   * None; otherwise the row is appended under the next id.
   */
  function AddOrderTo(t: Table, d: OrderData): (r: (Table, Option<int>))
    ensures HasRequiredKeys(d) ==> r.1 == Some(t.nextId) && r.0.nextId == t.nextId + 1
                                   && r.0.rows == t.rows + [InsertedRow(t.nextId, d)]
    ensures !HasRequiredKeys(d) ==> r.1.None? && r.0 == t
    ensures TableValid(t) ==> TableValid(r.0)
  {
    if !HasRequiredKeys(d) then (t, None)
    else (Table(t.rows + [InsertedRow(t.nextId, d)], t.nextId + 1), Some(t.nextId))
  }

  /** `update_order` (database.py:270-309): every column of row `id` is rewritten. */
  function UpdateOrderIn(t: Table, id: int, d: OrderData): (r: (Table, bool))
    ensures r.1 == HasRequiredKeys(d) && r.0.nextId == t.nextId
    ensures r.1 ==> r.0.rows == ReplaceById(t.rows, id, UpdatedRow(id, d))
    ensures !r.1 ==> r.0 == t
    ensures TableValid(t) ==> TableValid(r.0)
  {
    if !HasRequiredKeys(d) then (t, false)
    else (Table(ReplaceById(t.rows, id, UpdatedRow(id, d)), t.nextId), true)
  }

  /**
   * `merge_order_data` (database.py:312-370): False for a missing order;
   * otherwise the merged record is written only when something changed,
   * and True is returned.
   */
  function MergeOrderInto(t: Table, id: int, n: OrderData): (r: (Table, bool))
    ensures FindById(t.rows, id).None? ==> r == (t, false)
    ensures FindById(t.rows, id).Some? ==> r.1 && r.0.nextId == t.nextId
    ensures FindById(t.rows, id).Some? ==>
      var existing := FindById(t.rows, id).value;
      r.0.rows == if ChangesMade(existing, n) then ReplaceById(t.rows, id, Merged(existing, n)) else t.rows
    ensures TableValid(t) ==> TableValid(r.0)
  {
    match FindById(t.rows, id)
    case None => (t, false)
    case Some(existing) =>
      if ChangesMade(existing, n) then
        MergeKeepsUnmerged(existing, n);
        UpdateWithOwnData(Merged(existing, n));
        UpdateOrderIn(t, id, AsData(Merged(existing, n)))
      else (t, true)
  }

  /** Merging into an order that is there never adds or removes a row, and keeps every id. */
  lemma MergeKeepsIds(t: Table, id: int, n: OrderData)
    ensures |MergeOrderInto(t, id, n).0.rows| == |t.rows|
    ensures forall k :: 0 <= k < |t.rows| ==> MergeOrderInto(t, id, n).0.rows[k].id == t.rows[k].id
  {
  }

  /** The `orders` table: its rows and the next AUTOINCREMENT id. */
  class OrderStore {
    var rows: seq<Order>
    var nextId: int

    ghost predicate Valid()
      reads this
    {
      TableValid(Table(rows, nextId))
    }

    function AsTable(): (r: Table)
      reads this
    {
      Table(rows, nextId)
    }

    constructor ()
      ensures Valid() && rows == []
    {
      rows := [];
      nextId := 1;
    }

    /** `get_orders(include_delivered, search, platform_filter, category_filter)`. */
    function GetOrders(q: OrderQuery): (r: seq<Order>)
      reads this
    {
      Select(rows, q)
    }

    function GetOrderById(id: int): (r: Option<Order>)
      reads this
    {
      FindById(rows, id)
    }

    method AddOrder(d: OrderData) returns (id: Option<int>)
      requires Valid()
      modifies this
      ensures Valid()
      ensures (AsTable(), id) == AddOrderTo(old(AsTable()), d)
    {
      if !HasRequiredKeys(d) {
        return None;
      }
      var row := InsertedRow(nextId, d);
      rows := rows + [row];
      id := Some(nextId);
      nextId := nextId + 1;
    }

    method UpdateOrder(id: int, d: OrderData) returns (ok: bool)
      requires Valid()
      modifies this
      ensures Valid()
      ensures (AsTable(), ok) == UpdateOrderIn(old(AsTable()), id, d)
    {
      if !HasRequiredKeys(d) {
        return false;
      }
      rows := ReplaceById(rows, id, UpdatedRow(id, d));
      ok := true;
    }

    method MergeOrderData(id: int, n: OrderData) returns (ok: bool)
      requires Valid()
      modifies this
      ensures Valid()
      ensures (AsTable(), ok) == MergeOrderInto(old(AsTable()), id, n)
    {
      var existing := FindById(rows, id);
      if existing.None? {
        return false;
      }
      var merged, changed := MergeRecord(existing.value, n);
      if changed {
        MergeKeepsUnmerged(existing.value, n);
        UpdateWithOwnData(merged);
        ok := UpdateOrder(id, AsData(merged));
      } else {
        ok := true;
      }
    }
  }
}

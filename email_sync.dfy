// email_manager.py, sync_with_db (lines 543-672): every update record is
// matched against the active orders (by shop order number, by tracking
// number, and failing both by description), and every matched order that has
// not yet seen that e-mail is rewritten: status only upwards, blank
// identifiers filled in, the delivery estimate refreshed, a note appended.

module EmailSync {
  import opened Text
  import opened Orders
  import opened StatusHierarchy
  import opened Database
  import opened EmailClassify
  import Dates

  // =====================================================================
  // Matching an update to orders
  // =====================================================================

  /** `(s or "").strip().lower()`. */
  function Key(s: string): (r: string)
  {
    Lower(Strip(s))
  }

  /** The test of both key passes: the key equals the order's shop number or its tracking number. */
  predicate KeyMatches(key: string, o: Order)
  {
    key == Key(o.siteOrderId) || key == Key(o.trackingNumber)
  }

  /** The orders an update names through its shop order number or its tracking number. */
  predicate ByKey(u: EmailUpdate, o: Order)
  {
    (u.siteOrderId != "" && KeyMatches(Key(u.siteOrderId), o))
    || (u.tracking != "" && KeyMatches(Key(u.tracking), o))
  }

  function IdsOf(s: seq<Order>): (r: set<int>)
  {
    set k | 0 <= k < |s| :: s[k].id
  }

  lemma IdsOfSnoc(s: seq<Order>, o: Order)
    ensures IdsOf(s + [o]) == IdsOf(s) + {o.id}
  {
    var t := s + [o];
    assert t[|s|].id == o.id;
    forall id | id in IdsOf(s) ensures id in IdsOf(t) {
      var k :| 0 <= k < |s| && s[k].id == id;
      assert t[k] == s[k];
    }
  }

  /** `matched_orders` together with `matched_ids`. */
  datatype Matching = Matching(matched: seq<Order>, ids: set<int>)

  /** `matched_ids` holds exactly the ids of `matched_orders`, each once. */
  predicate WellFormed(m: Matching)
  {
    UniqueIds(m.matched) && m.ids == IdsOf(m.matched)
  }

  /**
   * One pass of the loop `for order in orders` with key `key`: an order whose
   * id is not yet matched and whose shop or tracking number equals the key
   * is appended.
   */
  function Pass(orders: seq<Order>, key: string, m: Matching): (r: Matching)
  {
    if orders == [] then m
    else
      var prev := Pass(orders[..|orders| - 1], key, m);
      var o := orders[|orders| - 1];
      if o.id !in prev.ids && KeyMatches(key, o) then Matching(prev.matched + [o], prev.ids + {o.id})
      else prev
  }

  /** A pass only appends, and keeps `matched_ids` the ids of `matched_orders`, each once. */
  lemma {:induction false} PassAppends(orders: seq<Order>, key: string, m: Matching)
    requires WellFormed(m)
    ensures var r := Pass(orders, key, m);
      WellFormed(r) && |m.matched| <= |r.matched| && r.matched[..|m.matched|] == m.matched
  {
    if orders != [] {
      var o := orders[|orders| - 1];
      PassAppends(orders[..|orders| - 1], key, m);
      var prev := Pass(orders[..|orders| - 1], key, m);
      if o.id !in prev.ids && KeyMatches(key, o) {
        var s := prev.matched + [o];
        IdsOfSnoc(prev.matched, o);
        assert s[..|prev.matched|] == prev.matched;
        assert s[..|m.matched|] == prev.matched[..|m.matched|];
        forall i, j | 0 <= i < j < |s| ensures s[i].id != s[j].id {
          if j == |prev.matched| {
            assert s[i].id in IdsOf(prev.matched);
          }
        }
      }
    }
  }

  /** What a pass appends are orders of the list carrying the key. */
  lemma {:induction false} PassAdds(orders: seq<Order>, key: string, m: Matching)
    ensures var r := Pass(orders, key, m);
      |m.matched| <= |r.matched|
      && forall k :: |m.matched| <= k < |r.matched| ==> r.matched[k] in orders && KeyMatches(key, r.matched[k])
  {
    if orders != [] {
      var init := orders[..|orders| - 1];
      var o := orders[|orders| - 1];
      PassAdds(init, key, m);
      var prev := Pass(init, key, m);
      var r := Pass(orders, key, m);
      forall k | |m.matched| <= k < |r.matched| ensures r.matched[k] in orders && KeyMatches(key, r.matched[k]) {
        if k < |prev.matched| {
          assert r.matched[k] == prev.matched[k];
          assert prev.matched[k] in init;
        } else {
          assert r.matched[k] == o;
        }
      }
    }
  }

  /** After a pass every order of the list carrying the key has its id matched. */
  lemma {:induction false} PassCovers(orders: seq<Order>, key: string, m: Matching)
    ensures var r := Pass(orders, key, m);
      m.ids <= r.ids && forall o :: o in orders && KeyMatches(key, o) ==> o.id in r.ids
  {
    if orders != [] {
      var init := orders[..|orders| - 1];
      PassCovers(init, key, m);
      assert orders == init + [orders[|orders| - 1]];
    }
  }

  /** Passes 1 and 2 of sync_with_db: the shop order number first, then the tracking number. */
  function KeyMatched(orders: seq<Order>, u: EmailUpdate): (r: Matching)
  {
    var m0 := Matching([], {});
    var m1 := if u.siteOrderId != "" then Pass(orders, Key(u.siteOrderId), m0) else m0;
    if u.tracking != "" then Pass(orders, Key(u.tracking), m1) else m1
  }

  /** The description test of the fallback: a non-empty description inside the subject or the snippet. */
  predicate DescribedBy(o: Order, u: EmailUpdate)
  {
    var d := Lower(o.description);
    d != "" && (Contains(Lower(u.subject), d) || Contains(Lower(u.bodySnippet), d))
  }

  /** The first order from index `i` on that the update describes (the loop breaks there). */
  function FirstDescribed(orders: seq<Order>, u: EmailUpdate, i: nat): (r: Option<Order>)
    decreases |orders| - i
  {
    if i >= |orders| then None
    else if DescribedBy(orders[i], u) then Some(orders[i])
    else FirstDescribed(orders, u, i + 1)
  }

  /** The fallback finds the first described order from `i` on, or reports that there is none. */
  lemma {:induction false} FirstDescribedSpec(orders: seq<Order>, u: EmailUpdate, i: nat)
    ensures var r := FirstDescribed(orders, u, i);
      (r.Some? ==>
         exists k :: i <= k < |orders| && orders[k] == r.value && DescribedBy(r.value, u)
           && forall j :: i <= j < k ==> !DescribedBy(orders[j], u))
      && (r.None? ==> forall k :: i <= k < |orders| ==> !DescribedBy(orders[k], u))
    decreases |orders| - i
  {
    if i < |orders| && !DescribedBy(orders[i], u) {
      FirstDescribedSpec(orders, u, i + 1);
    }
  }

  /** `matched_orders` once the three steps have run. */
  function MatchedOrders(orders: seq<Order>, u: EmailUpdate): (r: seq<Order>)
  {
    var m := KeyMatched(orders, u).matched;
    if m != [] then m
    else match FirstDescribed(orders, u, 0)
      case Some(o) => [o]
      case None => []
  }

  /** What the two key passes collect: orders named by a key, each once, and all of them by id. */
  lemma KeyMatchedSpec(orders: seq<Order>, u: EmailUpdate)
    ensures var m := KeyMatched(orders, u);
      WellFormed(m)
      && (forall k :: 0 <= k < |m.matched| ==> m.matched[k] in orders && ByKey(u, m.matched[k]))
      && (forall o :: o in orders && ByKey(u, o) ==> o.id in m.ids)
  {
    var m0 := Matching([], {});
    assert IdsOf([]) == {};
    var m1 := if u.siteOrderId != "" then Pass(orders, Key(u.siteOrderId), m0) else m0;
    if u.siteOrderId != "" {
      PassAppends(orders, Key(u.siteOrderId), m0);
      PassAdds(orders, Key(u.siteOrderId), m0);
      PassCovers(orders, Key(u.siteOrderId), m0);
    }
    var m2 := KeyMatched(orders, u);
    if u.tracking != "" {
      PassAppends(orders, Key(u.tracking), m1);
      PassAdds(orders, Key(u.tracking), m1);
      PassCovers(orders, Key(u.tracking), m1);
      forall k | 0 <= k < |m2.matched| ensures m2.matched[k] in orders && ByKey(u, m2.matched[k]) {
        if k < |m1.matched| {
          assert m2.matched[k] == m1.matched[k];
        }
      }
    }
  }

  /** The key passes match something only when some order carries a key. */
  lemma KeyMatchedWitness(orders: seq<Order>, u: EmailUpdate)
    ensures KeyMatched(orders, u).matched != [] ==> exists o :: o in orders && ByKey(u, o)
  {
    KeyMatchedSpec(orders, u);
    var m := KeyMatched(orders, u);
    if m.matched != [] {
      assert m.matched[0] in orders && ByKey(u, m.matched[0]);
    }
  }

  /**
   * The matched orders come from the list, each id at most once. When some
   * order carries the update's shop or tracking number, the matched orders
   * are exactly those orders (by id); otherwise at most the first order the
   * update describes is matched.
   */
  lemma MatchedOrdersSpec(orders: seq<Order>, u: EmailUpdate)
    ensures UniqueIds(MatchedOrders(orders, u))
    ensures forall o :: o in MatchedOrders(orders, u) ==> o in orders
    ensures (exists o :: o in orders && ByKey(u, o)) ==>
      (forall o :: o in MatchedOrders(orders, u) ==> ByKey(u, o))
      && (forall o :: o in orders && ByKey(u, o) ==> o.id in IdsOf(MatchedOrders(orders, u)))
    ensures (forall o :: o in orders ==> !ByKey(u, o)) ==>
      MatchedOrders(orders, u) == match FirstDescribed(orders, u, 0) case Some(o) => [o] case None => []
  {
    KeyMatchedSpec(orders, u);
    KeyMatchedWitness(orders, u);
    FirstDescribedSpec(orders, u, 0);
    var m := KeyMatched(orders, u);
    if exists o :: o in orders && ByKey(u, o) {
      var o :| o in orders && ByKey(u, o);
      assert o.id in m.ids;
      assert MatchedOrders(orders, u) == m.matched;
    }
  }

  /** Two orders sharing a shop order number both receive the update. */
  lemma SharedShopNumberMatchesAll(orders: seq<Order>, u: EmailUpdate, i: nat, j: nat)
    requires UniqueIds(orders) && i < |orders| && j < |orders|
    requires u.siteOrderId != "" && Key(orders[i].siteOrderId) == Key(u.siteOrderId)
    requires Key(orders[j].siteOrderId) == Key(u.siteOrderId)
    ensures orders[i] in MatchedOrders(orders, u) && orders[j] in MatchedOrders(orders, u)
  {
    MatchedOrdersSpec(orders, u);
    assert ByKey(u, orders[i]) && ByKey(u, orders[j]);
    KeyMatchedIsMatched(orders, u, i);
    KeyMatchedIsMatched(orders, u, j);
  }

  lemma KeyMatchedIsMatched(orders: seq<Order>, u: EmailUpdate, i: nat)
    requires UniqueIds(orders) && i < |orders|
    requires forall o :: o in MatchedOrders(orders, u) ==> o in orders
    requires orders[i].id in IdsOf(MatchedOrders(orders, u))
    ensures orders[i] in MatchedOrders(orders, u)
  {
    var ms := MatchedOrders(orders, u);
    var k :| 0 <= k < |ms| && ms[k].id == orders[i].id;
    assert ms[k] in orders;
    var a :| 0 <= a < |orders| && orders[a] == ms[k];
    assert a == i;
  }

  /** One key pass, as the loop runs it. */
  method RunPass(orders: seq<Order>, key: string, matched0: seq<Order>, ids0: set<int>)
    returns (matched: seq<Order>, ids: set<int>)
    ensures Matching(matched, ids) == Pass(orders, key, Matching(matched0, ids0))
  {
    matched, ids := matched0, ids0;
    for i := 0 to |orders|
      invariant Matching(matched, ids) == Pass(orders[..i], key, Matching(matched0, ids0))
    {
      assert orders[..i + 1][..i] == orders[..i];
      var order := orders[i];
      if order.id in ids {
        continue;
      }
      var oSid := Key(order.siteOrderId);
      var oTr := Key(order.trackingNumber);
      if key == oSid || key == oTr {
        matched := matched + [order];
        ids := ids + {order.id};
      }
    }
    assert orders[..|orders|] == orders;
  }

  /** The three matching steps of one update. */
  method MatchOrders(orders: seq<Order>, u: EmailUpdate) returns (matched: seq<Order>)
    ensures matched == MatchedOrders(orders, u)
  {
    var ids: set<int>;
    matched, ids := [], {};
    if u.siteOrderId != "" {
      matched, ids := RunPass(orders, Key(u.siteOrderId), matched, ids);
    }
    if u.tracking != "" {
      matched, ids := RunPass(orders, Key(u.tracking), matched, ids);
    }
    if matched == [] {
      var i := 0;
      while i < |orders|
        invariant i <= |orders|
        invariant FirstDescribed(orders, u, i) == FirstDescribed(orders, u, 0)
      {
        var descLower := Lower(orders[i].description);
        if descLower != "" && (Contains(Lower(u.subject), descLower) || Contains(Lower(u.bodySnippet), descLower)) {
          matched := [orders[i]];
          break;
        }
        i := i + 1;
      }
    }
  }

  // =====================================================================
  // The delivery estimate of the body snippet
  // =====================================================================

  predicate SepAt(s: string, j: nat)
  {
    j < |s| && (s[j] == '/' || s[j] == '-')
  }

  /**
   * The groups of `(\d{1,2})[/-](\d{1,2})[/-](\d{2,4})` matched at `i` with a
   * day of `dl` and a month of `ml` digits; the year takes up to four digits.
   */
  function DmyWith(s: string, i: nat, dl: nat, ml: nat): (r: Option<(string, string, string)>)
  {
    var j := i + dl + 1 + ml + 1;
    if DigitsAt(s, i, dl) && SepAt(s, i + dl) && DigitsAt(s, i + dl + 1, ml) && SepAt(s, i + dl + 1 + ml)
       && DigitRun(s, j) >= 2
    then
      var run := DigitRun(s, j);
      var yl := if run > 4 then 4 else run;
      Some((s[i..i + dl], s[i + dl + 1..i + dl + 1 + ml], s[j..j + yl]))
    else None
  }

  /** The match at `i`, trying the widths in the order the regular expression backtracks. */
  function DmyAt(s: string, i: nat): (r: Option<(string, string, string)>)
  {
    var a := DmyWith(s, i, 2, 2);
    if a.Some? then a
    else
      var b := DmyWith(s, i, 2, 1);
      if b.Some? then b
      else
        var c := DmyWith(s, i, 1, 2);
        if c.Some? then c else DmyWith(s, i, 1, 1)
  }

  /** The first position from `from` on, below `end`, where `find` matches, and its match. */
  function FirstFrom<T>(find: nat -> Option<T>, from: nat, end: nat): (r: Option<T>)
    decreases end - from
  {
    if from >= end then None
    else if find(from).Some? then find(from)
    else FirstFrom(find, from + 1, end)
  }

  /** `re.search`: the leftmost match at or after `from`. */
  function FirstDmy(s: string, from: nat): (r: Option<(string, string, string)>)
  {
    FirstFrom(i => DmyAt(s, i), from, |s|)
  }

  /**
   * `parsed_est_delivery`: the first day/month/year in the snippet written as
   * year-month-day, a two-digit year read in the 2000s. The date is not
   * checked against the calendar.
   */
  function EstimatedFrom(snippet: string): (r: Option<string>)
  {
    match FirstDmy(snippet, 0)
    case None => None
    case Some((d, m, y)) => Some((if |y| == 2 then "20" + y else y) + "-" + ZFill(m, 2) + "-" + ZFill(d, 2))
  }

  /** The search returns the match at the leftmost position where there is one. */
  lemma {:induction false} FirstFromSpec<T>(find: nat -> Option<T>, from: nat, end: nat)
    ensures var r := FirstFrom(find, from, end);
      (r.Some? ==> exists i :: from <= i < end && find(i) == r && forall j :: from <= j < i ==> find(j).None?)
      && (r.None? ==> forall i :: from <= i < end ==> find(i).None?)
    decreases end - from
  {
    if from < end && find(from).None? {
      FirstFromSpec(find, from + 1, end);
    }
  }

  /** The date search returns the match at the leftmost index where there is one. */
  lemma FirstDmySpec(s: string, from: nat)
    ensures var r := FirstDmy(s, from);
      (r.Some? ==> exists i :: from <= i < |s| && DmyAt(s, i) == r && forall j :: from <= j < i ==> DmyAt(s, j).None?)
      && (r.None? ==> forall i :: from <= i < |s| ==> DmyAt(s, i).None?)
  {
    var find := i => DmyAt(s, i);
    FirstFromSpec(find, from, |s|);
    assert forall i :: find(i) == DmyAt(s, i);
  }

  /** A day and a month of two digits and a year of two to four at the start of the text are the match. */
  lemma DmyLeading(dd: string, mm: string, y: string, post: string)
    requires |dd| == 2 && |mm| == 2 && 2 <= |y| <= 4
    requires AllDigits(dd) && AllDigits(mm) && AllDigits(y)
    requires post == [] || !IsDigit(post[0])
    ensures FirstDmy(dd + "/" + mm + "/" + y + post, 0) == Some((dd, mm, y))
  {
    var s := dd + "/" + mm + "/" + y + post;
    DmyWithLeading(dd, mm, y, post);
    assert DmyAt(s, 0) == Some((dd, mm, y));
  }

  lemma DmyWithLeading(dd: string, mm: string, y: string, post: string)
    requires |dd| == 2 && |mm| == 2 && 2 <= |y| <= 4
    requires AllDigits(dd) && AllDigits(mm) && AllDigits(y)
    requires post == [] || !IsDigit(post[0])
    ensures DmyWith(dd + "/" + mm + "/" + y + post, 0, 2, 2) == Some((dd, mm, y))
  {
    var s := dd + "/" + mm + "/" + y + post;
    assert s[..2] == dd && s[2] == '/' && s[3..5] == mm && s[5] == '/';
    assert s[6..6 + |y|] == y;
    assert forall k :: 0 <= k < 2 ==> s[k] == dd[k];
    assert forall k :: 0 <= k < 2 ==> s[3 + k] == mm[k];
    assert forall k :: 0 <= k < |y| ==> s[6 + k] == y[k];
    DigitRunExact(s, 6, |y|);
  }

  lemma {:induction false} DigitRunExact(s: string, i: nat, n: nat)
    requires i + n <= |s|
    requires forall k :: i <= k < i + n ==> IsDigit(s[k])
    requires i + n == |s| || !IsDigit(s[i + n])
    ensures DigitRun(s, i) == n
    decreases n
  {
    if n > 0 {
      DigitRunExact(s, i + 1, n - 1);
    }
  }

  /** A snippet opening with `dd/mm/yy` yields the date in 20yy. */
  lemma TwoDigitYearEstimate(dd: string, mm: string, yy: string, post: string)
    requires |dd| == 2 && |mm| == 2 && |yy| == 2
    requires AllDigits(dd) && AllDigits(mm) && AllDigits(yy)
    requires post == [] || !IsDigit(post[0])
    ensures EstimatedFrom(dd + "/" + mm + "/" + yy + post) == Some("20" + yy + "-" + mm + "-" + dd)
  {
    DmyLeading(dd, mm, yy, post);
  }

  /** A date written as `strftime('%d/%m/%Y')` is read back as its ISO form. */
  lemma DmyReadsAsIso(d: Dates.Date, post: string)
    requires Dates.Valid(d) && 1000 <= d.year <= 9999
    requires post == [] || !IsDigit(post[0])
    ensures EstimatedFrom(Dates.DmyFormat(d) + post) == Some(Dates.IsoFormat(d))
  {
    Dates.PadNat2Field(d.month);
    Dates.PadNat2Field(d.day);
    var y := NatToString(d.year);
    assert |y| == 4;
    assert PadNat(d.year, 4) == y;
    assert Dates.DmyFormat(d) + post == PadNat(d.day, 2) + "/" + PadNat(d.month, 2) + "/" + y + post;
    DmyLeading(PadNat(d.day, 2), PadNat(d.month, 2), y, post);
  }

  /** A snippet without a separator holds no estimate. */
  lemma NoSeparatorNoEstimate(snippet: string)
    requires forall k :: 0 <= k < |snippet| ==> snippet[k] != '/' && snippet[k] != '-'
    ensures EstimatedFrom(snippet).None?
  {
    FirstDmySpec(snippet, 0);
  }

  // =====================================================================
  // Rewriting one matched order
  // =====================================================================

  /** The subject words that mark a delivery when no status was extracted. */
  const DeliveredWords: seq<string> := ["consegnato", "delivered", "consegna effettuata"]

  /** The line appended to `notes`, dated `%d/%m/%Y`. */
  function NoteLine(noteDate: string, subject: string): (r: string)
  {
    "\n[Aggiornamento Email " + noteDate + "]: " + subject
  }

  /** A field the update carries is stored only where the order has none. */
  function FillBlank(stored: string, incoming: string): (r: string)
  {
    if incoming != "" && stored == "" then incoming else stored
  }

  /**
   * `update_data` for one matched order `o` (lines 628-666); `est` is
   * `parsed_est_delivery`, `now` the `last_sync_at` stamp and `noteDate` the
   * day written in the note.
   */
  function Refreshed(o: Order, u: EmailUpdate, est: Option<string>, now: string, noteDate: string): (r: Order)
  {
    var upgraded := u.status != "" && IsStatusUpgrade(o.status, u.status);
    var fromSubject := u.status == "" && ContainsAny(Lower(u.subject), DeliveredWords)
                       && IsStatusUpgrade(o.status, Consegnato);
    var status := if upgraded then u.status else if fromSubject then Consegnato else o.status;
    var delivered := if (upgraded && u.status == Consegnato) || fromSubject then true else o.isDelivered;
    var estimated := if !delivered && est.Some? && est.value != "" && est.value != o.estimatedDelivery
                     then est.value else o.estimatedDelivery;
    o.(lastEmailId := u.emailId, lastSyncAt := now, status := status, isDelivered := delivered,
       siteOrderId := FillBlank(o.siteOrderId, u.siteOrderId),
       trackingNumber := FillBlank(o.trackingNumber, u.tracking),
       carrier := FillBlank(o.carrier, u.carrier),
       lastMileCarrier := FillBlank(o.lastMileCarrier, u.lastMileCarrier),
       estimatedDelivery := estimated,
       notes := o.notes + NoteLine(noteDate, u.subject))
  }

  /**
   * The status never moves down the ladder: an upgrade is taken, a lower
   * status is ignored, a delivery is never undone, and an order moved to
   * "Consegnato" is marked delivered.
   */
  lemma RefreshedStatus(o: Order, u: EmailUpdate, est: Option<string>, now: string, noteDate: string)
    ensures var r := Refreshed(o, u, est, now, noteDate);
      Rank(r.status) >= Rank(o.status)
      && (IsStatusUpgrade(o.status, u.status) ==> r.status == u.status)
      && (u.status != "" && Rank(u.status) < Rank(o.status) ==> r.status == o.status)
      && (o.isDelivered ==> r.isDelivered)
      && (r.status == Consegnato && o.status != Consegnato ==> r.isDelivered)
  {
  }

  /** With no status extracted, a subject announcing the delivery delivers an order not yet past that step. */
  lemma SubjectDelivers(o: Order, u: EmailUpdate, est: Option<string>, now: string, noteDate: string)
    requires u.status == "" && Contains(Lower(u.subject), "delivered")
    requires Rank(o.status) <= Rank(Consegnato)
    ensures Refreshed(o, u, est, now, noteDate).status == Consegnato
    ensures Refreshed(o, u, est, now, noteDate).isDelivered
  {
    assert DeliveredWords[1] == "delivered";
  }

  /**
   * Identifiers are only ever filled in: a stored value stays, and a blank
   * one takes what the update carries.
   */
  lemma RefreshedFillsBlanks(o: Order, u: EmailUpdate, est: Option<string>, now: string, noteDate: string)
    ensures var r := Refreshed(o, u, est, now, noteDate);
      (o.siteOrderId != "" ==> r.siteOrderId == o.siteOrderId) && (o.siteOrderId == "" ==> r.siteOrderId == u.siteOrderId)
      && (o.trackingNumber != "" ==> r.trackingNumber == o.trackingNumber) && (o.trackingNumber == "" ==> r.trackingNumber == u.tracking)
      && (o.carrier != "" ==> r.carrier == o.carrier) && (o.carrier == "" ==> r.carrier == u.carrier)
      && (o.lastMileCarrier != "" ==> r.lastMileCarrier == o.lastMileCarrier)
      && (o.lastMileCarrier == "" ==> r.lastMileCarrier == u.lastMileCarrier)
  {
  }

  /**
   * The old notes are kept and the subject is appended; the estimate changes
   * only for an order still undelivered; the e-mail is recorded; every other
   * column is left alone.
   */
  lemma RefreshedKeeps(o: Order, u: EmailUpdate, est: Option<string>, now: string, noteDate: string)
    ensures var r := Refreshed(o, u, est, now, noteDate);
      StartsWith(r.notes, o.notes) && EndsWith(r.notes, u.subject)
      && (r.isDelivered ==> r.estimatedDelivery == o.estimatedDelivery)
      && (!r.isDelivered && est.Some? && est.value != "" ==> r.estimatedDelivery == est.value)
      && r.lastEmailId == u.emailId && r.lastSyncAt == now
      && r.id == o.id && r.description == o.description && r.platform == o.platform && r.price == o.price
      && r.quantity == o.quantity && r.orderDate == o.orderDate && r.seller == o.seller
  {
    AppendedNote(o.notes, noteDate, u.subject);
  }

  lemma AppendedNote(notes: string, noteDate: string, subject: string)
    ensures StartsWith(notes + NoteLine(noteDate, subject), notes)
    ensures EndsWith(notes + NoteLine(noteDate, subject), subject)
  {
    var n := notes + NoteLine(noteDate, subject);
    assert n[..|notes|] == notes;
    assert n[|n| - |subject|..] == subject;
  }

  // =====================================================================
  // The synchronisation as written: one snapshot for the whole run
  // =====================================================================

  /** `database.get_orders(include_delivered=False)`. */
  const ActiveOrders := OrderQuery(false, "", "", "")

  /**
   * The writes for one update over `matched` (lines 623-670), each row as it
   * was read: a row that already saw this e-mail is skipped, every other is
   * rewritten with `update_order` and counted.
   */
  function ApplyAll(t: Table, matched: seq<Order>, u: EmailUpdate, est: Option<string>, now: string, noteDate: string)
    : (r: (Table, nat))
  {
    if matched == [] then (t, 0)
    else
      var prev := ApplyAll(t, matched[..|matched| - 1], u, est, now, noteDate);
      var w := WriteOne(prev.0, matched[|matched| - 1], u, est, now, noteDate);
      (w.0, prev.1 + w.1)
  }

  /** The body of the inner loop for the matched order `o`: skip it, or rewrite it and count it. */
  function WriteOne(t: Table, o: Order, u: EmailUpdate, est: Option<string>, now: string, noteDate: string): (r: (Table, nat))
  {
    if o.lastEmailId == u.emailId then (t, 0)
    else
      var w := UpdateOrderIn(t, o.id, AsData(Refreshed(o, u, est, now, noteDate)));
      (w.0, if w.1 then 1 else 0)
  }

  /** An update with the orders it was matched to. */
  datatype Planned = Planned(matched: seq<Order>, u: EmailUpdate, est: Option<string>)

  /** The writes of a run, one planned update after the other. */
  function ApplyPlan(t: Table, plan: seq<Planned>, now: string, noteDate: string): (r: (Table, nat))
  {
    if plan == [] then (t, 0)
    else
      var prev := ApplyPlan(t, plan[..|plan| - 1], now, noteDate);
      var p := plan[|plan| - 1];
      var r := ApplyAll(prev.0, p.matched, p.u, p.est, now, noteDate);
      (r.0, prev.1 + r.1)
  }

  lemma ApplyPlanStep(t: Table, plan: seq<Planned>, i: nat, now: string, noteDate: string)
    requires i < |plan|
    ensures var prev := ApplyPlan(t, plan[..i], now, noteDate);
      var r := ApplyAll(prev.0, plan[i].matched, plan[i].u, plan[i].est, now, noteDate);
      ApplyPlan(t, plan[..i + 1], now, noteDate) == (r.0, prev.1 + r.1)
  {
    assert plan[..i + 1][..i] == plan[..i];
  }

  /** Every update matched against the same snapshot of the active orders. */
  function SnapshotPlan(snapshot: seq<Order>, updates: seq<EmailUpdate>): (plan: seq<Planned>)
    ensures |plan| == |updates|
  {
    if updates == [] then []
    else
      SnapshotPlan(snapshot, updates[..|updates| - 1])
      + [Planned(MatchedOrders(snapshot, updates[|updates| - 1]), updates[|updates| - 1],
                 EstimatedFrom(updates[|updates| - 1].bodySnippet))]
  }

  lemma {:induction false} SnapshotPlanAt(snapshot: seq<Order>, updates: seq<EmailUpdate>, i: nat)
    requires i < |updates|
    ensures SnapshotPlan(snapshot, updates)[i]
         == Planned(MatchedOrders(snapshot, updates[i]), updates[i], EstimatedFrom(updates[i].bodySnippet))
  {
    if i < |updates| - 1 {
      SnapshotPlanAt(snapshot, updates[..|updates| - 1], i);
    }
  }

  /** `sync_with_db` as written: every update is matched against the snapshot taken before the loop. */
  function SyncAsWritten(t: Table, snapshot: seq<Order>, updates: seq<EmailUpdate>, now: string, noteDate: string)
    : (r: (Table, nat))
  {
    ApplyPlan(t, SnapshotPlan(snapshot, updates), now, noteDate)
  }

  /** The inner loop over the matched orders of one update. */
  method ApplyMatched(store: OrderStore, matched: seq<Order>, u: EmailUpdate, est: Option<string>,
                      now: string, noteDate: string) returns (applied: nat)
    requires store.Valid()
    modifies store
    ensures store.Valid()
    ensures (store.AsTable(), applied) == ApplyAll(old(store.AsTable()), matched, u, est, now, noteDate)
  {
    applied := 0;
    for k := 0 to |matched|
      invariant store.Valid()
      invariant (store.AsTable(), applied) == ApplyAll(old(store.AsTable()), matched[..k], u, est, now, noteDate)
    {
      assert matched[..k + 1][..k] == matched[..k];
      var n := WriteMatched(store, matched[k], u, est, now, noteDate);
      applied := applied + n;
    }
    assert matched[..|matched|] == matched;
  }

  /** One pass of the inner loop: skip an order that saw this e-mail, else rewrite it. */
  method WriteMatched(store: OrderStore, matchedOrder: Order, u: EmailUpdate, est: Option<string>,
                      now: string, noteDate: string) returns (n: nat)
    requires store.Valid()
    modifies store
    ensures store.Valid()
    ensures (store.AsTable(), n) == WriteOne(old(store.AsTable()), matchedOrder, u, est, now, noteDate)
  {
    n := 0;
    if matchedOrder.lastEmailId == u.emailId {
      return;
    }
    var updateData := AsData(Refreshed(matchedOrder, u, est, now, noteDate));
    var ok := store.UpdateOrder(matchedOrder.id, updateData);
    if ok {
      n := 1;
    }
  }

  /** Step `i` of the plan matches update `i` against `snapshot`. */
  predicate PlannedFrom(plan: seq<Planned>, snapshot: seq<Order>, updates: seq<EmailUpdate>)
  {
    |plan| == |updates|
    && forall i {:trigger plan[i]} :: 0 <= i < |plan| ==>
      plan[i] == Planned(MatchedOrders(snapshot, updates[i]), updates[i], EstimatedFrom(updates[i].bodySnippet))
  }

  lemma SnapshotPlanned(snapshot: seq<Order>, updates: seq<EmailUpdate>)
    ensures PlannedFrom(SnapshotPlan(snapshot, updates), snapshot, updates)
  {
    forall i | 0 <= i < |updates|
      ensures SnapshotPlan(snapshot, updates)[i]
           == Planned(MatchedOrders(snapshot, updates[i]), updates[i], EstimatedFrom(updates[i].bodySnippet))
    {
      SnapshotPlanAt(snapshot, updates, i);
    }
  }

  /** The table and the count after one more planned update. */
  function Next(s: (Table, nat), p: Planned, now: string, noteDate: string): (r: (Table, nat))
  {
    var r := ApplyAll(s.0, p.matched, p.u, p.est, now, noteDate);
    (r.0, s.1 + r.1)
  }

  /** `states[i]` is the table and the count once the first `i` planned updates have been carried out. */
  predicate StepsOf(states: seq<(Table, nat)>, plan: seq<Planned>, now: string, noteDate: string)
  {
    |states| == |plan| + 1
    && forall i {:trigger plan[i]} :: 0 <= i < |plan| ==> states[i + 1] == Next(states[i], plan[i], now, noteDate)
  }

  /** The table and the count after each prefix of the plan. */
  function PlanStates(t: Table, plan: seq<Planned>, now: string, noteDate: string): (states: seq<(Table, nat)>)
    ensures |states| == |plan| + 1
  {
    if plan == [] then [(t, 0)]
    else
      var prev := PlanStates(t, plan[..|plan| - 1], now, noteDate);
      prev + [Next(prev[|prev| - 1], plan[|plan| - 1], now, noteDate)]
  }

  lemma {:induction false} PlanStatesSpec(t: Table, plan: seq<Planned>, now: string, noteDate: string)
    ensures var states := PlanStates(t, plan, now, noteDate);
      states[0] == (t, 0) && StepsOf(states, plan, now, noteDate)
      && states[|plan|] == ApplyPlan(t, plan, now, noteDate)
  {
    if plan != [] {
      var init := plan[..|plan| - 1];
      PlanStatesSpec(t, init, now, noteDate);
      var states := PlanStates(t, plan, now, noteDate);
      var prev := PlanStates(t, init, now, noteDate);
      assert states[..|prev|] == prev;
      forall i | 0 <= i < |plan|
        ensures states[i + 1] == Next(states[i], plan[i], now, noteDate)
      {
        if i < |init| {
          assert plan[i] == init[i];
        }
      }
    }
  }

  /**
   * The body of the loop over the updates for one update `u`, matched against
   * the snapshot `orders` as planned in `p`; `before` is the count so far.
   */
  method SyncOne(store: OrderStore, orders: seq<Order>, u: EmailUpdate, now: string, noteDate: string,
                 ghost p: Planned, ghost before: nat)
    returns (applied: nat)
    requires store.Valid()
    requires p == Planned(MatchedOrders(orders, u), u, EstimatedFrom(u.bodySnippet))
    modifies store
    ensures store.Valid()
    ensures (store.AsTable(), before + applied) == Next((old(store.AsTable()), before), p, now, noteDate)
  {
    var matched := MatchOrders(orders, u);
    var est := EstimatedFrom(u.bodySnippet);
    applied := ApplyMatched(store, matched, u, est, now, noteDate);
  }

  /** Update `i` of the run carried out: the table and the count move from `states[i]` to `states[i + 1]`. */
  method SyncStep(store: OrderStore, orders: seq<Order>, updates: seq<EmailUpdate>, i: nat, now: string, noteDate: string,
                  ghost plan: seq<Planned>, ghost states: seq<(Table, nat)>, ghost before: nat)
    returns (applied: nat)
    requires store.Valid() && PlannedFrom(plan, orders, updates) && i < |updates|
    requires StepsOf(states, plan, now, noteDate) && (store.AsTable(), before) == states[i]
    modifies store
    ensures store.Valid()
    ensures (store.AsTable(), before + applied) == states[i + 1]
  {
    applied := SyncOne(store, orders, updates[i], now, noteDate, plan[i], before);
  }

  /** The loop over the updates, every one matched against the same snapshot `orders`. */
  method RunPlan(store: OrderStore, orders: seq<Order>, updates: seq<EmailUpdate>, now: string, noteDate: string,
                 ghost plan: seq<Planned>, ghost states: seq<(Table, nat)>)
    returns (applied: nat)
    requires store.Valid() && PlannedFrom(plan, orders, updates)
    requires StepsOf(states, plan, now, noteDate) && states[0] == (store.AsTable(), 0)
    modifies store
    ensures store.Valid()
    ensures (store.AsTable(), applied) == states[|plan|]
  {
    applied := 0;
    for i := 0 to |updates|
      invariant store.Valid()
      invariant (store.AsTable(), applied) == states[i]
    {
      var n := SyncStep(store, orders, updates, i, now, noteDate, plan, states, applied);
      applied := applied + n;
    }
  }

  /** `sync_with_db` after `fetch_updates` returned `updates`; returns `applied_count`. */
  method SyncWithDb(store: OrderStore, updates: seq<EmailUpdate>, now: string, noteDate: string)
    returns (applied: nat)
    requires store.Valid()
    modifies store
    ensures store.Valid()
    ensures (store.AsTable(), applied)
         == SyncAsWritten(old(store.AsTable()), Select(old(store.rows), ActiveOrders), updates, now, noteDate)
  {
    var orders := store.GetOrders(ActiveOrders);
    ghost var plan := SnapshotPlan(orders, updates);
    SnapshotPlanned(orders, updates);
    PlanStatesSpec(store.AsTable(), plan, now, noteDate);
    applied := RunPlan(store, orders, updates, now, noteDate, plan, PlanStates(store.AsTable(), plan, now, noteDate));
  }

  // =====================================================================
  // What one update does to the table
  // =====================================================================

  /** A row after the writes of update `u` over the matched ids `ids`. */
  function Touched(o: Order, ids: set<int>, u: EmailUpdate, est: Option<string>, now: string, noteDate: string): (r: Order)
    ensures r.id == o.id
  {
    if o.id in ids && o.lastEmailId != u.emailId then Refreshed(o, u, est, now, noteDate) else o
  }

  /** One write rewrites the rows with the order's id, or nothing when the order has seen the e-mail. */
  lemma WriteOneRows(t: Table, o: Order, u: EmailUpdate, est: Option<string>, now: string, noteDate: string)
    requires TableValid(t)
    ensures var r := WriteOne(t, o, u, est, now, noteDate).0;
      TableValid(r) && r.nextId == t.nextId && |r.rows| == |t.rows|
      && forall k :: 0 <= k < |t.rows| ==>
        r.rows[k] == if t.rows[k].id == o.id && o.lastEmailId != u.emailId then Refreshed(o, u, est, now, noteDate) else t.rows[k]
  {
    UpdateWithOwnData(Refreshed(o, u, est, now, noteDate));
  }

  lemma TouchedStep(row: Order, o: Order, ids: set<int>, u: EmailUpdate, est: Option<string>, now: string, noteDate: string)
    requires o.id !in ids && (row.id == o.id ==> row == o)
    ensures var prev := Touched(row, ids, u, est, now, noteDate);
      Touched(row, ids + {o.id}, u, est, now, noteDate)
      == if prev.id == o.id && o.lastEmailId != u.emailId then Refreshed(o, u, est, now, noteDate) else prev
  {
  }

  /**
   * When the matched orders are current rows of the table, each id once, the
   * writes for one update rewrite exactly the matched rows that have not yet
   * recorded the e-mail, and nothing else.
   */
  lemma {:induction false} ApplyAllRows(t: Table, matched: seq<Order>, u: EmailUpdate, est: Option<string>,
                                        now: string, noteDate: string)
    requires TableValid(t) && UniqueIds(matched)
    requires forall k :: 0 <= k < |matched| ==> matched[k] in t.rows
    ensures var r := ApplyAll(t, matched, u, est, now, noteDate).0;
      TableValid(r) && r.nextId == t.nextId && |r.rows| == |t.rows|
      && forall k :: 0 <= k < |t.rows| ==> r.rows[k] == Touched(t.rows[k], IdsOf(matched), u, est, now, noteDate)
  {
    if matched == [] {
      assert IdsOf(matched) == {};
    } else {
      var init := matched[..|matched| - 1];
      var o := matched[|matched| - 1];
      SnocParts(matched);
      ApplyAllRows(t, init, u, est, now, noteDate);
      RowOfId(t, o);
      var prev := ApplyAll(t, init, u, est, now, noteDate).0;
      WriteOneRows(prev, o, u, est, now, noteDate);
      var r := ApplyAll(t, matched, u, est, now, noteDate).0;
      assert r == WriteOne(prev, o, u, est, now, noteDate).0;
      forall k | 0 <= k < |t.rows|
        ensures r.rows[k] == Touched(t.rows[k], IdsOf(matched), u, est, now, noteDate)
      {
        TouchedStep(t.rows[k], o, IdsOf(init), u, est, now, noteDate);
      }
    }
  }

  /** The last matched order is new to the ones before it. */
  lemma SnocParts(matched: seq<Order>)
    requires UniqueIds(matched) && matched != []
    ensures var init := matched[..|matched| - 1];
      var o := matched[|matched| - 1];
      UniqueIds(init) && o.id !in IdsOf(init) && IdsOf(matched) == IdsOf(init) + {o.id}
      && forall k :: 0 <= k < |init| ==> init[k] == matched[k]
  {
    var init := matched[..|matched| - 1];
    var o := matched[|matched| - 1];
    IdsOfSnoc(init, o);
    assert matched == init + [o];
  }

  /** In a valid table the row of an id is unique. */
  lemma RowOfId(t: Table, o: Order)
    requires TableValid(t) && o in t.rows
    ensures forall k :: 0 <= k < |t.rows| && t.rows[k].id == o.id ==> t.rows[k] == o
  {
  }

  /** The writes for one update over current rows move every row forward. */
  lemma ApplyAllProgress(t: Table, matched: seq<Order>, u: EmailUpdate, est: Option<string>, now: string, noteDate: string)
    requires TableValid(t) && UniqueIds(matched)
    requires forall k :: 0 <= k < |matched| ==> matched[k] in t.rows
    ensures TableValid(ApplyAll(t, matched, u, est, now, noteDate).0)
    ensures Progress(t.rows, ApplyAll(t, matched, u, est, now, noteDate).0.rows)
  {
    ApplyAllRows(t, matched, u, est, now, noteDate);
    var r := ApplyAll(t, matched, u, est, now, noteDate).0;
    forall k | 0 <= k < |t.rows|
      ensures Rank(r.rows[k].status) >= Rank(t.rows[k].status)
      && (t.rows[k].isDelivered ==> r.rows[k].isDelivered) && StartsWith(r.rows[k].notes, t.rows[k].notes)
    {
      RefreshedStatus(t.rows[k], u, est, now, noteDate);
      RefreshedKeeps(t.rows[k], u, est, now, noteDate);
    }
  }

  /** After the writes every matched row has recorded the e-mail. */
  lemma ApplyAllRecords(t: Table, matched: seq<Order>, u: EmailUpdate, est: Option<string>, now: string, noteDate: string)
    requires TableValid(t) && UniqueIds(matched)
    requires forall k :: 0 <= k < |matched| ==> matched[k] in t.rows
    ensures var r := ApplyAll(t, matched, u, est, now, noteDate).0;
      forall k :: 0 <= k < |r.rows| && r.rows[k].id in IdsOf(matched) ==> r.rows[k].lastEmailId == u.emailId
  {
    ApplyAllRows(t, matched, u, est, now, noteDate);
  }

  /** An update every matched row has already recorded writes nothing and counts nothing. */
  lemma {:induction false} ApplyAllSeen(t: Table, matched: seq<Order>, u: EmailUpdate, est: Option<string>,
                                        now: string, noteDate: string)
    requires forall k :: 0 <= k < |matched| ==> matched[k].lastEmailId == u.emailId
    ensures ApplyAll(t, matched, u, est, now, noteDate) == (t, 0)
  {
    if matched != [] {
      ApplyAllSeen(t, matched[..|matched| - 1], u, est, now, noteDate);
    }
  }

  // =====================================================================
  // The corrected synchronisation: the active orders are read per update
  // =====================================================================

  /** Rows only move forward: same ids in the same places, status never lower, delivery never undone, notes only appended. */
  predicate Progress(a: seq<Order>, b: seq<Order>)
  {
    |a| == |b|
    && forall k :: 0 <= k < |a| ==>
      b[k].id == a[k].id && Rank(b[k].status) >= Rank(a[k].status)
      && (a[k].isDelivered ==> b[k].isDelivered) && StartsWith(b[k].notes, a[k].notes)
  }

  lemma ProgressRefl(a: seq<Order>)
    ensures Progress(a, a)
  {
  }

  lemma ProgressTrans(a: seq<Order>, b: seq<Order>, c: seq<Order>)
    requires Progress(a, b) && Progress(b, c)
    ensures Progress(a, c)
  {
    forall k | 0 <= k < |a| ensures StartsWith(c[k].notes, a[k].notes) {
      assert c[k].notes[..|b[k].notes|] == b[k].notes;
      assert c[k].notes[..|a[k].notes|] == b[k].notes[..|a[k].notes|];
    }
  }

  /** One update of the corrected run: matched against the orders active at that moment. */
  function FreshStep(t: Table, u: EmailUpdate, now: string, noteDate: string): (r: (Table, nat))
  {
    ApplyAll(t, MatchedOrders(Select(t.rows, ActiveOrders), u), u, EstimatedFrom(u.bodySnippet), now, noteDate)
  }

  /** `sync_with_db` with `get_orders(include_delivered=False)` inside the loop over the updates. */
  function SyncFresh(t: Table, updates: seq<EmailUpdate>, now: string, noteDate: string): (r: (Table, nat))
  {
    if updates == [] then (t, 0)
    else
      var prev := SyncFresh(t, updates[..|updates| - 1], now, noteDate);
      var r := FreshStep(prev.0, updates[|updates| - 1], now, noteDate);
      (r.0, prev.1 + r.1)
  }

  lemma {:induction false} SelectKeepsUniqueIds(rows: seq<Order>, q: OrderQuery)
    requires UniqueIds(rows)
    ensures UniqueIds(Select(rows, q))
  {
    if rows != [] {
      var tail := rows[1..];
      forall i, j | 0 <= i < j < |tail| ensures tail[i].id != tail[j].id {
        assert tail[i] == rows[i + 1] && tail[j] == rows[j + 1];
      }
      SelectKeepsUniqueIds(tail, q);
      var rest := Select(tail, q);
      if MatchesQuery(rows[0], q) {
        forall j | 0 <= j < |rest| ensures rest[j].id != rows[0].id {
          assert rest[j] in rest;
          assert rest[j] in tail;
          var k :| 0 <= k < |tail| && tail[k] == rest[j];
          assert rows[k + 1] == rest[j];
        }
        var s := [rows[0]] + rest;
        forall i, j | 0 <= i < j < |s| ensures s[i].id != s[j].id {
          if i > 0 {
            assert s[i] == rest[i - 1] && s[j] == rest[j - 1];
          }
        }
      }
    }
  }

  /** One corrected step moves every row forward and keeps the table valid. */
  lemma FreshStepProgress(t: Table, u: EmailUpdate, now: string, noteDate: string)
    requires TableValid(t)
    ensures TableValid(FreshStep(t, u, now, noteDate).0)
    ensures Progress(t.rows, FreshStep(t, u, now, noteDate).0.rows)
  {
    var snapshot := Select(t.rows, ActiveOrders);
    var matched := MatchedOrders(snapshot, u);
    SelectKeepsUniqueIds(t.rows, ActiveOrders);
    MatchedOrdersSpec(snapshot, u);
    ApplyAllProgress(t, matched, u, EstimatedFrom(u.bodySnippet), now, noteDate);
  }

  /**
   * The corrected run never moves an order back: every row keeps its place
   * and id, its status only climbs, a delivery stays, and every note written
   * during the run is kept.
   */
  lemma {:induction false} SyncFreshProgress(t: Table, updates: seq<EmailUpdate>, now: string, noteDate: string)
    requires TableValid(t)
    ensures TableValid(SyncFresh(t, updates, now, noteDate).0)
    ensures Progress(t.rows, SyncFresh(t, updates, now, noteDate).0.rows)
  {
    if updates == [] {
      ProgressRefl(t.rows);
    } else {
      var init := updates[..|updates| - 1];
      SyncFreshProgress(t, init, now, noteDate);
      var prev := SyncFresh(t, init, now, noteDate).0;
      FreshStepProgress(prev, updates[|updates| - 1], now, noteDate);
      ProgressTrans(t.rows, prev.rows, SyncFresh(t, updates, now, noteDate).0.rows);
    }
  }

  // =====================================================================
  // The stale snapshot undoes a delivery
  // =====================================================================

  /**
   * The situation of the example: an undelivered order at "Spedito", an
   * e-mail reporting its delivery and a later e-mail with no status, both
   * naming its shop order number.
   */
  predicate DeliveryThenSilence(o: Order, delivered: EmailUpdate, later: EmailUpdate)
  {
    o.status == Spedito && !o.isDelivered && o.siteOrderId != ""
    && delivered.siteOrderId == o.siteOrderId && later.siteOrderId == o.siteOrderId
    && delivered.status == Consegnato && later.status == ""
    && !ContainsAny(Lower(later.subject), DeliveredWords)
    && o.lastEmailId != delivered.emailId && o.lastEmailId != later.emailId
  }

  /** A pass over a single order. */
  lemma PassOne(o: Order, key: string, m: Matching)
    ensures Pass([o], key, m)
      == if o.id !in m.ids && KeyMatches(key, o) then Matching(m.matched + [o], m.ids + {o.id}) else m
  {
    assert [o][..0] == [];
  }

  /** An update naming the only order's shop number matches it. */
  lemma MatchesOnly(o: Order, u: EmailUpdate)
    requires u.siteOrderId != "" && u.siteOrderId == o.siteOrderId
    ensures MatchedOrders([o], u) == [o]
  {
    var k := Key(u.siteOrderId);
    assert KeyMatches(k, o);
    var m0 := Matching([], {});
    PassOne(o, k, m0);
    var m1 := Matching([o], {o.id});
    assert [] + [o] == [o];
    assert Pass([o], k, m0) == m1;
    if u.tracking != "" {
      PassOne(o, Key(u.tracking), m1);
      assert Pass([o], Key(u.tracking), m1) == m1;
    }
    assert KeyMatched([o], u) == m1;
  }

  /** The writes of one update over a one-row table whose row is the matched order's. */
  lemma WriteSingle(x: Order, o: Order, n: int, u: EmailUpdate, est: Option<string>, now: string, noteDate: string)
    requires x.id == o.id && o.lastEmailId != u.emailId
    ensures ApplyAll(Table([x], n), [o], u, est, now, noteDate) == (Table([Refreshed(o, u, est, now, noteDate)], n), 1)
  {
    assert [o][..0] == [];
    UpdateWithOwnData(Refreshed(o, u, est, now, noteDate));
    assert ReplaceById([x], o.id, Refreshed(o, u, est, now, noteDate)) == [Refreshed(o, u, est, now, noteDate)];
  }

  /**
   * Run as written, the delivery e-mail delivers the order, and a later
   * e-mail in the same run writes the stale copy back: the order is
   * "Spedito" and undelivered again, and the delivery note is gone.
   */
  lemma StaleSnapshotUndoesDelivery(o: Order, delivered: EmailUpdate, later: EmailUpdate, now: string, noteDate: string)
    requires DeliveryThenSilence(o, delivered, later)
    ensures Select([o], ActiveOrders) == [o]
    ensures var once := SyncAsWritten(Table([o], o.id + 1), [o], [delivered], now, noteDate).0;
      |once.rows| == 1 && once.rows[0].status == Consegnato && once.rows[0].isDelivered
    ensures var once := SyncAsWritten(Table([o], o.id + 1), [o], [delivered], now, noteDate).0;
      var twice := SyncAsWritten(Table([o], o.id + 1), [o], [delivered, later], now, noteDate).0;
      |twice.rows| == 1 && twice.rows[0].status == Spedito && !twice.rows[0].isDelivered
      && !Progress(once.rows, twice.rows)
  {
    var t := Table([o], o.id + 1);
    MatchesOnly(o, delivered);
    MatchesOnly(o, later);
    var plan1 := SnapshotPlan([o], [delivered]);
    assert [delivered, later][..1] == [delivered];
    var plan2 := SnapshotPlan([o], [delivered, later]);
    assert plan2 == plan1 + [plan2[1]];
    assert plan2[..1] == plan1;
    assert plan1[0] == Planned([o], delivered, EstimatedFrom(delivered.bodySnippet));
    assert plan2[1] == Planned([o], later, EstimatedFrom(later.bodySnippet));
    var e1 := EstimatedFrom(delivered.bodySnippet);
    var e2 := EstimatedFrom(later.bodySnippet);
    var r1 := Refreshed(o, delivered, e1, now, noteDate);
    WriteSingle(o, o, t.nextId, delivered, e1, now, noteDate);
    WriteSingle(r1, o, t.nextId, later, e2, now, noteDate);
    ApplyPlanStep(t, plan1, 0, now, noteDate);
    assert plan1[..0] == [] && plan1[..1] == plan1;
    ApplyPlanStep(t, plan2, 1, now, noteDate);
    assert plan2[..2] == plan2;
  }

  /** With no active order left an update matches nothing and writes nothing. */
  lemma NothingActiveNothingWritten(t: Table, u: EmailUpdate, now: string, noteDate: string)
    requires forall k :: 0 <= k < |t.rows| ==> t.rows[k].isDelivered
    ensures FreshStep(t, u, now, noteDate) == (t, 0)
  {
    if Select(t.rows, ActiveOrders) != [] {
      assert Select(t.rows, ActiveOrders)[0] in Select(t.rows, ActiveOrders);
    }
    assert KeyMatched([], u).matched == [];
  }

  /** The corrected run keeps the delivery: the later e-mail finds no active order to match. */
  lemma FreshRunKeepsDelivery(o: Order, delivered: EmailUpdate, later: EmailUpdate, now: string, noteDate: string)
    requires DeliveryThenSilence(o, delivered, later)
    ensures var r := SyncFresh(Table([o], o.id + 1), [delivered, later], now, noteDate).0;
      |r.rows| == 1 && r.rows[0].status == Consegnato && r.rows[0].isDelivered
  {
    var t := Table([o], o.id + 1);
    var r1 := Refreshed(o, delivered, EstimatedFrom(delivered.bodySnippet), now, noteDate);
    FreshDeliveryStep(o, delivered, later, now, noteDate);
    NothingActiveNothingWritten(Table([r1], t.nextId), later, now, noteDate);
    assert [delivered, later][..1] == [delivered];
    assert SyncFresh(t, [delivered, later], now, noteDate).0 == FreshStep(Table([r1], t.nextId), later, now, noteDate).0;
  }

  /** The first e-mail of that run delivers the order. */
  lemma FreshDeliveryStep(o: Order, delivered: EmailUpdate, later: EmailUpdate, now: string, noteDate: string)
    requires DeliveryThenSilence(o, delivered, later)
    ensures var r1 := Refreshed(o, delivered, EstimatedFrom(delivered.bodySnippet), now, noteDate);
      SyncFresh(Table([o], o.id + 1), [delivered], now, noteDate) == (Table([r1], o.id + 1), 1)
      && r1.status == Consegnato && r1.isDelivered
  {
    var t := Table([o], o.id + 1);
    var r1 := Refreshed(o, delivered, EstimatedFrom(delivered.bodySnippet), now, noteDate);
    MatchesOnly(o, delivered);
    WriteSingle(o, o, t.nextId, delivered, EstimatedFrom(delivered.bodySnippet), now, noteDate);
    assert Select([o], ActiveOrders) == [o];
    assert [delivered][..0] == [];
    assert SyncFresh(t, [delivered], now, noteDate) == (Table([r1], t.nextId), 1);
  }
}

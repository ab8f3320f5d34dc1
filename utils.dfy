// utils.py: the input validators, the date classification of DateHelper
// (with "today" passed in) and the counters of StatisticsCalculator.

module Utils {
  import opened Text
  import opened Dates
  import opened Orders

  // =====================================================================
  // Validator
  // =====================================================================

  /** `validate_url`: empty, or an http / https address. */
  function ValidateUrl(url: string): (ok: bool)
    ensures ok <==> url == "" || exists rest :: url == "http://" + rest || url == "https://" + rest
  {
    if url == "" then true
    else
      var r := StartsWith(url, "http://") || StartsWith(url, "https://");
      assert StartsWith(url, "http://") ==> url == "http://" + url[7..];
      assert StartsWith(url, "https://") ==> url == "https://" + url[8..];
      assert forall rest :: url == "http://" + rest ==> url[..7] == "http://";
      assert forall rest :: url == "https://" + rest ==> url[..8] == "https://";
      r
  }

  /**
   * The literals `int()` accepts after stripping: ASCII digits, with single
   * underscores allowed between two digits.
   */
  predicate DigitLiteral(s: string)
  {
    |s| > 0 && IsDigit(s[0]) && IsDigit(s[|s| - 1])
    && (forall i :: 0 <= i < |s| ==> IsDigit(s[i]) || s[i] == '_')
    && (forall i :: 0 <= i < |s| - 1 ==> !(s[i] == '_' && s[i + 1] == '_'))
  }

  /** The digits of a literal with its underscores removed. */
  function DropUnderscores(s: string): (r: string)
    requires forall i :: 0 <= i < |s| ==> IsDigit(s[i]) || s[i] == '_'
    ensures AllDigits(r) && |r| <= |s|
    ensures AllDigits(s) ==> r == s
  {
    if s == [] then []
    else if s[0] == '_' then DropUnderscores(s[1..])
    else [s[0]] + DropUnderscores(s[1..])
  }

  /** Python's `int(s)` on a base-10 text; `None` where it raises ValueError. */
  function ParseInt(s: string): (r: Option<int>)
  {
    var t := Strip(s);
    if |t| > 0 && (t[0] == '+' || t[0] == '-') then
      var body := t[1..];
      if DigitLiteral(body) then
        var v: int := DigitsVal(DropUnderscores(body));
        Some(if t[0] == '-' then -v else v)
      else None
    else if DigitLiteral(t) then Some(DigitsVal(DropUnderscores(t)))
    else None
  }

  /** `int(str(n))` gives `n` back. */
  lemma ParseIntOfDecimal(n: nat)
    ensures ParseInt(NatToString(n)) == Some(n)
  {
    var s := NatToString(n);
    NatToStringVal(n);
    assert IsDigit(s[0]) && IsDigit(s[|s| - 1]);
    assert !IsSpace(s[0]) && !IsSpace(s[|s| - 1]);
    StripNoop(s);
    assert Strip(s) == s;
    assert s[0] != '+' && s[0] != '-';
    DigitsAreLiteral(s);
    assert DropUnderscores(s) == s;
    assert ParseInt(s) == Some(DigitsVal(DropUnderscores(s)));
  }

  /** A non-empty run of digits is an integer literal. */
  lemma DigitsAreLiteral(s: string)
    requires |s| > 0 && AllDigits(s)
    ensures DigitLiteral(s)
  {
    forall i | 0 <= i < |s| - 1
      ensures !(s[i] == '_' && s[i + 1] == '_')
    {
      assert IsDigit(s[i]);
    }
  }

  /** `int("-" + str(n))` gives `-n` back. */
  lemma ParseIntOfNegative(n: nat)
    ensures ParseInt("-" + NatToString(n)) == Some(-(n as int))
  {
    var s := NatToString(n);
    var t := "-" + s;
    NatToStringVal(n);
    assert !IsSpace(t[0]) && !IsSpace(t[|t| - 1]);
    StripNoop(t);
    assert t[1..] == s;
    DigitsAreLiteral(s);
    assert DropUnderscores(s) == s;
  }

  /** `validate_quantity`: the outcome flag and the parsed value. */
  datatype QuantityCheck = QuantityCheck(ok: bool, value: Option<int>)

  function ValidateQuantity(qty: string): (r: QuantityCheck)
    ensures r.ok <==> r.value.Some?
    ensures r.ok <==> ParseInt(qty).Some? && ParseInt(qty).value > 0
    ensures r.ok ==> r.value == ParseInt(qty) && r.value.value > 0
  {
    match ParseInt(qty)
    case None => QuantityCheck(false, None)
    case Some(v) => if v > 0 then QuantityCheck(true, Some(v)) else QuantityCheck(false, None)
  }

  /** Every positive count written out in decimal is accepted as itself. */
  lemma QuantityAcceptsPositive(n: int)
    requires n > 0
    ensures ValidateQuantity(NatToString(n)) == QuantityCheck(true, Some(n))
    ensures ValidateQuantity("-" + NatToString(n)) == QuantityCheck(false, None)
  {
    ParseIntOfDecimal(n);
    ParseIntOfNegative(n);
  }

  /** `validate_date` with its default format `%Y-%m-%d`. */
  function ValidateDate(s: string): (r: Option<Date>)
    ensures r.Some? ==> Valid(r.value)
  {
    ParseIsoDate(s)
  }

  /** A date written in ISO form is accepted as that very date. */
  lemma ValidateDateAcceptsIso(d: Date)
    requires Valid(d)
    ensures ValidateDate(IsoFormat(d)) == Some(d)
  {
    IsoRoundTrip(d);
  }

  /** `not data.get(field)`: an absent key or an empty value. */
  predicate FieldMissing(data: map<string, string>, field: string)
  {
    field !in data || data[field] == ""
  }

  /** `validate_required_fields`: the list of missing fields, in the order required lists them. */
  function MissingFields(data: map<string, string>, required: seq<string>): (missing: seq<string>)
    ensures |missing| <= |required|
    ensures forall f :: f in missing <==> f in required && FieldMissing(data, f)
    ensures missing == [] <==> forall k :: 0 <= k < |required| ==> !FieldMissing(data, required[k])
  {
    if required == [] then []
    else
      var rest := MissingFields(data, required[1..]);
      assert forall k :: 1 <= k < |required| ==> required[k] == required[1..][k - 1];
      if FieldMissing(data, required[0]) then [required[0]] + rest else rest
  }

  /** The missing fields keep the relative order of `required`: they are a subsequence of it. */
  lemma {:induction false} MissingFieldsSubsequence(data: map<string, string>, required: seq<string>)
    ensures IsSubsequence(MissingFields(data, required), required)
  {
    if required != [] {
      MissingFieldsSubsequence(data, required[1..]);
    }
  }

  predicate IsSubsequence(a: seq<string>, b: seq<string>)
    decreases |b|
  {
    if a == [] then true
    else if b == [] then false
    else if a[0] == b[0] then IsSubsequence(a[1..], b[1..])
    else IsSubsequence(a, b[1..])
  }

  /** `validate_required_fields` returns `(len(missing) == 0, missing)`. */
  datatype FieldsCheck = FieldsCheck(ok: bool, missing: seq<string>)

  function ValidateRequiredFields(data: map<string, string>, required: seq<string>): (r: FieldsCheck)
    ensures r.missing == MissingFields(data, required)
    ensures r.ok <==> forall f :: f in required ==> !FieldMissing(data, f)
  {
    var m := MissingFields(data, required);
    FieldsCheck(|m| == 0, m)
  }

  // =====================================================================
  // DateHelper (today is a parameter)
  // =====================================================================

  /** `format_date` with its default format `%d/%m/%Y`. */
  function FormatDate(d: Date): (r: string)
    requires Valid(d)
  {
    DmyFormat(d)
  }

  /** `parse_date` with its default format. */
  function ParseDate(s: string): (r: Option<Date>)
    ensures r.Some? ==> Valid(r.value)
  {
    ParseIsoDate(s)
  }

  /** `(target_date - today).days`. */
  function DaysUntil(target: Date, today: Date): (r: int)
    requires Valid(target) && Valid(today)
  {
    Ordinal(target) - Ordinal(today)
  }

  /** `is_overdue`: the target is before today. */
  function IsOverdue(target: Date, today: Date): (r: bool)
    requires Valid(target) && Valid(today)
    ensures r <==> DaysUntil(target, today) < 0
  {
    OrdinalOrder(target, today);
    Before(target, today)
  }

  /** `is_due_today`. */
  function IsDueToday(target: Date, today: Date): (r: bool)
    requires Valid(target) && Valid(today)
    ensures r <==> DaysUntil(target, today) == 0
  {
    OrdinalOrder(target, today);
    target == today
  }

  /** `is_upcoming(target, days)`. */
  function IsUpcoming(target: Date, today: Date, days: int): (r: bool)
    requires Valid(target) && Valid(today)
    ensures r ==> !IsOverdue(target, today) && !IsDueToday(target, today)
  {
    var delta := DaysUntil(target, today);
    0 < delta <= days
  }

  datatype DateStatus = Overdue | DueToday | Upcoming | Normal

  /** `get_date_status`: the four outcomes, tested in that order. */
  function GetDateStatus(target: Date, today: Date, threshold: int): (r: DateStatus)
    requires Valid(target) && Valid(today)
    ensures r == Overdue <==> DaysUntil(target, today) < 0
    ensures r == DueToday <==> DaysUntil(target, today) == 0
    ensures r == Upcoming <==> 0 < DaysUntil(target, today) <= threshold
    ensures r == Normal <==> DaysUntil(target, today) > 0 && DaysUntil(target, today) > threshold
  {
    if IsOverdue(target, today) then Overdue
    else if IsDueToday(target, today) then DueToday
    else if IsUpcoming(target, today, threshold) then Upcoming
    else Normal
  }

  /** A later date never has an earlier status in the order overdue, due today, upcoming, normal. */
  lemma DateStatusMonotone(a: Date, b: Date, today: Date, threshold: int)
    requires Valid(a) && Valid(b) && Valid(today) && Before(a, b)
    ensures StatusRank(GetDateStatus(a, today, threshold)) <= StatusRank(GetDateStatus(b, today, threshold))
  {
    OrdinalOrder(a, b);
  }

  function StatusRank(s: DateStatus): (r: nat)
  {
    match s
    case Overdue => 0
    case DueToday => 1
    case Upcoming => 2
    case Normal => 3
  }

  // =====================================================================
  // StatisticsCalculator.calculate_stats
  // =====================================================================

  /** One entry of the `platforms` dictionary, in insertion order. */
  datatype PlatformCount = PlatformCount(platform: string, count: nat)

  datatype Stats = Stats(
    total: nat, delivered: nat, pending: int,
    overdue: nat, dueToday: nat, upcoming: nat,
    platforms: seq<PlatformCount>)

  /** `platforms[p] = platforms.get(p, 0) + 1`. */
  function Bump(ps: seq<PlatformCount>, p: string): (r: seq<PlatformCount>)
    ensures |r| == |ps| || r == ps + [PlatformCount(p, 1)]
  {
    if ps == [] then [PlatformCount(p, 1)]
    else if ps[0].platform == p then [ps[0].(count := ps[0].count + 1)] + ps[1..]
    else [ps[0]] + Bump(ps[1..], p)
  }

  /** The dictionary after the loop has seen `orders`. */
  function PlatformCounts(orders: seq<Order>): (r: seq<PlatformCount>)
  {
    if orders == [] then [] else Bump(PlatformCounts(orders[..|orders| - 1]), orders[|orders| - 1].platform)
  }

  function CountDelivered(orders: seq<Order>): (n: nat)
    ensures n <= |orders|
  {
    if orders == [] then 0
    else CountDelivered(orders[..|orders| - 1]) + (if orders[|orders| - 1].isDelivered then 1 else 0)
  }

  /** The date class the loop body assigns to an order, if it assigns one. */
  function DateClass(o: Order, today: Date): (r: Option<DateStatus>)
    requires Valid(today)
    ensures r.Some? ==> !o.isDelivered && ParseDate(o.estimatedDelivery).Some?
  {
    if !o.isDelivered && o.estimatedDelivery != "" then
      match ParseDate(o.estimatedDelivery)
      case None => None
      case Some(d) => Some(GetDateStatus(d, today, 2))
    else None
  }

  function CountClass(orders: seq<Order>, today: Date, c: DateStatus): (n: nat)
    requires Valid(today)
    ensures n <= |orders|
  {
    if orders == [] then 0
    else CountClass(orders[..|orders| - 1], today, c) + (if DateClass(orders[|orders| - 1], today) == Some(c) then 1 else 0)
  }

  /** Undelivered orders whose estimated date parses. */
  function CountDated(orders: seq<Order>): (n: nat)
    ensures n <= |orders|
  {
    if orders == [] then 0
    else
      var o := orders[|orders| - 1];
      CountDated(orders[..|orders| - 1])
      + (if !o.isDelivered && o.estimatedDelivery != "" && ParseDate(o.estimatedDelivery).Some? then 1 else 0)
  }

  /** The date test of the loop body of `calculate_stats`. */
  method ClassifyDate(order: Order, today: Date) returns (status: Option<DateStatus>)
    requires Valid(today)
    ensures status == DateClass(order, today)
  {
    status := None;
    if !order.isDelivered && order.estimatedDelivery != "" {
      var est := ParseDate(order.estimatedDelivery);
      if est.Some? {
        status := Some(GetDateStatus(est.value, today, 2));
      }
    }
  }

  /** `calculate_stats`, without the floating-point delivery rate. */
  method CalculateStats(orders: seq<Order>, today: Date) returns (s: Stats)
    requires Valid(today)
    ensures s.total == |orders| && s.delivered == CountDelivered(orders)
    ensures s.pending == s.total - s.delivered
    ensures s.overdue == CountClass(orders, today, Overdue)
    ensures s.dueToday == CountClass(orders, today, DueToday)
    ensures s.upcoming == CountClass(orders, today, Upcoming)
    ensures s.platforms == PlatformCounts(orders)
  {
    var total := |orders|;
    var delivered := 0;
    for k := 0 to |orders|
      invariant delivered == CountDelivered(orders[..k])
    {
      CountStep(orders, today, k);
      if orders[k].isDelivered {
        delivered := delivered + 1;
      }
    }
    assert orders[..|orders|] == orders;
    var overdue, dueToday, upcoming := 0, 0, 0;
    var platforms: seq<PlatformCount> := [];
    for k := 0 to |orders|
      invariant platforms == PlatformCounts(orders[..k])
      invariant overdue == CountClass(orders[..k], today, Overdue)
      invariant dueToday == CountClass(orders[..k], today, DueToday)
      invariant upcoming == CountClass(orders[..k], today, Upcoming)
    {
      var order := orders[k];
      CountStep(orders, today, k);
      platforms := Bump(platforms, order.platform);
      var status := ClassifyDate(order, today);
      if status == Some(Overdue) {
        overdue := overdue + 1;
      } else if status == Some(DueToday) {
        dueToday := dueToday + 1;
      } else if status == Some(Upcoming) {
        upcoming := upcoming + 1;
      }
    }
    assert orders[..|orders|] == orders;
    s := Stats(total, delivered, total - delivered, overdue, dueToday, upcoming, platforms);
  }

  /** One more order: each counter moves by that order alone. */
  lemma CountStep(orders: seq<Order>, today: Date, k: nat)
    requires Valid(today) && k < |orders|
    ensures CountDelivered(orders[..k + 1]) == CountDelivered(orders[..k]) + (if orders[k].isDelivered then 1 else 0)
    ensures PlatformCounts(orders[..k + 1]) == Bump(PlatformCounts(orders[..k]), orders[k].platform)
    ensures forall c :: CountClass(orders[..k + 1], today, c)
                        == CountClass(orders[..k], today, c) + (if DateClass(orders[k], today) == Some(c) then 1 else 0)
  {
    assert orders[..k + 1][..k] == orders[..k];
  }

  // ---------------------------------------------------------------------
  // Properties of the counters
  // ---------------------------------------------------------------------

  function SumCounts(ps: seq<PlatformCount>): (r: nat)
  {
    if ps == [] then 0 else ps[0].count + SumCounts(ps[1..])
  }

  /** `platforms.get(p, 0)`. */
  function CountOf(ps: seq<PlatformCount>, p: string): (r: nat)
  {
    if ps == [] then 0 else if ps[0].platform == p then ps[0].count else CountOf(ps[1..], p)
  }

  predicate DistinctPlatforms(ps: seq<PlatformCount>)
  {
    forall i, j :: 0 <= i < j < |ps| ==> ps[i].platform != ps[j].platform
  }

  function CountPlatform(orders: seq<Order>, p: string): (r: nat)
  {
    if orders == [] then 0
    else CountPlatform(orders[..|orders| - 1], p) + (if orders[|orders| - 1].platform == p then 1 else 0)
  }

  /** One bump adds one to the total and to the count of `p` only. */
  lemma {:induction false} BumpCounts(ps: seq<PlatformCount>, p: string)
    ensures SumCounts(Bump(ps, p)) == SumCounts(ps) + 1
    ensures forall q :: CountOf(Bump(ps, p), q) == CountOf(ps, q) + (if q == p then 1 else 0)
  {
    if ps != [] && ps[0].platform != p {
      BumpCounts(ps[1..], p);
      assert Bump(ps, p)[1..] == Bump(ps[1..], p);
    } else if ps != [] {
      assert Bump(ps, p)[1..] == ps[1..];
    }
  }

  /** Every entry after a bump names `p` or a platform already present. */
  lemma {:induction false} BumpOrigin(ps: seq<PlatformCount>, p: string)
    ensures forall i :: 0 <= i < |Bump(ps, p)| ==> Bump(ps, p)[i].platform == p || exists j :: 0 <= j < |ps| && ps[j].platform == Bump(ps, p)[i].platform
  {
    if ps != [] && ps[0].platform != p {
      BumpOrigin(ps[1..], p);
      var r := Bump(ps[1..], p);
      assert Bump(ps, p) == [ps[0]] + r;
      forall i | 1 <= i < |Bump(ps, p)| && Bump(ps, p)[i].platform != p
        ensures exists j :: 0 <= j < |ps| && ps[j].platform == Bump(ps, p)[i].platform
      {
        assert Bump(ps, p)[i] == r[i - 1];
        var j :| 0 <= j < |ps[1..]| && ps[1..][j].platform == r[i - 1].platform;
        assert ps[j + 1].platform == Bump(ps, p)[i].platform;
      }
      assert ps[0].platform == Bump(ps, p)[0].platform;
    } else if ps != [] {
      var r := Bump(ps, p);
      assert forall i :: 1 <= i < |r| ==> r[i] == ps[i];
    }
  }

  /** A bump keeps every platform once. */
  lemma {:induction false} BumpDistinct(ps: seq<PlatformCount>, p: string)
    requires DistinctPlatforms(ps)
    ensures DistinctPlatforms(Bump(ps, p))
  {
    if ps != [] && ps[0].platform != p {
      BumpDistinct(ps[1..], p);
      BumpOrigin(ps[1..], p);
      var r := Bump(ps[1..], p);
      forall i | 0 <= i < |r|
        ensures r[i].platform != ps[0].platform
      {
        if r[i].platform != p {
          var j :| 0 <= j < |ps[1..]| && ps[1..][j].platform == r[i].platform;
          assert ps[j + 1] == ps[1..][j];
        }
      }
      var b := Bump(ps, p);
      assert b == [ps[0]] + r;
      forall i, k | 0 <= i < k < |b|
        ensures b[i].platform != b[k].platform
      {
        assert b[k] == r[k - 1];
        if i > 0 {
          assert b[i] == r[i - 1];
        }
      }
    } else if ps != [] {
      var b := Bump(ps, p);
      forall i, k | 0 <= i < k < |b|
        ensures b[i].platform != b[k].platform
      {
        assert b[k] == ps[k];
        assert b[i].platform == ps[i].platform;
      }
    }
  }

  /**
   * The `platforms` dictionary holds each platform once, its count is the
   * number of orders on it, and the counts add up to the total.
   */
  lemma {:induction false} PlatformCountsSumToTotal(orders: seq<Order>)
    ensures DistinctPlatforms(PlatformCounts(orders))
    ensures SumCounts(PlatformCounts(orders)) == |orders|
    ensures forall p :: CountOf(PlatformCounts(orders), p) == CountPlatform(orders, p)
  {
    if orders != [] {
      PlatformCountsSumToTotal(orders[..|orders| - 1]);
      BumpCounts(PlatformCounts(orders[..|orders| - 1]), orders[|orders| - 1].platform);
      BumpDistinct(PlatformCounts(orders[..|orders| - 1]), orders[|orders| - 1].platform);
    }
  }

  /** The date counters never exceed the undelivered orders with a parseable estimated date. */
  lemma {:induction false} DateCountersBounded(orders: seq<Order>, today: Date)
    requires Valid(today)
    ensures CountClass(orders, today, Overdue) + CountClass(orders, today, DueToday)
          + CountClass(orders, today, Upcoming) <= CountDated(orders)
  {
    if orders != [] {
      DateCountersBounded(orders[..|orders| - 1], today);
    }
  }

  /** The stats agree: pending counts the undelivered orders exactly. */
  lemma {:induction false} PendingIsUndelivered(orders: seq<Order>)
    ensures |orders| - CountDelivered(orders) == CountUndelivered(orders)
  {
    if orders != [] {
      PendingIsUndelivered(orders[..|orders| - 1]);
    }
  }

  function CountUndelivered(orders: seq<Order>): (r: nat)
  {
    if orders == [] then 0
    else CountUndelivered(orders[..|orders| - 1]) + (if orders[|orders| - 1].isDelivered then 0 else 1)
  }
}

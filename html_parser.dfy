// html_order_parser.py:98-140, 228-305 and 597-768: recognising the shop
// and the kind of page, reading a date out of a snippet of text, and
// `HtmlOrderParser.parse_with_meta`, which puts the order ids, dates and
// items of one pasted page together into one order dictionary per item.
// The free-form regular expressions (date patterns, delivery and order-date
// phrases, the Amazon shipment-status block, the tracking scan) are inputs
// (`PageScan`); the clock is an input too (`today`, `stamp`).
// The items come from the corrected Amazon extractor (`HtmlItems.AmazonItems`):
// as written, line 338 raises on the image tier (`HtmlItems.AmazonItemsAsWritten`).

module HtmlParser {
  import opened Text
  import opened Dates
  import opened Orders
  import opened HtmlClean
  import opened HtmlItems
  import HtmlOrderIds
  import ImportHtml
  import Database

  // ---------------------------------------------------------------------
  // Platform (html_order_parser.py:98-120)
  // ---------------------------------------------------------------------

  /** `_detect_platform(html_lower)`: the first shop, in this order, whose domain occurs. */
  function DetectPlatform(htmlLower: string): (r: string)
  {
    var s := htmlLower;
    if Contains(s, "amazon.it") || Contains(s, "amazon.com") || Contains(s, "amazon.co") then "Amazon"
    else if Contains(s, "temu.com") || Contains(s, "kwcdn.com") then "Temu"
    else if Contains(s, "ebay.it") || Contains(s, "ebay.com") then "eBay"
    else if Contains(s, "aliexpress") || Contains(s, "alicdn.com") || Contains(s, "ae01.alicdn") then "AliExpress"
    else if Contains(s, "shein.com") then "Shein"
    else if Contains(s, "zalando.it") || Contains(s, "zalando.com") then "Zalando"
    else if Contains(s, "mediaworld.it") then "MediaWorld"
    else if Contains(s, "unieuro.it") then "Unieuro"
    else if Contains(s, "vinted.it") || Contains(s, "vinted.com") then "Vinted"
    else if Contains(s, "subito.it") then "Subito.it"
    else "Altro"
  }

  /** The shops and their markers, as a table in priority order. */
  const PlatformMarkers: seq<(string, seq<string>)> := [
    ("Amazon", ["amazon.it", "amazon.com", "amazon.co"]),
    ("Temu", ["temu.com", "kwcdn.com"]),
    ("eBay", ["ebay.it", "ebay.com"]),
    ("AliExpress", ["aliexpress", "alicdn.com", "ae01.alicdn"]),
    ("Shein", ["shein.com"]),
    ("Zalando", ["zalando.it", "zalando.com"]),
    ("MediaWorld", ["mediaworld.it"]),
    ("Unieuro", ["unieuro.it"]),
    ("Vinted", ["vinted.it", "vinted.com"]),
    ("Subito.it", ["subito.it"])
  ]

  /** Reference reading of a priority table: the first entry from `i` on with a marker in `s`, else "Altro". */
  function FirstMarked(table: seq<(string, seq<string>)>, s: string, i: nat): (r: string)
    decreases |table| - i
  {
    if i >= |table| then "Altro"
    else if ContainsAny(s, table[i].1) then table[i].0
    else FirstMarked(table, s, i + 1)
  }

  /**
   * The table reading names the first entry with a marker, and "Altro"
   * exactly when no entry has one.
   */
  lemma {:induction false} FirstMarkedSpec(table: seq<(string, seq<string>)>, s: string, i: nat)
    requires forall k :: 0 <= k < |table| ==> table[k].0 != "Altro"
    ensures var r := FirstMarked(table, s, i);
      (r == "Altro" <==> forall k :: i <= k < |table| ==> !ContainsAny(s, table[k].1))
      && (r != "Altro" ==>
            exists k :: i <= k < |table| && r == table[k].0 && ContainsAny(s, table[k].1)
                        && forall j :: i <= j < k ==> !ContainsAny(s, table[j].1))
    decreases |table| - i
  {
    if i < |table| && !ContainsAny(s, table[i].1) {
      FirstMarkedSpec(table, s, i + 1);
    }
  }

  lemma AnyOfOne(s: string, a: string)
    ensures ContainsAny(s, [a]) <==> Contains(s, a)
  {
    if Contains(s, a) {
      assert a in [a];
    }
  }

  lemma AnyOfTwo(s: string, a: string, b: string)
    ensures ContainsAny(s, [a, b]) <==> Contains(s, a) || Contains(s, b)
  {
    if Contains(s, a) {
      assert a in [a, b];
    } else if Contains(s, b) {
      assert b in [a, b];
    }
  }

  lemma AnyOfThree(s: string, a: string, b: string, c: string)
    ensures ContainsAny(s, [a, b, c]) <==> Contains(s, a) || Contains(s, b) || Contains(s, c)
  {
    if Contains(s, a) {
      assert a in [a, b, c];
    } else if Contains(s, b) {
      assert b in [a, b, c];
    } else if Contains(s, c) {
      assert c in [a, b, c];
    }
  }

  /** The first five rows of the table, read as the if-chain reads them. */
  lemma TableHead(s: string)
    ensures FirstMarked(PlatformMarkers, s, 0) ==
      if Contains(s, "amazon.it") || Contains(s, "amazon.com") || Contains(s, "amazon.co") then "Amazon"
      else if Contains(s, "temu.com") || Contains(s, "kwcdn.com") then "Temu"
      else if Contains(s, "ebay.it") || Contains(s, "ebay.com") then "eBay"
      else if Contains(s, "aliexpress") || Contains(s, "alicdn.com") || Contains(s, "ae01.alicdn") then "AliExpress"
      else if Contains(s, "shein.com") then "Shein"
      else FirstMarked(PlatformMarkers, s, 5)
  {
    var t := PlatformMarkers;
    AnyOfThree(s, "amazon.it", "amazon.com", "amazon.co");
    AnyOfTwo(s, "temu.com", "kwcdn.com");
    AnyOfTwo(s, "ebay.it", "ebay.com");
    AnyOfThree(s, "aliexpress", "alicdn.com", "ae01.alicdn");
    AnyOfOne(s, "shein.com");
    assert t[0] == ("Amazon", ["amazon.it", "amazon.com", "amazon.co"]);
    assert t[1] == ("Temu", ["temu.com", "kwcdn.com"]);
    assert t[2] == ("eBay", ["ebay.it", "ebay.com"]);
    assert t[3] == ("AliExpress", ["aliexpress", "alicdn.com", "ae01.alicdn"]);
    assert t[4] == ("Shein", ["shein.com"]);
  }

  /** The last five rows of the table, read as the if-chain reads them. */
  lemma TableTail(s: string)
    ensures FirstMarked(PlatformMarkers, s, 5) ==
      if Contains(s, "zalando.it") || Contains(s, "zalando.com") then "Zalando"
      else if Contains(s, "mediaworld.it") then "MediaWorld"
      else if Contains(s, "unieuro.it") then "Unieuro"
      else if Contains(s, "vinted.it") || Contains(s, "vinted.com") then "Vinted"
      else if Contains(s, "subito.it") then "Subito.it"
      else "Altro"
  {
    var t := PlatformMarkers;
    AnyOfTwo(s, "zalando.it", "zalando.com");
    AnyOfOne(s, "mediaworld.it");
    AnyOfOne(s, "unieuro.it");
    AnyOfTwo(s, "vinted.it", "vinted.com");
    AnyOfOne(s, "subito.it");
    assert t[5] == ("Zalando", ["zalando.it", "zalando.com"]);
    assert t[6] == ("MediaWorld", ["mediaworld.it"]);
    assert t[7] == ("Unieuro", ["unieuro.it"]);
    assert t[8] == ("Vinted", ["vinted.it", "vinted.com"]);
    assert t[9] == ("Subito.it", ["subito.it"]);
  }

  /**
   * The detected shop is the first of the table, in priority order, whose
   * marker occurs in the page; "Altro" exactly when no marker occurs.
   */
  lemma DetectPlatformSpec(s: string)
    ensures var r := DetectPlatform(s);
      (r == "Altro" <==> forall i :: 0 <= i < |PlatformMarkers| ==> !ContainsAny(s, PlatformMarkers[i].1))
      && (r != "Altro" ==>
            exists i :: 0 <= i < |PlatformMarkers| && r == PlatformMarkers[i].0
                        && ContainsAny(s, PlatformMarkers[i].1)
                        && forall j :: 0 <= j < i ==> !ContainsAny(s, PlatformMarkers[j].1))
  {
    TableHead(s);
    TableTail(s);
    assert DetectPlatform(s) == FirstMarked(PlatformMarkers, s, 0);
    FirstMarkedSpec(PlatformMarkers, s, 0);
  }

  // ---------------------------------------------------------------------
  // Page type (html_order_parser.py:123-140)
  // ---------------------------------------------------------------------

  /** `_detect_page_type(html, platform)`: "list", "detail" or "unknown". */
  function DetectPageType(html: string, platform: string): (r: string)
  {
    var l := Lower(html);
    if platform == "Temu" && (Contains(l, "bgt_order_detail") || Contains(l, "order_detail")) then "detail"
    else if platform == "Temu" && Contains(l, "bgt_orders") && !Contains(l, "bgt_order_detail") then "list"
    else if platform == "Amazon" && (Contains(l, "order-details") || Contains(l, "orderdetails")) then "detail"
    else if platform == "Amazon" && (Contains(l, "your-orders") || Contains(l, "order-history")) then "list"
    else "unknown"
  }

  /** A text that holds `p` holds every piece of `p`. */
  lemma ContainsPiece(s: string, p: string, off: nat, q: string)
    requires off + |q| <= |p| && p[off..off + |q|] == q
    ensures Contains(s, p) ==> Contains(s, q)
  {
    if Contains(s, p) {
      var i := ContainsWitness(s, p);
      assert s[i + off..i + off + |q|] == q by {
        forall k | 0 <= k < |q|
          ensures s[i + off + k] == q[k]
        {
          assert s[i..i + |p|][off + k] == s[i + off + k];
        }
      }
      ContainsAt(s, q, i + off);
    }
  }

  /**
   * Only Temu and Amazon pages are ever told apart. A Temu page is a detail
   * page exactly when it mentions `order_detail` (so the extra
   * `bgt_order_detail` tests decide nothing) and a list page exactly when it
   * mentions `bgt_orders` but not that; an Amazon page is a detail page when
   * it mentions its detail markers and a list page when, without them, it
   * mentions its list markers.
   */
  lemma DetectPageTypeSpec(html: string, platform: string)
    ensures var r := DetectPageType(html, platform);
      var l := Lower(html);
      var amazonDetail := Contains(l, "order-details") || Contains(l, "orderdetails");
      (r == "list" || r == "detail" || r == "unknown")
      && (platform != "Temu" && platform != "Amazon" ==> r == "unknown")
      && (platform == "Temu" ==>
            (r == "detail" <==> Contains(l, "order_detail"))
            && (r == "list" <==> !Contains(l, "order_detail") && Contains(l, "bgt_orders")))
      && (platform == "Amazon" ==>
            (r == "detail" <==> amazonDetail)
            && (r == "list" <==> !amazonDetail && (Contains(l, "your-orders") || Contains(l, "order-history"))))
  {
    ContainsPiece(Lower(html), "bgt_order_detail", 4, "order_detail");
  }

  // ---------------------------------------------------------------------
  // Status (html_order_parser.py:228-233)
  // ---------------------------------------------------------------------

  /** `_extract_status`: every pasted page starts as waiting, whatever its text says. */
  function ExtractStatus(textLower: string): (r: string)
    ensures r == "In Attesa"
  {
    "In Attesa"
  }

  // ---------------------------------------------------------------------
  // Dates (html_order_parser.py:50-64, 236-305)
  // ---------------------------------------------------------------------

  /** `MONTH_MAP`: the Italian and English month names and abbreviations. */
  const MonthMap: map<string, int> := map[
    "gen" := 1, "feb" := 2, "mar" := 3, "apr" := 4, "mag" := 5, "giu" := 6,
    "lug" := 7, "ago" := 8, "set" := 9, "sett" := 9, "ott" := 10, "nov" := 11, "dic" := 12,
    "gennaio" := 1, "febbraio" := 2, "marzo" := 3, "aprile" := 4, "maggio" := 5,
    "giugno" := 6, "luglio" := 7, "agosto" := 8, "settembre" := 9, "ottobre" := 10,
    "novembre" := 11, "dicembre" := 12,
    "jan" := 1, "may" := 5, "jun" := 6, "jul" := 7, "aug" := 8, "sep" := 9, "oct" := 10, "dec" := 12,
    "january" := 1, "february" := 2, "march" := 3, "april" := 4, "june" := 6,
    "july" := 7, "august" := 8, "september" := 9, "october" := 10, "november" := 11,
    "december" := 12]

  /** `MONTH_MAP.get(word)`. */
  function MonthNumber(word: string): (r: Option<int>)
  {
    if word in MonthMap then Some(MonthMap[word]) else None
  }

  /** The first match of a pattern with a month word: the day, the word, the year if given. */
  datatype WordMatch = WordMatch(day: nat, month: string, year: Option<nat>)

  /** The first match of a numeric pattern: its three numbers and the digit count of the last. */
  datatype NumMatch = NumMatch(first: nat, second: nat, third: nat, thirdDigits: nat)

  /**
   * What the five `re.search` calls of `_extract_date` find in one text: the
   * first match of "12 gennaio 2025", of "Jan 12, 2025", of dd/mm/yy(yy), of
   * yyyy/mm/dd and of yyyy-mm-dd, if any.
   */
  datatype DateScan = DateScan(
    dayMonth: Option<WordMatch>,
    monthDay: Option<WordMatch>,
    dmy: Option<NumMatch>,
    ymd: Option<NumMatch>,
    iso: Option<NumMatch>)

  /** `date(y, m, d)`, or nothing where it raises `ValueError`. */
  function MakeDate(y: int, m: int, d: int): (r: Option<Date>)
    ensures r.Some? ==> Valid(r.value) && r.value == Date(y, m, d)
    ensures r.None? ==> !Valid(Date(y, m, d))
  {
    if Valid(Date(y, m, d)) then Some(Date(y, m, d)) else None
  }

  /** A month-word match: a known month, a day of at most 31, the current year when none is given. */
  function FromWords(w: Option<WordMatch>, currentYear: int): (r: Option<Date>)
  {
    match w
    case None => None
    case Some(wm) =>
      var month := MonthNumber(Lower(wm.month));
      var year := match wm.year case Some(y) => y case None => currentYear;
      if month.Some? && 1 <= wm.day <= 31 then MakeDate(year, month.value, wm.day) else None
  }

  /** dd/mm/yy(yy): a two-digit year is taken in the 2000s. */
  function FromDmy(n: Option<NumMatch>): (r: Option<Date>)
  {
    match n
    case None => None
    case Some(x) => MakeDate(if x.thirdDigits == 2 then x.third + 2000 else x.third, x.second, x.first)
  }

  /** yyyy/mm/dd and yyyy-mm-dd. */
  function FromYmd(n: Option<NumMatch>): (r: Option<Date>)
  {
    match n
    case None => None
    case Some(x) => MakeDate(x.first, x.second, x.third)
  }

  /** The date of each pattern in the order `_extract_date` tries them. */
  function PatternDates(s: DateScan, currentYear: int): (r: seq<Option<Date>>)
    ensures |r| == 5
  {
    [FromWords(s.dayMonth, currentYear), FromWords(s.monthDay, currentYear),
     FromDmy(s.dmy), FromYmd(s.ymd), FromYmd(s.iso)]
  }

  /** The date `_extract_date` settles on: the first pattern whose match is a real date. */
  function DateIn(s: DateScan, currentYear: int): (r: Option<Date>)
    ensures r.Some? ==> Valid(r.value)
  {
    var p1 := FromWords(s.dayMonth, currentYear);
    if p1.Some? then p1
    else
      var p2 := FromWords(s.monthDay, currentYear);
      if p2.Some? then p2
      else
        var p3 := FromDmy(s.dmy);
        if p3.Some? then p3
        else
          var p4 := FromYmd(s.ymd);
          if p4.Some? then p4 else FromYmd(s.iso)
  }

  /** `_extract_date(text)`, given what its patterns find in `text`. */
  function ExtractDate(s: DateScan, currentYear: int): (r: Option<string>)
  {
    match DateIn(s, currentYear)
    case Some(d) => Some(IsoFormat(d))
    case None => None
  }

  /**
   * The date chosen is the one of the first pattern that yields a real date;
   * none is chosen exactly when no pattern does.
   */
  lemma DateInFirst(s: DateScan, currentYear: int)
    ensures var r := DateIn(s, currentYear);
      var ps := PatternDates(s, currentYear);
      (r.None? <==> forall k :: 0 <= k < 5 ==> ps[k].None?)
      && (r.Some? ==> exists k :: 0 <= k < 5 && ps[k] == r && forall j :: 0 <= j < k ==> ps[j].None?)
  {
    var ps := PatternDates(s, currentYear);
    var r := DateIn(s, currentYear);
    if ps[0].Some? {
      assert ps[0] == r;
    } else if ps[1].Some? {
      assert ps[1] == r;
    } else if ps[2].Some? {
      assert ps[2] == r;
    } else if ps[3].Some? {
      assert ps[3] == r;
    } else if ps[4].Some? {
      assert ps[4] == r;
    }
  }

  /** What `_extract_date` returns reads back, as ISO, to the date it chose. */
  lemma ExtractDateReadable(s: DateScan, currentYear: int)
    ensures ExtractDate(s, currentYear).Some? <==> DateIn(s, currentYear).Some?
    ensures ExtractDate(s, currentYear).Some? ==>
      ParseIsoDate(ExtractDate(s, currentYear).value) == DateIn(s, currentYear)
  {
    if DateIn(s, currentYear).Some? {
      IsoRoundTrip(DateIn(s, currentYear).value);
    }
  }

  /** "5 marzo" with no year is the fifth of March of the current year. */
  lemma WordDateInCurrentYear(s: DateScan, currentYear: int, day: nat, word: string, month: int)
    requires s.dayMonth == Some(WordMatch(day, word, None))
    requires MonthNumber(Lower(word)) == Some(month) && Valid(Date(currentYear, month, day))
    ensures DateIn(s, currentYear) == Some(Date(currentYear, month, day))
  {
  }

  /** "05/03/25": a two-digit year is read as 2025, once the word patterns have found nothing. */
  lemma TwoDigitYear(s: DateScan, currentYear: int, d: nat, mo: nat, yy: nat)
    requires FromWords(s.dayMonth, currentYear).None? && FromWords(s.monthDay, currentYear).None?
    requires s.dmy == Some(NumMatch(d, mo, yy, 2)) && Valid(Date(2000 + yy, mo, d))
    ensures DateIn(s, currentYear) == Some(Date(2000 + yy, mo, d))
  {
  }

  /** "31 febbraio 2025" is no date: the `ValueError` is swallowed and the next pattern is tried. */
  lemma ImpossibleDateSkipped(s: DateScan, currentYear: int)
    requires s.dayMonth == Some(WordMatch(31, "febbraio", Some(2025)))
    ensures DateIn(s, currentYear) == DateIn(s.(dayMonth := None), currentYear)
  {
    assert Lower("febbraio") == "febbraio";
    assert MonthNumber("febbraio") == Some(2);
    assert !Valid(Date(2025, 2, 31));
  }

  // ---------------------------------------------------------------------
  // parse_with_meta (html_order_parser.py:597-768)
  // ---------------------------------------------------------------------

  /**
   * What the regular expressions of `parse_with_meta` and the helpers it
   * calls find in one page:
   *  - `items`: the matches the item extractors use;
   *  - `genericIds`: the groups of the fallback order-id pattern in the text;
   *  - `tracking`, `carrier`: the result of `_extract_tracking`;
   *  - `amazonStatus`: the heading inside `data-component="shipmentStatus"`;
   *  - `deliveryPhrases`, `orderPhrases`: the text after each delivery-date
   *    and order-date phrase pattern that matched, in pattern order;
   *  - `dates`: what the patterns of `_extract_date` find in a text.
   */
  datatype PageScan = PageScan(
    items: Matches,
    genericIds: seq<string>,
    tracking: Option<string>,
    carrier: Option<string>,
    amazonStatus: Option<string>,
    deliveryPhrases: seq<string>,
    orderPhrases: seq<string>,
    dates: string -> DateScan)

  /** The dictionary `parse_with_meta` returns. */
  datatype ParseResult = ParseResult(orders: seq<OrderData>, platform: string, pageType: string, warning: Option<string>)

  const TemuListHint :=
    "Hai incollato la pagina LISTA ordini di Temu.\n\n"
    + "I dati degli ordini vengono caricati dinamicamente e non sono nel sorgente HTML.\n\n"
    + "\U{1F449} Come procedere:\n"
    + "1. Vai su temu.com \U{2192} I tuoi ordini\n"
    + "2. Clicca su un singolo ordine per aprire il DETTAGLIO\n"
    + "3. Usa Ctrl+U (o tasto destro \U{2192} Visualizza sorgente pagina)\n"
    + "4. Copia tutto il sorgente e incollalo qui"

  const AmazonListHint :=
    "Hai incollato la pagina LISTA ordini di Amazon.\n\n"
    + "\U{1F449} Come procedere:\n"
    + "1. Vai su amazon.it \U{2192} I miei ordini\n"
    + "2. Clicca su 'Dettagli ordine' per un singolo ordine\n"
    + "3. Usa Ctrl+U per visualizzare il sorgente\n"
    + "4. Copia tutto il sorgente e incollalo qui"

  /** `platform_hints.get(platform, <default message>)`. */
  function ListWarning(platform: string): (r: string)
  {
    if platform == "Temu" then TemuListHint
    else if platform == "Amazon" then AmazonListHint
    else "Hai incollato una pagina LISTA ordini di " + platform + ".\n"
         + "Incolla invece il sorgente della pagina DETTAGLIO di un singolo ordine."
  }

  /** The items of the extractor for the page's shop. */
  function ItemsFor(platform: string, text: string, html: string, m: Matches): (r: seq<Item>)
  {
    if platform == "Amazon" then AmazonItems(text, html, m)
    else if platform == "Temu" then TemuItems(html, m)
    else if platform == "AliExpress" then AliItems(html, m)
    else GenericItems(text, html, m)
  }

  /** Every extractor returns at least one item. */
  lemma ItemsForNonEmpty(platform: string, text: string, html: string, m: Matches)
    ensures |ItemsFor(platform, text, html, m)| >= 1
  {
    if platform == "Amazon" {
      AmazonItemsSpec(text, html, m);
    } else if platform == "Temu" {
      TemuItemsSpec(html, m);
    } else if platform == "AliExpress" {
      AliItemsSpec(html, m);
    } else {
      GenericItemsSpec(text, html, m);
    }
  }

  /** The first value found, if any. */
  function FirstFound<T>(found: seq<Option<T>>): (r: Option<T>)
  {
    if found == [] then None
    else if found[0].Some? then found[0]
    else FirstFound(found[1..])
  }

  /**
   * The first value found is the first entry that holds one; nothing is
   * found exactly when no entry holds a value.
   */
  lemma {:induction false} FirstFoundSpec<T>(found: seq<Option<T>>)
    ensures var r := FirstFound(found);
      (r.None? <==> forall k :: 0 <= k < |found| ==> found[k].None?)
      && (r.Some? ==> exists k :: 0 <= k < |found| && r == found[k] && forall j :: 0 <= j < k ==> found[j].None?)
    decreases |found|
  {
    if found != [] && found[0].None? {
      var rest := found[1..];
      FirstFoundSpec(rest);
      var r := FirstFound(rest);
      if r.Some? {
        var k :| 0 <= k < |rest| && r == rest[k] && forall j :: 0 <= j < k ==> rest[j].None?;
        assert found[k + 1] == rest[k];
        assert forall j :: 0 < j < k + 1 ==> found[j] == rest[j - 1];
      } else {
        assert forall j :: 0 < j < |found| ==> found[j] == rest[j - 1];
      }
    }
  }

  /** What `_extract_date` reads in each of `texts`. */
  function DatesOf(texts: seq<string>, dates: string -> DateScan, currentYear: int): (r: seq<Option<string>>)
    ensures |r| == |texts|
  {
    seq(|texts|, k requires 0 <= k < |texts| => ExtractDate(dates(texts[k]), currentYear))
  }

  /** The first of `texts` holding a date, as `_extract_date` reads it. */
  function FirstDate(texts: seq<string>, dates: string -> DateScan, currentYear: int): (r: Option<string>)
  {
    FirstFound(DatesOf(texts, dates, currentYear))
  }

  /** `for phrase_p in ...: ... if est_delivery: break`. */
  method DateFromPhrases(texts: seq<string>, dates: string -> DateScan, currentYear: int) returns (r: Option<string>)
    ensures r == FirstDate(texts, dates, currentYear)
  {
    ghost var found := DatesOf(texts, dates, currentYear);
    r := None;
    var i := 0;
    while i < |texts|
      invariant 0 <= i <= |texts|
      invariant FirstFound(found) == FirstFound(found[i..])
      invariant r.None?
    {
      assert found[i..][1..] == found[i + 1..];
      r := ExtractDate(dates(texts[i]), currentYear);
      if r.Some? {
        return;
      }
      i := i + 1;
    }
  }

  /** The heading of the Amazon shipment-status block, cleaned and trimmed; "" elsewhere. */
  function AmazonStatusText(platform: string, scan: PageScan): (r: string)
  {
    if platform == "Amazon" && scan.amazonStatus.Some? then Strip(CleanedText(scan.amazonStatus.value)) else ""
  }

  /** The estimated delivery: the Amazon status heading's date, else the delivery phrases'. */
  function EstimatedDelivery(platform: string, scan: PageScan, currentYear: int): (r: Option<string>)
  {
    var status := AmazonStatusText(platform, scan);
    var fromStatus := if platform == "Amazon" && status != [] then ExtractDate(scan.dates(status), currentYear) else None;
    if fromStatus.Some? then fromStatus else FirstDate(scan.deliveryPhrases, scan.dates, currentYear)
  }

  /** The order date: the order-date phrases', else, on AliExpress only, the first date in the text. */
  function OrderDateFound(platform: string, text: string, scan: PageScan, currentYear: int): (r: Option<string>)
  {
    var od := FirstDate(scan.orderPhrases, scan.dates, currentYear);
    if od.None? && platform == "AliExpress" then ExtractDate(scan.dates(text), currentYear) else od
  }

  /** What every order of one page shares. */
  datatype Shared = Shared(
    platform: string,
    ids: seq<string>,
    tracking: string,
    carrier: string,
    status: string,
    estimated: string,
    orderDate: string,
    stamp: string)

  /** `order_ids[i] if i < len(order_ids) else primary_order_id`. */
  function SiteIdFor(ids: seq<string>, i: nat): (r: string)
  {
    if i < |ids| then ids[i] else if ids != [] then ids[0] else ""
  }

  /** The `notes` text: the shop, the extractor's source tag ("Unknown" when absent), the import time. */
  function ImportNote(platform: string, source: Option<string>, stamp: string): (r: string)
  {
    "[" + platform + "] [Source: " + GetOr(source, "Unknown") + "] [Importato il " + stamp + "]"
  }

  /** The dictionary built for item `i`. */
  function OrderFor(item: Item, i: nat, sh: Shared): (r: OrderData)
  {
    OrderData(
      orderDate := Some(sh.orderDate),
      platform := Some(sh.platform),
      seller := Some(item.seller),
      destination := Some(""),
      description := Some(item.description),
      link := Some(""),
      quantity := Some(item.quantity),
      estimatedDelivery := Some(sh.estimated),
      alarmEnabled := Some(true),
      isDelivered := Some(sh.status == "Consegnato"),
      position := Some(""),
      notes := Some(ImportNote(sh.platform, item.source, sh.stamp)),
      category := Some(""),
      lastEmailId := None,
      lastSyncAt := None,
      trackingNumber := Some(sh.tracking),
      carrier := Some(sh.carrier),
      lastMileCarrier := Some(""),
      siteOrderId := Some(SiteIdFor(sh.ids, i)),
      status := Some(sh.status),
      price := None,
      imageUrl := None)
  }

  /** One dictionary per item, in item order. */
  function Rows(items: seq<Item>, sh: Shared): (r: seq<OrderData>)
    ensures |r| == |items|
  {
    seq(|items|, i requires 0 <= i < |items| => OrderFor(items[i], i, sh))
  }

  /** The results loop of `parse_with_meta`. */
  method BuildOrders(items: seq<Item>, sh: Shared) returns (results: seq<OrderData>)
    ensures results == Rows(items, sh)
  {
    results := [];
    for i := 0 to |items|
      invariant |results| == i
      invariant forall k :: 0 <= k < i ==> results[k] == OrderFor(items[k], k, sh)
    {
      results := results + [OrderFor(items[i], i, sh)];
    }
  }

  /** What the detail path shares among the page's orders. */
  function SharedFor(html: string, text: string, platform: string, scan: PageScan, today: Date, stamp: string): (r: Shared)
    requires Valid(today)
  {
    var ids := HtmlOrderIds.ExtractOrderIds(text, platform, html, scan.genericIds);
    var est := EstimatedDelivery(platform, scan, today.year);
    var orderDate := OrderDateFound(platform, text, scan, today.year);
    Shared(platform, ids, GetOr(scan.tracking, ""), GetOr(scan.carrier, ""), "In Attesa",
           GetOr(est, ""), GetOr(orderDate, IsoFormat(today)), stamp)
  }

  /** `parse_with_meta(html)`, with `today` and `stamp` the clock's date and `%d/%m/%Y %H:%M` time. */
  function ParseMeta(html: string, scan: PageScan, today: Date, stamp: string): (r: ParseResult)
    requires Valid(today)
  {
    if Strip(html) == [] then ParseResult([], "Sconosciuto", "unknown", None)
    else
      var platform := DetectPlatform(Lower(html));
      var pageType := DetectPageType(html, platform);
      var text := CleanedText(html);
      if pageType == "list" then ParseResult([], platform, pageType, Some(ListWarning(platform)))
      else
        var items := ItemsFor(platform, text, html, scan.items);
        ParseResult(Rows(items, SharedFor(html, text, platform, scan, today, stamp)), platform, pageType, None)
  }

  /** The dispatch on the shop in `parse_with_meta`. */
  method ExtractItems(platform: string, text: string, html: string, m: Matches) returns (items: seq<Item>)
    ensures items == ItemsFor(platform, text, html, m)
  {
    if platform == "Amazon" {
      items := ExtractItemsAmazon(text, html, m);
    } else if platform == "Temu" {
      items := ExtractItemsTemu(html, m);
    } else if platform == "AliExpress" {
      items := ExtractItemsAliExpress(html, m);
    } else {
      items := ExtractItemsGeneric(text, html, m);
    }
  }

  /** Order ids, tracking, status and the two dates of a detail page. */
  method PageFacts(html: string, text: string, platform: string, scan: PageScan, today: Date, stamp: string)
    returns (sh: Shared)
    requires Valid(today)
    ensures sh == SharedFor(html, text, platform, scan, today, stamp)
  {
    var ids := HtmlOrderIds.ExtractOrderIds(text, platform, html, scan.genericIds);
    var status := "In Attesa";
    var statusText := "";
    if platform == "Amazon" && scan.amazonStatus.Some? {
      var cleaned := CleanHtml(scan.amazonStatus.value);
      statusText := Strip(cleaned);
    }
    assert statusText == AmazonStatusText(platform, scan);
    var est: Option<string> := None;
    if platform == "Amazon" && statusText != [] {
      est := ExtractDate(scan.dates(statusText), today.year);
    }
    if est.None? {
      est := DateFromPhrases(scan.deliveryPhrases, scan.dates, today.year);
    }
    assert est == EstimatedDelivery(platform, scan, today.year);
    var orderDate := DateFromPhrases(scan.orderPhrases, scan.dates, today.year);
    if orderDate.None? && platform == "AliExpress" {
      orderDate := ExtractDate(scan.dates(text), today.year);
    }
    assert orderDate == OrderDateFound(platform, text, scan, today.year);
    sh := Shared(platform, ids, GetOr(scan.tracking, ""), GetOr(scan.carrier, ""), status,
                 GetOr(est, ""), GetOr(orderDate, IsoFormat(today)), stamp);
  }

  /** `HtmlOrderParser.parse_with_meta`. */
  method ParseWithMeta(html: string, scan: PageScan, today: Date, stamp: string) returns (r: ParseResult)
    requires Valid(today)
    ensures r == ParseMeta(html, scan, today, stamp)
  {
    if Strip(html) == [] {
      return ParseResult([], "Sconosciuto", "unknown", None);
    }
    var platform := DetectPlatform(Lower(html));
    var pageType := DetectPageType(html, platform);
    var text := CleanHtml(html);
    if pageType == "list" {
      return ParseResult([], platform, pageType, Some(ListWarning(platform)));
    }
    var sh := PageFacts(html, text, platform, scan, today, stamp);
    var items := ExtractItems(platform, text, html, scan.items);
    var orders := BuildOrders(items, sh);
    r := ParseResult(orders, platform, pageType, None);
  }

  /** `HtmlOrderParser.parse`: the orders of `parse_with_meta`. */
  method Parse(html: string, scan: PageScan, today: Date, stamp: string) returns (orders: seq<OrderData>)
    requires Valid(today)
    ensures orders == ParseMeta(html, scan, today, stamp).orders
  {
    var r := ParseWithMeta(html, scan, today, stamp);
    orders := r.orders;
  }

  // ---------------------------------------------------------------------
  // What parse_with_meta promises
  // ---------------------------------------------------------------------

  /** A blank paste yields nothing, an unknown shop and no warning. */
  lemma BlankPage(html: string, scan: PageScan, today: Date, stamp: string)
    requires Valid(today) && Strip(html) == []
    ensures ParseMeta(html, scan, today, stamp) == ParseResult([], "Sconosciuto", "unknown", None)
  {
  }

  /**
   * A list page yields no orders and a warning; only Temu and Amazon pages
   * are ever list pages, so the warning is always one of their two hints.
   */
  lemma ListPage(html: string, scan: PageScan, today: Date, stamp: string)
    requires Valid(today) && Strip(html) != []
    requires DetectPageType(html, DetectPlatform(Lower(html))) == "list"
    ensures var r := ParseMeta(html, scan, today, stamp);
      r.orders == [] && r.pageType == "list"
      && (r.platform == "Temu" || r.platform == "Amazon")
      && r.warning == Some(if r.platform == "Temu" then TemuListHint else AmazonListHint)
  {
    DetectPageTypeSpec(html, DetectPlatform(Lower(html)));
  }

  /** A date field of a parsed order: "" or an ISO date the program reads back. */
  predicate IsoOrBlank(v: Option<string>)
  {
    v == Some("") || (v.Some? && ParseIsoDate(v.value).Some?)
  }

  /** Every date the page yields, and today's, is a readable ISO date. */
  lemma SharedDatesReadable(html: string, text: string, platform: string, scan: PageScan, today: Date, stamp: string)
    requires Valid(today)
    ensures var sh := SharedFor(html, text, platform, scan, today, stamp);
      ParseIsoDate(sh.orderDate).Some? && (sh.estimated == "" || ParseIsoDate(sh.estimated).Some?)
  {
    var cy := today.year;
    IsoRoundTrip(today);
    FirstDateReadable(scan.orderPhrases, scan.dates, cy);
    FirstDateReadable(scan.deliveryPhrases, scan.dates, cy);
    ExtractDateReadable(scan.dates(text), cy);
    var status := AmazonStatusText(platform, scan);
    ExtractDateReadable(scan.dates(status), cy);
  }

  /** A date found by the phrase loop is a readable ISO date. */
  lemma FirstDateReadable(texts: seq<string>, dates: string -> DateScan, currentYear: int)
    ensures FirstDate(texts, dates, currentYear).Some? ==>
      ParseIsoDate(FirstDate(texts, dates, currentYear).value).Some?
  {
    var found := DatesOf(texts, dates, currentYear);
    FirstFoundSpec(found);
    if FirstFound(found).Some? {
      var k :| 0 <= k < |found| && FirstFound(found) == found[k];
      ExtractDateReadable(dates(texts[k]), currentYear);
    }
  }

  /** Each dictionary carries the page's shared values and its own item's. */
  lemma RowsFields(items: seq<Item>, sh: Shared, k: nat)
    requires k < |items|
    ensures var d := Rows(items, sh)[k];
      HasRequiredKeys(d)
      && d.platform == Some(sh.platform) && d.status == Some(sh.status)
      && d.isDelivered == Some(sh.status == "Consegnato") && d.alarmEnabled == Some(true)
      && d.description == Some(items[k].description) && d.quantity == Some(items[k].quantity)
      && d.seller == Some(items[k].seller) && d.siteOrderId == Some(SiteIdFor(sh.ids, k))
      && d.estimatedDelivery == Some(sh.estimated) && d.orderDate == Some(sh.orderDate)
  {
  }

  /** The orders of a page that is neither blank nor a list page. */
  lemma DetailOrders(html: string, scan: PageScan, today: Date, stamp: string)
    requires Valid(today) && Strip(html) != []
    requires DetectPageType(html, DetectPlatform(Lower(html))) != "list"
    ensures var platform := DetectPlatform(Lower(html));
      var text := CleanedText(html);
      ParseMeta(html, scan, today, stamp)
        == ParseResult(Rows(ItemsFor(platform, text, html, scan.items), SharedFor(html, text, platform, scan, today, stamp)),
                       platform, DetectPageType(html, platform), None)
  {
  }

  /**
   * A page that is neither blank nor a list page yields one order per
   * extracted item, at least one, with no warning. Each order has the
   * keys `add_order` needs, the page's shop, the status "In Attesa", is not
   * delivered, has its alarm on, carries its item's description, quantity
   * and seller, the order id of its position (the first id past the last,
   * "" when there is none), and readable ISO dates.
   */
  lemma DetailPage(html: string, scan: PageScan, today: Date, stamp: string)
    requires Valid(today) && Strip(html) != []
    requires DetectPageType(html, DetectPlatform(Lower(html))) != "list"
    ensures var r := ParseMeta(html, scan, today, stamp);
      var text := CleanedText(html);
      var items := ItemsFor(r.platform, text, html, scan.items);
      var ids := HtmlOrderIds.ExtractOrderIds(text, r.platform, html, scan.genericIds);
      r.warning == None && r.platform == DetectPlatform(Lower(html))
      && |r.orders| == |items| >= 1
      && forall k :: 0 <= k < |r.orders| ==>
           HasRequiredKeys(r.orders[k])
           && r.orders[k].platform == Some(r.platform)
           && r.orders[k].status == Some("In Attesa")
           && r.orders[k].isDelivered == Some(false)
           && r.orders[k].alarmEnabled == Some(true)
           && r.orders[k].description == Some(items[k].description)
           && r.orders[k].quantity == Some(items[k].quantity)
           && r.orders[k].seller == Some(items[k].seller)
           && r.orders[k].siteOrderId == Some(if k < |ids| then ids[k] else if ids != [] then ids[0] else "")
           && IsoOrBlank(r.orders[k].estimatedDelivery)
           && r.orders[k].orderDate.Some? && ParseIsoDate(r.orders[k].orderDate.value).Some?
  {
    var platform := DetectPlatform(Lower(html));
    var text := CleanedText(html);
    var items := ItemsFor(platform, text, html, scan.items);
    var sh := SharedFor(html, text, platform, scan, today, stamp);
    var r := ParseMeta(html, scan, today, stamp);
    DetailOrders(html, scan, today, stamp);
    assert r.orders == Rows(items, sh) && r.platform == platform == sh.platform;
    assert sh.ids == HtmlOrderIds.ExtractOrderIds(text, r.platform, html, scan.genericIds);
    assert sh.status == "In Attesa";
    ItemsForNonEmpty(platform, text, html, scan.items);
    SharedDatesReadable(html, text, platform, scan, today, stamp);
    PageRows(items, sh);
  }

  /** The rows built from the page's items and shared values, when those values are well formed. */
  lemma PageRows(items: seq<Item>, sh: Shared)
    requires sh.status == "In Attesa"
    requires ParseIsoDate(sh.orderDate).Some? && (sh.estimated == "" || ParseIsoDate(sh.estimated).Some?)
    ensures var rows := Rows(items, sh);
      forall k :: 0 <= k < |rows| ==>
           HasRequiredKeys(rows[k])
           && rows[k].platform == Some(sh.platform)
           && rows[k].status == Some("In Attesa")
           && rows[k].isDelivered == Some(false)
           && rows[k].alarmEnabled == Some(true)
           && rows[k].description == Some(items[k].description)
           && rows[k].quantity == Some(items[k].quantity)
           && rows[k].seller == Some(items[k].seller)
           && rows[k].siteOrderId == Some(if k < |sh.ids| then sh.ids[k] else if sh.ids != [] then sh.ids[0] else "")
           && IsoOrBlank(rows[k].estimatedDelivery)
           && rows[k].orderDate.Some? && ParseIsoDate(rows[k].orderDate.value).Some?
  {
    var rows := Rows(items, sh);
    forall k | 0 <= k < |rows|
      ensures HasRequiredKeys(rows[k])
           && rows[k].platform == Some(sh.platform)
           && rows[k].status == Some("In Attesa")
           && rows[k].isDelivered == Some(false)
           && rows[k].alarmEnabled == Some(true)
           && rows[k].description == Some(items[k].description)
           && rows[k].quantity == Some(items[k].quantity)
           && rows[k].seller == Some(items[k].seller)
           && rows[k].siteOrderId == Some(if k < |sh.ids| then sh.ids[k] else if sh.ids != [] then sh.ids[0] else "")
           && IsoOrBlank(rows[k].estimatedDelivery)
           && rows[k].orderDate.Some? && ParseIsoDate(rows[k].orderDate.value).Some?
    {
      RowsFields(items, sh, k);
    }
  }

  /**
   * While there are ids enough, the orders of one page get pairwise
   * different order ids, because the ids extracted have no duplicates.
   */
  lemma DistinctSiteIds(html: string, scan: PageScan, today: Date, stamp: string)
    requires Valid(today) && Strip(html) != []
    requires DetectPageType(html, DetectPlatform(Lower(html))) != "list"
    ensures var r := ParseMeta(html, scan, today, stamp);
      var ids := HtmlOrderIds.ExtractOrderIds(CleanedText(html), r.platform, html, scan.genericIds);
      forall i, j :: 0 <= i < j < |r.orders| && j < |ids| ==> r.orders[i].siteOrderId != r.orders[j].siteOrderId
  {
    var platform := DetectPlatform(Lower(html));
    var text := CleanedText(html);
    DetailPage(html, scan, today, stamp);
    HtmlOrderIds.ExtractOrderIdsSpec(text, platform, html, scan.genericIds);
  }

  /**
   * Handed to the import dialog, every selected row of a parsed page is
   * added to the table: none is skipped for a missing key.
   */
  lemma ParsedRowsAllImported(t: Database.Table, html: string, scan: PageScan, today: Date, stamp: string, sel: seq<nat>)
    requires Valid(today)
    ensures var orders := ParseMeta(html, scan, today, stamp).orders;
      ImportHtml.ImportAll(t, orders, sel).2 == 0
      && ImportHtml.ImportAll(t, orders, sel).1 == |ImportHtml.InRange(sel, |orders|)|
  {
    var orders := ParseMeta(html, scan, today, stamp).orders;
    if Strip(html) != [] && DetectPageType(html, DetectPlatform(Lower(html))) != "list" {
      DetailPage(html, scan, today, stamp);
    }
    ImportHtml.ImportAllComplete(t, orders, sel);
  }
}

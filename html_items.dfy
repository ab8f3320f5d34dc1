// html_order_parser.py:308-591: the per-platform item extractors. Each walks
// the texts its regular expressions find, keeps the acceptable ones not seen
// before, fills in seller and quantity, and falls back to a single
// "(da completare)" placeholder. The free-form expressions themselves are
// inputs (`Matches`); everything done with what they find is modelled.

module HtmlItems {
  import opened Text
  import opened HtmlClean

  /** An extracted article: `description`, `quantity`, `seller` and the optional `debug_source`. */
  datatype Item = Item(description: string, quantity: int, seller: string, source: Option<string>)

  /** How a call ends: with a value, or with a Python exception. */
  datatype Outcome<T> = Returned(value: T) | Raised(error: string)

  /** The free-form regular expressions of the extractors. */
  datatype Pattern =
    | AmazonTitle        // data-component="itemTitle"[^>]*>.*?<a[^>]*>(.*?)</a>
    | AmazonImageAlt     // data-component="itemImage"[^>]*>.*?<img[^>]+alt=["']([^"'<>]{10,250})["']
    | AmazonSeller       // (?:venduto\s+da|sold\s+by|venditore)[:\s]+([^\n<]{2,60})
    | AmazonQuantity     // (?:quantit[àa]|qty|q\.t[àa]\.?|pz\.?)[:\s]*(\d+)
    | TemuGoodsName      // class="[^"]*goods-name[^"]*"[^>]*>([^<]{10,150})<
    | TemuItemTitle      // class="[^"]*item-title[^"]*"[^>]*>([^<]{10,150})<
    | TemuProductTitle   // class="[^"]*product-title[^"]*"[^>]*>([^<]{10,150})<
    | TemuAlt            // alt=["']([^"'<>]{10,120})["']
    | AliProductName     // "(?:product|goods)Name"\s*:\s*"([^"]{10,250})"
    | AliName            // "name"\s*:\s*"([^"]{20,250})"
    | AliPlTitle         // data-pl="product-title"[^>]*>([^<]{10,250})<
    | AliClassTitle      // class="[^"]*(?:product-name|item-title|...)[^"]*"[^>]*>([^<]{10,250})<
    | AliLinkTitle       // <a[^>]*title=["']([^"'<>]{20,250})["']
    | AliImageAlt        // <img[^>]*alt=["']([^"'<>]{20,250})["']
    | AliQuantity        // (?:quantit[àa]|qty|q\.t[àa])[:\s]*(\d+)
    | GenericClassTitle  // class="[^"]*(?:product[_-]?name|...)[^"]*"[^>]*>([^<]{5,150})<
    | GenericHeading     // <h[1-4][^>]*>([^<]{10,120})</h[1-4]>
    | GenericSeller      // (?:venduto\s+da|sold\s+by|venditore|seller)[:\s]+([^\n<]{2,60})

  /** One `{...}` object of a Temu goods list: its name group and its quantity group. */
  datatype TemuObject = TemuObject(name: Option<string>, quantity: Option<nat>)

  /** A Temu goods-list block: the 100 characters around it and its objects. */
  datatype TemuBlock = TemuBlock(context: string, objects: seq<TemuObject>)

  /** What the free-form expressions find in a page. */
  datatype Matches = Matches(
    groups: (Pattern, string) -> seq<string>,  // group 1 of every match, in order
    number: (Pattern, string) -> Option<nat>,  // int(group 1) of the first match
    temuBlocks: seq<TemuBlock>,                // goods lists, both patterns, in order
    temuIdAt: Option<nat>)                     // start of \bPO-\d{3}-\d{10,25}\b in the page

  /** Group 1 of the first match, as `re.search` gives it. */
  function First(m: Matches, p: Pattern, s: string): (r: Option<string>)
    ensures r.Some? <==> m.groups(p, s) != []
  {
    var gs := m.groups(p, s);
    if gs == [] then None else Some(gs[0])
  }

  /** `d in seen_descriptions`, where the seen descriptions are those of `items`. */
  predicate Seen(items: seq<Item>, d: string)
  {
    exists k :: 0 <= k < |items| && items[k].description == d
  }

  /** No two items share a description. */
  predicate DistinctDescriptions(items: seq<Item>)
  {
    forall i, j :: 0 <= i < j < |items| ==> items[i].description != items[j].description
  }

  lemma SeenSnoc(items: seq<Item>, c: Item, d: string)
    ensures Seen(items + [c], d) <==> Seen(items, d) || d == c.description
  {
    var r := items + [c];
    if Seen(items, d) {
      var k :| 0 <= k < |items| && items[k].description == d;
      assert r[k] == items[k];
    }
    if Seen(r, d) && d != c.description {
      var k :| 0 <= k < |r| && r[k].description == d;
      assert k < |items| && items[k] == r[k];
    }
    assert r[|items|] == c;
  }

  // ---------------------------------------------------------------------
  // The shared loop: keep acceptable, unseen descriptions, up to a limit
  // ---------------------------------------------------------------------

  /**
   * The items a `seen_descriptions` loop keeps from `cands`: an acceptable
   * candidate whose description has not been kept yet is appended, and the
   * loop stops once `limit` items are kept.
   */
  function Kept(cands: seq<Item>, ok: string -> bool, limit: nat): (r: seq<Item>)
  {
    if cands == [] then []
    else
      var prev := Kept(cands[..|cands| - 1], ok, limit);
      var c := cands[|cands| - 1];
      if |prev| < limit && ok(c.description) && !Seen(prev, c.description)
      then prev + [c] else prev
  }

  /**
   * The kept items are candidates, acceptable, with pairwise different
   * descriptions and at most `limit` of them.
   */
  lemma {:induction false} KeptSound(cands: seq<Item>, ok: string -> bool, limit: nat)
    ensures var r := Kept(cands, ok, limit);
      |r| <= limit && |r| <= |cands|
      && DistinctDescriptions(r)
      && (forall k :: 0 <= k < |r| ==> r[k] in cands && ok(r[k].description))
  {
    if cands != [] {
      var n := |cands| - 1;
      var init := cands[..n];
      var c := cands[n];
      KeptSound(init, ok, limit);
      var prev := Kept(init, ok, limit);
      var r := Kept(cands, ok, limit);
      forall k | 0 <= k < |prev|
        ensures prev[k] in cands
      {
        var i :| 0 <= i < |init| && init[i] == prev[k];
        assert cands[i] == prev[k];
      }
      if r != prev {
        assert r == prev + [c];
        forall k | 0 <= k < |prev|
          ensures r[k] == prev[k] && r[k].description != c.description
        {
        }
      }
    }
  }

  /**
   * While the limit is not reached, or when it cannot be, no acceptable
   * description is missed.
   */
  lemma {:induction false} KeptComplete(cands: seq<Item>, ok: string -> bool, limit: nat)
    ensures var r := Kept(cands, ok, limit);
      |r| < limit || |cands| <= limit ==>
        forall j :: 0 <= j < |cands| && ok(cands[j].description) ==> Seen(r, cands[j].description)
  {
    var r := Kept(cands, ok, limit);
    if cands != [] && (|r| < limit || |cands| <= limit) {
      var n := |cands| - 1;
      var init := cands[..n];
      var c := cands[n];
      KeptSound(init, ok, limit);
      KeptComplete(init, ok, limit);
      var prev := Kept(init, ok, limit);
      assert |prev| <= |r|;
      forall d | Seen(prev, d)
        ensures Seen(r, d)
      {
        if r != prev {
          SeenSnoc(prev, c, d);
        }
      }
      if r != prev {
        SeenSnoc(prev, c, c.description);
      }
      forall j | 0 <= j < |cands| && ok(cands[j].description)
        ensures Seen(r, cands[j].description)
      {
        if j < n {
          assert init[j] == cands[j];
        }
      }
    }
  }

  /** Once `limit` items are kept, the rest of the candidates changes nothing. */
  lemma {:induction false} KeptStops(cands: seq<Item>, ok: string -> bool, limit: nat, i: nat)
    requires i <= |cands| && |Kept(cands[..i], ok, limit)| >= limit
    ensures Kept(cands, ok, limit) == Kept(cands[..i], ok, limit)
    decreases |cands| - i
  {
    if i < |cands| {
      var init := cands[..|cands| - 1];
      assert init[..i] == cands[..i];
      KeptStops(init, ok, limit, i);
    } else {
      assert cands[..i] == cands;
    }
  }

  /** The first acceptable candidate is always kept first. */
  lemma {:induction false} KeptHead(cands: seq<Item>, ok: string -> bool, limit: nat)
    requires |cands| > 0 && ok(cands[0].description) && limit > 0
    ensures |Kept(cands, ok, limit)| > 0 && Kept(cands, ok, limit)[0] == cands[0]
  {
    if |cands| > 1 {
      var init := cands[..|cands| - 1];
      KeptHead(init, ok, limit);
      assert init[0] == cands[0];
    } else {
      assert cands[..0] == [];
    }
  }

  /** The `for ... in ...: if ok and not in seen: append; add to seen` loop. */
  method KeepDistinct(cands: seq<Item>, ok: string -> bool, limit: nat) returns (items: seq<Item>)
    ensures items == Kept(cands, ok, limit)
  {
    items := [];
    var seen: set<string> := {};
    var i := 0;
    while i < |cands|
      invariant i <= |cands|
      invariant items == Kept(cands[..i], ok, limit)
      invariant forall d :: d in seen <==> Seen(items, d)
    {
      var c := cands[i];
      assert cands[..i + 1][..i] == cands[..i];
      if |items| >= limit {
        KeptStops(cands, ok, limit, i);
        return;
      }
      if ok(c.description) && c.description !in seen {
        forall d | true
          ensures d in seen + {c.description} <==> Seen(items + [c], d)
        {
          SeenSnoc(items, c, d);
        }
        items := items + [c];
        seen := seen + {c.description};
      }
      i := i + 1;
    }
    assert cands[..i] == cands;
  }

  // ---------------------------------------------------------------------
  // Filtering loops and in-place updates of the items
  // ---------------------------------------------------------------------

  /** The candidates `ok` accepts, in order. */
  function Filter<T>(xs: seq<T>, ok: T -> bool): (r: seq<T>)
  {
    if xs == [] then []
    else Filter(xs[..|xs| - 1], ok) + (if ok(xs[|xs| - 1]) then [xs[|xs| - 1]] else [])
  }

  /** An element is kept exactly when it is a candidate that `ok` accepts. */
  lemma {:induction false} FilterSpec<T>(xs: seq<T>, ok: T -> bool)
    ensures |Filter(xs, ok)| <= |xs|
    ensures forall k :: 0 <= k < |Filter(xs, ok)| ==> Filter(xs, ok)[k] in xs && ok(Filter(xs, ok)[k])
    ensures forall j :: 0 <= j < |xs| && ok(xs[j]) ==> xs[j] in Filter(xs, ok)
  {
    if xs != [] {
      var init := xs[..|xs| - 1];
      FilterSpec(init, ok);
      assert xs == init + [xs[|xs| - 1]];
    }
  }

  /** A loop appending every accepted candidate. */
  method Collect<T>(xs: seq<T>, ok: T -> bool) returns (r: seq<T>)
    ensures r == Filter(xs, ok)
  {
    r := [];
    var i := 0;
    while i < |xs|
      invariant i <= |xs| && r == Filter(xs[..i], ok)
    {
      assert xs[..i + 1][..i] == xs[..i];
      if ok(xs[i]) {
        r := r + [xs[i]];
      }
      i := i + 1;
    }
    assert xs[..i] == xs;
  }

  /**
   * `for item in items: item['seller'] = seller`, only where the seller is
   * still empty unless `overwrite` is set.
   */
  method FillSeller(items: seq<Item>, seller: string, overwrite: bool) returns (r: seq<Item>)
    ensures |r| == |items|
    ensures forall k :: 0 <= k < |items| ==>
      r[k] == (if overwrite || items[k].seller == "" then items[k].(seller := seller) else items[k])
  {
    r := items;
    var k := 0;
    while k < |r|
      invariant k <= |r| == |items|
      invariant forall j :: 0 <= j < k ==>
        r[j] == (if overwrite || items[j].seller == "" then items[j].(seller := seller) else items[j])
      invariant r[k..] == items[k..]
    {
      assert r[k] == items[k..][0];
      if overwrite || r[k].seller == "" {
        r := r[k := r[k].(seller := seller)];
      }
      k := k + 1;
    }
  }

  /** Every item with its quantity replaced. */
  function WithQuantity(items: seq<Item>, qty: int): (r: seq<Item>)
  {
    seq(|items|, k requires 0 <= k < |items| => items[k].(quantity := qty))
  }

  /** `for item in items: item['quantity'] = qty`. */
  method SetQuantity(items: seq<Item>, qty: int) returns (r: seq<Item>)
    ensures |r| == |items| && forall k :: 0 <= k < |items| ==> r[k] == items[k].(quantity := qty)
    ensures r == WithQuantity(items, qty)
  {
    r := items;
    var k := 0;
    while k < |r|
      invariant k <= |r| == |items|
      invariant forall j :: 0 <= j < k ==> r[j] == items[j].(quantity := qty)
      invariant r[k..] == items[k..]
    {
      assert r[k] == items[k..][0];
      r := r[k := r[k].(quantity := qty)];
      k := k + 1;
    }
  }

  /**
   * The Amazon quantity loop: each item whose own description mentions a
   * quantity takes that number; the others keep theirs.
   */
  method QuantitiesFromDescriptions(items: seq<Item>, m: Matches) returns (r: seq<Item>)
    ensures |r| == |items|
    ensures forall k :: 0 <= k < |items| ==>
      r[k] == match m.number(AmazonQuantity, items[k].description)
              case Some(q) => items[k].(quantity := q)
              case None => items[k]
  {
    r := items;
    var k := 0;
    while k < |r|
      invariant k <= |r| == |items|
      invariant forall j :: 0 <= j < k ==>
        r[j] == match m.number(AmazonQuantity, items[j].description)
                case Some(q) => items[j].(quantity := q)
                case None => items[j]
      invariant r[k..] == items[k..]
    {
      assert r[k] == items[k..][0];
      var q := m.number(AmazonQuantity, r[k].description);
      if q.Some? {
        r := r[k := r[k].(quantity := q.value)];
      }
      k := k + 1;
    }
  }

  /** The seller group of the first match, trimmed, or `''`. */
  function SellerIn(m: Matches, p: Pattern, text: string): (r: string)
  {
    match First(m, p, text)
    case Some(g) => Strip(g)
    case None => ""
  }

  /** An item with quantity 1 for every text. */
  function AsItems(texts: seq<string>, seller: string): (r: seq<Item>)
    ensures |r| == |texts|
    ensures forall k :: 0 <= k < |texts| ==> r[k] == Item(texts[k], 1, seller, None)
  {
    seq(|texts|, k requires 0 <= k < |texts| => Item(texts[k], 1, seller, None))
  }

  /** `s.strip()` of every text. */
  function Stripped(texts: seq<string>): (r: seq<string>)
    ensures |r| == |texts| && forall k :: 0 <= k < |texts| ==> r[k] == Strip(texts[k])
  {
    seq(|texts|, k requires 0 <= k < |texts| => Strip(texts[k]))
  }

  /** `[l.strip() for l in text.split('\n') if l.strip()]`. */
  function NonBlankLines(text: string): (r: seq<string>)
  {
    Filter(Stripped(Split(text, "\n")), NonEmpty)
  }

  // ---------------------------------------------------------------------
  // Amazon (html_order_parser.py:308-375)
  // ---------------------------------------------------------------------

  const AmazonNoise: seq<string> := ["mio account", "miei ordini", "accedi", " prime"]

  const AmazonSkipWords: seq<string> :=
    ["accedi", "account", "carrello", "ordini", "resi", "aiuto", "cerca", "amazon", "prime",
     "offerte", "copyright", "privacy", "condizioni", "cookie", "pubblicità", "preferenze"]

  /** `re.match(r'^[\d\s€.,/-]+$', s)`: made only of digits, spaces and price punctuation. */
  predicate AmazonNumeric(s: string)
  {
    |s| > 0 && forall i :: 0 <= i < |s| ==>
      IsDigit(s[i]) || IsSpace(s[i]) || s[i] in {'€', '.', ',', '/', '-'}
  }

  predicate AmazonTitleOk(t: string)
  {
    |t| > 10 && !ContainsAny(Lower(t), AmazonNoise)
  }

  predicate NonEmpty(t: string)
  {
    t != []
  }

  predicate AmazonLineOk(l: string)
  {
    15 < |l| < 200 && !AmazonNumeric(l) && !ContainsAny(Lower(l), AmazonSkipWords)
  }

  /** `_clean_html(title).strip()` of every title match. */
  function AmazonTitles(html: string, m: Matches): (r: seq<Item>)
  {
    var gs := m.groups(AmazonTitle, html);
    AsItems(seq(|gs|, k requires 0 <= k < |gs| => Strip(CleanedText(gs[k]))), "")
  }

  /** The image alt texts with the eight entities of `_clean_html` decoded, trimmed. */
  function AmazonAlts(html: string, m: Matches): (r: seq<Item>)
    ensures |r| == |m.groups(AmazonImageAlt, html)|
    ensures forall k :: 0 <= k < |r| ==>
      r[k] == Item(Strip(DecodeUpTo(m.groups(AmazonImageAlt, html)[k], 8)), 1, "", None)
  {
    var gs := m.groups(AmazonImageAlt, html);
    AsItems(seq(|gs|, k requires 0 <= k < |gs| => Strip(DecodeUpTo(gs[k], 8))), "")
  }

  /** The plausible lines of the text (the third tier's candidates). */
  function AmazonLines(text: string): (r: seq<Item>)
  {
    AsItems(NonBlankLines(text), "")
  }

  /** The three tiers: titles, else image alt texts, else at most five plausible lines. */
  function AmazonTiers(text: string, html: string, m: Matches): (r: seq<Item>)
  {
    var titles := AmazonTitles(html, m);
    var t1 := Kept(titles, AmazonTitleOk, |titles|);
    if t1 != [] then t1
    else
      var alts := AmazonAlts(html, m);
      var t2 := Kept(alts, NonEmpty, |alts|);
      if t2 != [] then t2
      else Kept(AmazonLines(text), AmazonLineOk, 5)
  }

  /** The found items have different descriptions and no seller yet. */
  lemma AmazonTiersSpec(text: string, html: string, m: Matches)
    ensures var t := AmazonTiers(text, html, m);
      DistinctDescriptions(t) && forall k :: 0 <= k < |t| ==> t[k].seller == "" && t[k].quantity == 1
  {
    var titles := AmazonTitles(html, m);
    var alts := AmazonAlts(html, m);
    var lines := AmazonLines(text);
    KeptFresh(titles, AmazonTitleOk, |titles|);
    KeptFresh(alts, NonEmpty, |alts|);
    KeptFresh(lines, AmazonLineOk, 5);
  }

  /** Kept from fresh items (no seller, quantity 1), the items stay fresh and distinct. */
  lemma KeptFresh(cands: seq<Item>, ok: string -> bool, limit: nat)
    requires forall k :: 0 <= k < |cands| ==> cands[k].seller == "" && cands[k].quantity == 1
    ensures var r := Kept(cands, ok, limit);
      DistinctDescriptions(r) && forall k :: 0 <= k < |r| ==> r[k].seller == "" && r[k].quantity == 1
  {
    KeptSound(cands, ok, limit);
  }

  /** The seller and quantity updates of one found item. */
  function AmazonFinish(it: Item, seller: string, m: Matches): (r: Item)
  {
    var withSeller := if it.seller == "" then it.(seller := seller) else it;
    match m.number(AmazonQuantity, it.description)
    case Some(q) => withSeller.(quantity := q)
    case None => withSeller
  }

  const AmazonPlaceholder := "Articolo Amazon (da completare)"

  /** `_extract_items_amazon`, with the image alt texts decoded as intended. */
  function AmazonItems(text: string, html: string, m: Matches): (r: seq<Item>)
  {
    var items := AmazonTiers(text, html, m);
    var seller := SellerIn(m, AmazonSeller, text);
    if items == [] then [Item(AmazonPlaceholder, 1, seller, None)]
    else seq(|items|, k requires 0 <= k < |items| => AmazonFinish(items[k], seller, m))
  }

  method ExtractItemsAmazon(text: string, html: string, m: Matches) returns (items: seq<Item>)
    ensures items == AmazonItems(text, html, m)
  {
    items := AmazonFound(text, html, m);
    var seller := SellerIn(m, AmazonSeller, text);
    if items == [] {
      items := [Item(AmazonPlaceholder, 1, seller, None)];
    } else {
      var found := items;
      items := FillSeller(items, seller, false);
      items := QuantitiesFromDescriptions(items, m);
      assert forall k :: 0 <= k < |found| ==> items[k] == AmazonFinish(found[k], seller, m);
    }
  }

  /** The three tiers' loops. */
  method AmazonFound(text: string, html: string, m: Matches) returns (items: seq<Item>)
    ensures items == AmazonTiers(text, html, m)
  {
    var titles := AmazonTitles(html, m);
    items := KeepDistinct(titles, AmazonTitleOk, |titles|);
    if items == [] {
      var alts := AmazonAlts(html, m);
      items := KeepDistinct(alts, NonEmpty, |alts|);
      if items == [] {
        var lines := Collect(Stripped(Split(text, "\n")), NonEmpty);
        items := KeepDistinct(AsItems(lines, ""), AmazonLineOk, 5);
      }
    }
  }

  /**
   * `_extract_items_amazon` as written: line 338 calls `html.unescape` on the
   * string parameter `html`, which has no such attribute, so the image-alt
   * tier raises as soon as it has a text to decode.
   */
  function AmazonItemsAsWritten(text: string, html: string, m: Matches): (r: Outcome<seq<Item>>)
    ensures r.Returned? ==> r.value == AmazonItems(text, html, m)
  {
    var titles := AmazonTitles(html, m);
    if Kept(titles, AmazonTitleOk, |titles|) == [] && m.groups(AmazonImageAlt, html) != []
    then Raised("AttributeError: 'str' object has no attribute 'unescape'")
    else Returned(AmazonItems(text, html, m))
  }

  /** A text without `&` holds no entity. */
  lemma {:induction false} NoAmpNoEntity(s: string, p: string)
    requires |p| > 0 && p[0] == '&' && !HasChar(s, '&')
    ensures !Contains(s, p)
    decreases |s|
  {
    if |s| > 0 {
      assert s[0] != '&';
      assert !HasChar(s[1..], '&') by {
        forall i | 0 <= i < |s[1..]|
          ensures s[1..][i] != '&'
        {
          assert s[1..][i] == s[i + 1];
        }
      }
      NoAmpNoEntity(s[1..], p);
    }
  }

  /** A text without `&` is left alone by entity decoding. */
  lemma {:induction false} NoAmpDecodesToItself(s: string, n: nat)
    requires n <= |Entities| && !HasChar(s, '&')
    ensures DecodeUpTo(s, n) == s
  {
    if n > 0 {
      NoAmpDecodesToItself(s, n - 1);
      EntityTable();
      NoAmpNoEntity(s, Entities[n - 1].0);
    }
  }

  /**
   * With the alt texts decoded, the image tier yields the decoded, trimmed
   * alt texts instead of raising: when no title qualifies, every non-blank
   * alt text becomes an item.
   */
  lemma AmazonAltsKept(text: string, html: string, m: Matches, j: nat)
    requires Kept(AmazonTitles(html, m), AmazonTitleOk, |AmazonTitles(html, m)|) == []
    requires j < |m.groups(AmazonImageAlt, html)|
    requires Strip(DecodeUpTo(m.groups(AmazonImageAlt, html)[j], 8)) != []
    ensures Seen(AmazonItems(text, html, m), Strip(DecodeUpTo(m.groups(AmazonImageAlt, html)[j], 8)))
  {
    var alts := AmazonAlts(html, m);
    KeptComplete(alts, NonEmpty, |alts|);
    var t2 := Kept(alts, NonEmpty, |alts|);
    var d := alts[j].description;
    assert Seen(t2, d);
    assert AmazonTiers(text, html, m) == t2;
    AmazonItemsSpec(text, html, m);
    var k :| 0 <= k < |t2| && t2[k].description == d;
    assert AmazonItems(text, html, m)[k].description == d;
  }

  /**
   * A page with no title component and one product image: the code as
   * written raises, while the corrected extractor returns the alt text.
   */
  lemma AmazonAltRaises(html: string, m: Matches)
    requires m.groups(AmazonTitle, html) == [] && m.groups(AmazonImageAlt, html) == ["Zaino nero"]
    ensures AmazonItemsAsWritten("", html, m).Raised?
    ensures Seen(AmazonItems("", html, m), "Zaino nero")
  {
    assert AmazonTitles(html, m) == [];
    var alt := "Zaino nero";
    assert !HasChar(alt, '&');
    AltTextKept(html, m, alt);
  }

  /** An alt text with no `&` and no surrounding blanks becomes an item unchanged. */
  lemma AltTextKept(html: string, m: Matches, alt: string)
    requires m.groups(AmazonTitle, html) == [] && m.groups(AmazonImageAlt, html) == [alt]
    requires alt != [] && !IsSpace(alt[0]) && !IsSpace(alt[|alt| - 1]) && !HasChar(alt, '&')
    ensures Seen(AmazonItems("", html, m), alt)
  {
    NoAmpDecodesToItself(alt, 8);
    StripNoop(alt);
    assert AmazonTitles(html, m) == [];
    AmazonAltsKept("", html, m, 0);
  }

  /**
   * Amazon items: never an empty list; the placeholder (quantity 1, the
   * seller found) exactly when no tier found anything; otherwise the found
   * items in order, with their descriptions, pairwise different, and the
   * seller found in the text on every one.
   */
  lemma AmazonItemsSpec(text: string, html: string, m: Matches)
    ensures var r := AmazonItems(text, html, m);
      var found := AmazonTiers(text, html, m);
      var seller := SellerIn(m, AmazonSeller, text);
      |r| > 0
      && (found == [] ==> r == [Item(AmazonPlaceholder, 1, seller, None)])
      && (found != [] ==>
            |r| == |found| && DistinctDescriptions(r)
            && forall k :: 0 <= k < |r| ==> r[k].description == found[k].description && r[k].seller == seller)
  {
    AmazonTiersSpec(text, html, m);
  }

  // ---------------------------------------------------------------------
  // Temu (html_order_parser.py:378-464)
  // ---------------------------------------------------------------------

  const TemuBlockNoise: seq<string> :=
    ["suggest", "recommend", "rec_list", "recently", "visti", "piacere", "recent_view"]

  const TemuNameNoise: seq<string> := ["privacy", "cookie", "copyright", "javascript", "localeswitch"]

  const TemuNavNoise: seq<string> :=
    ["home", "cart", "search", "back", "temu", "logo", "help", "account", "sign in"]

  /**
   * The item a goods-list object describes: its trimmed name (the name group
   * excludes `\`, so the two `replace` calls change nothing) and its
   * quantity, 1 when absent.
   */
  function TemuObjectItem(o: TemuObject): (r: Item)
    ensures r.seller == "Temu"
  {
    var name := match o.name case Some(n) => Strip(n) case None => "";
    Item(name, match o.quantity case Some(q) => q case None => 1, "Temu", None)
  }

  /** The objects of the blocks whose surroundings carry no recommendation marker. */
  function TemuObjectItems(blocks: seq<TemuBlock>): (r: seq<Item>)
    ensures forall k :: 0 <= k < |r| ==> r[k].seller == "Temu"
  {
    if blocks == [] then []
    else
      var b := blocks[0];
      (if ContainsAny(Lower(b.context), TemuBlockNoise) then []
       else seq(|b.objects|, k requires 0 <= k < |b.objects| => TemuObjectItem(b.objects[k])))
      + TemuObjectItems(blocks[1..])
  }

  predicate TemuNameOk(name: string)
  {
    name != [] && !ContainsAny(Lower(name), TemuNameNoise)
  }

  predicate TemuDomOk(t: string)
  {
    |t| > 10 && !ContainsAny(Lower(t), TemuNavNoise)
  }

  /** `s[a:b]` with Python's clamping of out-of-range bounds. */
  function Slice(s: string, a: nat, b: nat): (r: string)
    ensures |r| <= |s|
  {
    var lo := if a > |s| then |s| else a;
    var hi := if b > |s| then |s| else if b < lo then lo else b;
    s[lo..hi]
  }

  /** The items of the four DOM patterns, in pattern order, trimmed. */
  function TemuDomItems(html: string, m: Matches): (r: seq<Item>)
    ensures forall k :: 0 <= k < |r| ==> r[k].seller == "Temu" && r[k].quantity == 1
  {
    var start := match m.temuIdAt case Some(i) => i case None => 0;
    var area := Slice(html, start, start + 200000);
    AsItems(Stripped(m.groups(TemuGoodsName, area) + m.groups(TemuItemTitle, area)
                     + m.groups(TemuProductTitle, area) + m.groups(TemuAlt, area)), "Temu")
  }

  /** The goods-list items, else the DOM items. */
  function TemuFound(html: string, m: Matches): (r: seq<Item>)
  {
    var objs := TemuObjectItems(m.temuBlocks);
    var items := Kept(objs, TemuNameOk, |objs|);
    if items != [] then items
    else
      var dom := TemuDomItems(html, m);
      Kept(dom, TemuDomOk, |dom|)
  }

  const TemuPlaceholder := "Articolo Temu (da completare)"

  /** `_extract_items_temu`. */
  function TemuItems(html: string, m: Matches): (r: seq<Item>)
  {
    var found := TemuFound(html, m);
    if found != [] then found else [Item(TemuPlaceholder, 1, "Temu", None)]
  }

  method ExtractItemsTemu(html: string, m: Matches) returns (items: seq<Item>)
    ensures items == TemuItems(html, m)
  {
    var objs := TemuObjectItems(m.temuBlocks);
    items := KeepDistinct(objs, TemuNameOk, |objs|);
    if |items| < 1 {
      var dom := TemuDomItems(html, m);
      items := KeepDistinct(dom, TemuDomOk, |dom|);
    }
    if items == [] {
      items := [Item(TemuPlaceholder, 1, "Temu", None)];
    }
  }

  /**
   * Temu items found: pairwise different descriptions, all sold by Temu;
   * either goods-list objects free of the page-noise words, or, when there
   * is none, DOM texts longer than ten characters free of the navigation
   * words, with quantity 1.
   */
  lemma TemuFoundSpec(html: string, m: Matches)
    ensures var f := TemuFound(html, m);
      var objs := TemuObjectItems(m.temuBlocks);
      DistinctDescriptions(f)
      && forall k :: 0 <= k < |f| ==>
           f[k].seller == "Temu"
           && ((f[k] in objs && TemuNameOk(f[k].description))
               || (f[k].quantity == 1 && TemuDomOk(f[k].description)))
  {
    var objs := TemuObjectItems(m.temuBlocks);
    var dom := TemuDomItems(html, m);
    KeptSound(objs, TemuNameOk, |objs|);
    KeptSound(dom, TemuDomOk, |dom|);
  }

  /** Temu items: never an empty list; the placeholder exactly when nothing was found. */
  lemma TemuItemsSpec(html: string, m: Matches)
    ensures var r := TemuItems(html, m);
      var f := TemuFound(html, m);
      |r| > 0
      && (f == [] ==> r == [Item(TemuPlaceholder, 1, "Temu", None)])
      && (f != [] ==> r == f)
  {
  }

  // ---------------------------------------------------------------------
  // AliExpress (html_order_parser.py:467-561)
  // ---------------------------------------------------------------------

  const StopWords: seq<string> :=
    ["più da amare", "more to love", "consigliati per te", "recommended for you",
     "visti di recente", "recently viewed", "prodotti sponsorizzati", "might also like"]

  const AliBlacklist: seq<string> :=
    ["aiuto", "account", "registrati", "carrello", "lista", "privacy", "copyright",
     "assistenza", "supporto", "shipping", "payment", "order detail", "checkout",
     "aliexpress", "customer service", "store name", "contact seller", "dettagli",
     "riepilogo", "totale", "iva", "metodo di pagamento", "spedizione", "indirizzo",
     "impostazioni", "notifiche", "messaggi", "coupon", "monete", "centro"]

  /**
   * The stop-word loop: for the first stop word (in list order) that occurs
   * anywhere in the lower-cased page, cut the page before its first
   * occurrence.
   */
  function CutAtStop(html: string, words: seq<string>): (r: string)
  {
    if words == [] then html
    else if words[0] == [] then []
    else
      match FindFrom(Lower(html), words[0], 0)
      case Some(i) => html[..i]
      case None => CutAtStop(html, words[1..])
  }

  lemma NotContainsFromFind(s: string, p: string)
    requires |p| > 0 && FindFrom(s, p, 0).None?
    ensures !Contains(s, p)
  {
    if Contains(s, p) {
      var i := ContainsWitness(s, p);
      assert OccursAt(s, p, i);
    }
  }

  /**
   * The search area is a prefix of the page; it is the whole page exactly
   * when no stop word occurs in it, and otherwise a stop word starts right
   * where it ends.
   */
  lemma {:induction false} CutAtStopSpec(html: string, words: seq<string>)
    requires forall k :: 0 <= k < |words| ==> |words[k]| > 0
    ensures var r := CutAtStop(html, words);
      StartsWith(html, r)
      && (r == html <==> forall k :: 0 <= k < |words| ==> !Contains(Lower(html), words[k]))
      && (r != html ==> exists k :: 0 <= k < |words| && OccursAt(Lower(html), words[k], |r|))
  {
    if words != [] {
      match FindFrom(Lower(html), words[0], 0)
      case Some(i) =>
        ContainsAt(Lower(html), words[0], i);
        assert OccursAt(Lower(html), words[0], |html[..i]|);
      case None =>
        CutAtStopSpec(html, words[1..]);
        NotContainsFromFind(Lower(html), words[0]);
        forall k | 1 <= k < |words|
          ensures words[k] == words[1..][k - 1]
        {
        }
        var r := CutAtStop(html, words);
        if r != html {
          var k :| 0 <= k < |words[1..]| && OccursAt(Lower(html), words[1..][k], |r|);
          assert OccursAt(Lower(html), words[k + 1], |r|);
        }
    }
  }

  /** `re.match(r'^[\d\s€.,/|:()+-]+$', s)`. */
  predicate AliNumeric(s: string)
  {
    |s| > 0 && forall i :: 0 <= i < |s| ==>
      IsDigit(s[i]) || IsSpace(s[i]) || s[i] in {'€', '.', ',', '/', '|', ':', '(', ')', '+', '-'}
  }

  /** A scored candidate: description, score and where it was found. */
  datatype Candidate = Candidate(description: string, score: int, source: string)

  /** The scored candidates of one pattern whose cleaned text passes `ok`. */
  function Scored(groups: seq<string>, score: int, source: string, ok: string -> bool): (r: seq<Candidate>)
  {
    var cleaned := seq(|groups|, k requires 0 <= k < |groups| => Strip(CleanedText(groups[k])));
    var kept := Filter(cleaned, ok);
    seq(|kept|, k requires 0 <= k < |kept| => Candidate(kept[k], score, source))
  }

  predicate AliJsonOk(name: string)
  {
    20 < |name| < 255 && !ContainsAny(Lower(name), AliBlacklist) && !AliNumeric(name)
  }

  predicate AliDomOk(name: string)
  {
    25 < |name| < 250 && !ContainsAny(Lower(name), AliBlacklist) && !AliNumeric(name)
  }

  predicate AliLineOk(line: string)
  {
    30 < |line| < 180 && !AliNumeric(line)
    && !ContainsAny(Lower(line), AliBlacklist + ["ordine", "tracking"])
  }

  /** The JSON and DOM candidates in collection order, else the heuristic lines. */
  function AliCandidates(search: string, m: Matches): (r: seq<Candidate>)
  {
    var found :=
      Scored(m.groups(AliProductName, search), 100, "JSON", AliJsonOk)
      + Scored(m.groups(AliName, search), 70, "JSON", AliJsonOk)
      + Scored(m.groups(AliPlTitle, search), 80, "DOM", AliDomOk)
      + Scored(m.groups(AliClassTitle, search), 60, "DOM", AliDomOk)
      + Scored(m.groups(AliLinkTitle, search), 50, "DOM", AliDomOk)
      + Scored(m.groups(AliImageAlt, search), 40, "DOM", AliDomOk);
    if found != [] then found
    else
      var lines := Filter(Stripped(Split(CleanedText(search), "\n")), AliLineOk);
      seq(|lines|, k requires 0 <= k < |lines| => Candidate(lines[k], 10, "Heuristic"))
  }

  /** Insert `c` before the first candidate whose score is not higher. */
  function Insert(c: Candidate, s: seq<Candidate>): (r: seq<Candidate>)
    ensures |r| == |s| + 1
  {
    if s == [] || s[0].score <= c.score then [c] + s
    else [s[0]] + Insert(c, s[1..])
  }

  /**
   * `candidates.sort(key=lambda x: x['score'], reverse=True)`: a stable sort
   * by descending score.
   */
  function SortByScore(cs: seq<Candidate>): (r: seq<Candidate>)
    ensures |r| == |cs|
  {
    if cs == [] then [] else Insert(cs[0], SortByScore(cs[1..]))
  }

  predicate Descending(s: seq<Candidate>)
  {
    forall i, j :: 0 <= i < j < |s| ==> s[i].score >= s[j].score
  }

  lemma {:induction false} InsertPerm(c: Candidate, s: seq<Candidate>)
    ensures multiset(Insert(c, s)) == multiset(s) + multiset{c}
  {
    if s != [] && s[0].score > c.score {
      InsertPerm(c, s[1..]);
      assert s == [s[0]] + s[1..];
    }
  }

  lemma {:induction false} InsertDescending(c: Candidate, s: seq<Candidate>)
    requires Descending(s)
    ensures Descending(Insert(c, s))
  {
    if s != [] && s[0].score > c.score {
      InsertDescending(c, s[1..]);
      InsertPerm(c, s[1..]);
      var t := Insert(c, s[1..]);
      forall j | 0 <= j < |t|
        ensures s[0].score >= t[j].score
      {
        assert t[j] in multiset(t);
        if t[j] != c {
          assert t[j] in multiset(s[1..]);
          var i :| 0 <= i < |s[1..]| && s[1..][i] == t[j];
          assert s[i + 1] == t[j];
        }
      }
    }
  }

  lemma {:induction false} SortPerm(cs: seq<Candidate>)
    ensures multiset(SortByScore(cs)) == multiset(cs)
  {
    if cs != [] {
      var rest := SortByScore(cs[1..]);
      SortPerm(cs[1..]);
      InsertPerm(cs[0], rest);
      assert SortByScore(cs) == Insert(cs[0], rest);
      assert cs == [cs[0]] + cs[1..];
      assert multiset(cs) == multiset{cs[0]} + multiset(cs[1..]);
    }
  }

  lemma {:induction false} SortDescending(cs: seq<Candidate>)
    ensures Descending(SortByScore(cs))
  {
    if cs != [] {
      SortDescending(cs[1..]);
      InsertDescending(cs[0], SortByScore(cs[1..]));
    }
  }

  /** The sorted candidates are the same candidates, highest score first. */
  lemma SortByScoreSpec(cs: seq<Candidate>)
    ensures Descending(SortByScore(cs)) && multiset(SortByScore(cs)) == multiset(cs)
  {
    SortPerm(cs);
    SortDescending(cs);
  }

  /** The first sorted candidate has the highest score of all. */
  lemma SortedHeadIsBest(cs: seq<Candidate>)
    requires cs != []
    ensures SortByScore(cs)[0] in cs
    ensures forall d :: d in cs ==> SortByScore(cs)[0].score >= d.score
  {
    var sorted := SortByScore(cs);
    SortByScoreSpec(cs);
    assert sorted[0] in multiset(cs);
    forall d | d in cs
      ensures sorted[0].score >= d.score
    {
      assert d in multiset(sorted);
      var j :| 0 <= j < |sorted| && sorted[j] == d;
    }
  }

  function AliItem(c: Candidate): (r: Item)
  {
    Item(c.description, 1, "AliExpress", Some(c.source))
  }

  /** The sorted candidates as items. */
  function AliRanked(cands: seq<Candidate>): (r: seq<Item>)
    ensures |r| == |cands| && forall k :: 0 <= k < |r| ==> r[k] == AliItem(SortByScore(cands)[k])
  {
    var sorted := SortByScore(cands);
    seq(|sorted|, k requires 0 <= k < |sorted| => AliItem(sorted[k]))
  }

  predicate AnyText(t: string)
  {
    true
  }

  const AliPlaceholder := "Articolo AliExpress (da completare)"

  /** `_extract_items_aliexpress`. */
  function AliItems(html: string, m: Matches): (r: seq<Item>)
  {
    var search := CutAtStop(html, StopWords);
    var unique := Kept(AliRanked(AliCandidates(search, m)), AnyText, 2);
    if unique == [] then [Item(AliPlaceholder, 1, "AliExpress", Some("Fallback"))]
    else
      match m.number(AliQuantity, search)
      case Some(q) => WithQuantity(unique, q)
      case None => unique
  }

  method ExtractItemsAliExpress(html: string, m: Matches) returns (items: seq<Item>)
    ensures items == AliItems(html, m)
  {
    var search := CutAtStop(html, StopWords);
    items := KeepDistinct(AliRanked(AliCandidates(search, m)), AnyText, 2);
    if items != [] {
      var q := m.number(AliQuantity, search);
      if q.Some? {
        items := SetQuantity(items, q.value);
      }
    } else {
      items := [Item(AliPlaceholder, 1, "AliExpress", Some("Fallback"))];
    }
  }

  /** The selection keeps one or two candidates, the first of them a best-scored one. */
  lemma AliSelection(cands: seq<Candidate>)
    requires cands != []
    ensures var u := Kept(AliRanked(cands), AnyText, 2);
      1 <= |u| <= 2 && DistinctDescriptions(u)
      && (forall k :: 0 <= k < |u| ==> u[k].seller == "AliExpress")
      && u[0] == AliItem(SortByScore(cands)[0])
  {
    var ranked := AliRanked(cands);
    KeptSound(ranked, AnyText, 2);
    KeptHead(ranked, AnyText, 2);
    var u := Kept(ranked, AnyText, 2);
    forall k | 0 <= k < |u|
      ensures u[k].seller == "AliExpress"
    {
      assert u[k] in ranked;
    }
  }

  /**
   * AliExpress items: one or two, with pairwise different descriptions, all
   * sold by AliExpress; the first is a candidate of the highest score; the
   * placeholder exactly when there is no candidate.
   */
  lemma AliItemsSpec(html: string, m: Matches)
    ensures var r := AliItems(html, m);
      var cands := AliCandidates(CutAtStop(html, StopWords), m);
      1 <= |r| <= 2
      && DistinctDescriptions(r)
      && (forall k :: 0 <= k < |r| ==> r[k].seller == "AliExpress")
      && (cands == [] ==> r == [Item(AliPlaceholder, 1, "AliExpress", Some("Fallback"))])
      && (cands != [] ==>
            exists c :: c in cands && r[0].description == c.description
                        && forall d :: d in cands ==> c.score >= d.score)
  {
    var search := CutAtStop(html, StopWords);
    var cands := AliCandidates(search, m);
    if cands != [] {
      var u := Kept(AliRanked(cands), AnyText, 2);
      var r := AliItems(html, m);
      AliSelection(cands);
      SortedHeadIsBest(cands);
      QuantityKeepsShape(u, r);
      var c := SortByScore(cands)[0];
      assert r[0].description == c.description;
    }
  }

  /** Setting every quantity changes neither descriptions nor sellers. */
  lemma QuantityKeepsShape(u: seq<Item>, r: seq<Item>)
    requires |r| == |u| && forall k :: 0 <= k < |u| ==> r[k] == u[k].(quantity := r[k].quantity)
    ensures DistinctDescriptions(u) ==> DistinctDescriptions(r)
    ensures forall k :: 0 <= k < |r| ==> r[k].description == u[k].description && r[k].seller == u[k].seller
  {
  }

  // ---------------------------------------------------------------------
  // Other platforms (html_order_parser.py:564-591)
  // ---------------------------------------------------------------------

  predicate GenericTitleOk(t: string)
  {
    |t| > 5
  }

  /** `matches[:5]` of one title pattern, trimmed. */
  function FirstFive(m: Matches, p: Pattern, html: string): (r: seq<string>)
    ensures |r| <= 5 && |r| <= |m.groups(p, html)|
    ensures forall k :: 0 <= k < |r| ==> r[k] == Strip(m.groups(p, html)[k])
  {
    var gs := m.groups(p, html);
    Stripped(if |gs| > 5 then gs[..5] else gs)
  }

  /** The titles of the first pattern with one longer than five characters. */
  function GenericTitles(html: string, m: Matches): (r: seq<string>)
  {
    var first := Filter(FirstFive(m, GenericClassTitle, html), GenericTitleOk);
    if first != [] then first else Filter(FirstFive(m, GenericHeading, html), GenericTitleOk)
  }

  const GenericPlaceholder := "Articolo (da completare)"

  /** `_extract_items_generic`. */
  function GenericItems(text: string, html: string, m: Matches): (r: seq<Item>)
  {
    var titles := GenericTitles(html, m);
    var seller := SellerIn(m, GenericSeller, text);
    if titles == [] then [Item(GenericPlaceholder, 1, seller, None)]
    else AsItems(titles, seller)
  }

  method ExtractItemsGeneric(text: string, html: string, m: Matches) returns (items: seq<Item>)
    ensures items == GenericItems(text, html, m)
  {
    var titles := Collect(FirstFive(m, GenericClassTitle, html), GenericTitleOk);
    if titles == [] {
      titles := Collect(FirstFive(m, GenericHeading, html), GenericTitleOk);
    }
    items := AsItems(titles, "");
    var seller := SellerIn(m, GenericSeller, text);
    items := FillSeller(items, seller, true);
    if items == [] {
      items := [Item(GenericPlaceholder, 1, seller, None)];
    }
  }

  /** Each title is a trimmed match among the first five of its pattern, longer than five characters. */
  lemma GenericTitlesSpec(html: string, m: Matches)
    ensures var t := GenericTitles(html, m);
      |t| <= 5 && forall k :: 0 <= k < |t| ==> |t[k]| > 5 && Strip(t[k]) == t[k]
  {
    var f1 := FirstFive(m, GenericClassTitle, html);
    var f2 := FirstFive(m, GenericHeading, html);
    FilterSpec(f1, GenericTitleOk);
    FilterSpec(f2, GenericTitleOk);
    forall k | 0 <= k < |f1|
      ensures Strip(f1[k]) == f1[k]
    {
      StripIdempotent(m.groups(GenericClassTitle, html)[k]);
    }
    forall k | 0 <= k < |f2|
      ensures Strip(f2[k]) == f2[k]
    {
      StripIdempotent(m.groups(GenericHeading, html)[k]);
    }
  }

  /**
   * Other platforms: never an empty list, at most five items, each with
   * quantity 1 and the seller found in the text, placeholder included; the
   * placeholder exactly when no title qualifies.
   */
  lemma GenericItemsSpec(text: string, html: string, m: Matches)
    ensures var r := GenericItems(text, html, m);
      var t := GenericTitles(html, m);
      1 <= |r| <= 5
      && (forall k :: 0 <= k < |r| ==> r[k].quantity == 1 && r[k].seller == SellerIn(m, GenericSeller, text))
      && (t == [] ==> r[0].description == GenericPlaceholder)
      && (t != [] ==> forall k :: 0 <= k < |r| ==> r[k].description == t[k])
  {
    GenericTitlesSpec(html, m);
  }
}

// html_order_parser.py:143-173: `_extract_order_ids`, the shop order numbers
// of a saved order page. The fixed-shape patterns are scanned explicitly with
// `re.findall` semantics (leftmost match, scanning resumes after it, `\b`
// as in `re`); the free-form fallback pattern is an input.

module HtmlOrderIds {
  import opened Text

  // ---------------------------------------------------------------------
  // Fixed-shape patterns
  // ---------------------------------------------------------------------

  /** The five fixed-shape order-number patterns. */
  datatype IdPattern =
    | AmazonOrder   // \b(\d{3}-\d{7}-\d{7})\b
    | TemuDashed    // \b(PO-\d{3}-\d{10,20})\b
    | TemuPlain     // \b(PO\d{10,20})\b
    | EbayOrder     // \b(\d{2}-\d{5}-\d{5})\b
    | AliDigits     // (\d{15,20})

  /** `\b` before index `i`, where `s[i]` is a word character. */
  predicate BoundaryBefore(s: string, i: nat)
    requires i <= |s|
  {
    i == 0 || !IsWordChar(s[i - 1])
  }

  /** `\b` at index `e`, where `s[e - 1]` is a word character. */
  predicate BoundaryAfter(s: string, e: nat)
    requires e <= |s|
  {
    e == |s| || !IsWordChar(s[e])
  }

  /**
   * The length of the match of `pat` that starts at index `i`, if there is
   * one. For the Temu patterns `\d{10,20}` is greedy; when the run of digits
   * is longer than 20 or a word character follows, no shorter choice leaves a
   * word boundary, so there is no match. `\d{15,20}` takes at most 20 digits.
   */
  function IdMatchAt(s: string, i: nat, pat: IdPattern): (r: Option<nat>)
    requires i <= |s|
    ensures r.Some? ==> r.value > 0 && i + r.value <= |s|
  {
    match pat
    case AmazonOrder =>
      if BoundaryBefore(s, i) && DigitsAt(s, i, 3) && i + 3 < |s| && s[i + 3] == '-'
         && DigitsAt(s, i + 4, 7) && i + 11 < |s| && s[i + 11] == '-' && DigitsAt(s, i + 12, 7)
         && BoundaryAfter(s, i + 19)
      then Some(19) else None
    case EbayOrder =>
      if BoundaryBefore(s, i) && DigitsAt(s, i, 2) && i + 2 < |s| && s[i + 2] == '-'
         && DigitsAt(s, i + 3, 5) && i + 8 < |s| && s[i + 8] == '-' && DigitsAt(s, i + 9, 5)
         && BoundaryAfter(s, i + 14)
      then Some(14) else None
    case TemuDashed =>
      if BoundaryBefore(s, i) && i + 7 <= |s| && s[i..i + 3] == "PO-" && DigitsAt(s, i + 3, 3)
         && s[i + 6] == '-'
      then
        var run := DigitRun(s, i + 7);
        if 10 <= run <= 20 && BoundaryAfter(s, i + 7 + run) then Some(7 + run) else None
      else None
    case TemuPlain =>
      if BoundaryBefore(s, i) && i + 2 <= |s| && s[i..i + 2] == "PO" then
        var run := DigitRun(s, i + 2);
        if 10 <= run <= 20 && BoundaryAfter(s, i + 2 + run) then Some(2 + run) else None
      else None
    case AliDigits =>
      var run := DigitRun(s, i);
      if run >= 15 then Some(if run > 20 then 20 else run) else None
  }

  /** What every number found by `pat` looks like, whatever surrounds it. */
  predicate Shaped(pat: IdPattern, id: string)
  {
    match pat
    case AmazonOrder =>
      |id| == 19 && DigitsAt(id, 0, 3) && id[3] == '-' && DigitsAt(id, 4, 7) && id[11] == '-'
      && DigitsAt(id, 12, 7)
    case EbayOrder =>
      |id| == 14 && DigitsAt(id, 0, 2) && id[2] == '-' && DigitsAt(id, 3, 5) && id[8] == '-'
      && DigitsAt(id, 9, 5)
    case TemuDashed =>
      17 <= |id| <= 27 && id[..3] == "PO-" && DigitsAt(id, 3, 3) && id[6] == '-'
      && DigitsAt(id, 7, |id| - 7)
    case TemuPlain =>
      12 <= |id| <= 22 && id[..2] == "PO" && DigitsAt(id, 2, |id| - 2)
    case AliDigits =>
      15 <= |id| <= 20 && DigitsAt(id, 0, |id|)
  }

  /** A match cut out of the text has the pattern's shape. */
  lemma MatchShaped(s: string, i: nat, pat: IdPattern)
    requires i <= |s| && IdMatchAt(s, i, pat).Some?
    ensures Shaped(pat, s[i..i + IdMatchAt(s, i, pat).value])
  {
    var id := s[i..i + IdMatchAt(s, i, pat).value];
    assert forall k :: 0 <= k < |id| ==> id[k] == s[i + k];
    match pat
    case TemuDashed =>
      assert id[..3] == s[i..i + 3];
    case TemuPlain =>
      assert id[..2] == s[i..i + 2];
    case _ =>
  }

  /** `re.findall(pattern, s[i:])` for a fixed-shape pattern. */
  function FindAll(s: string, pat: IdPattern, i: nat): (r: seq<string>)
    requires i <= |s|
    ensures forall k :: 0 <= k < |r| ==> Shaped(pat, r[k])
    decreases |s| - i
  {
    if i == |s| then []
    else
      match IdMatchAt(s, i, pat)
      case Some(n) =>
        MatchShaped(s, i, pat);
        [s[i..i + n]] + FindAll(s, pat, i + n)
      case None => FindAll(s, pat, i + 1)
  }

  /** An Amazon number standing alone in the text is found. */
  lemma AmazonNumberListed(pre: string, num: string, post: string)
    requires Shaped(AmazonOrder, num)
    requires pre == [] || !IsWordChar(pre[|pre| - 1])
    requires post == [] || !IsWordChar(post[0])
    ensures num in FindAll(pre + num + post, AmazonOrder, |pre|)
  {
    var s := pre + num + post;
    var i := |pre|;
    AmazonShapeInside(s, i, num);
    assert BoundaryBefore(s, i) by {
      if i > 0 {
        assert s[i - 1] == pre[|pre| - 1];
      }
    }
    assert BoundaryAfter(s, i + 19) by {
      if i + 19 < |s| {
        assert s[i + 19] == post[0];
      }
    }
    assert IdMatchAt(s, i, AmazonOrder) == Some(19);
    assert s[i..i + 19] == num;
  }

  lemma AmazonShapeInside(s: string, i: nat, num: string)
    requires Shaped(AmazonOrder, num) && i + 19 <= |s| && s[i..i + 19] == num
    ensures DigitsAt(s, i, 3) && s[i + 3] == '-' && DigitsAt(s, i + 4, 7) && s[i + 11] == '-'
      && DigitsAt(s, i + 12, 7)
  {
    assert forall k :: 0 <= k < 19 ==> s[i + k] == num[k];
  }

  /** A run of digits directly after a letter is not an Amazon number: `\b` fails. */
  lemma GluedAmazonNumberSkipped(s: string, i: nat)
    requires 0 < i <= |s| && IsAsciiLetter(s[i - 1])
    ensures IdMatchAt(s, i, AmazonOrder).None?
  {
  }

  // ---------------------------------------------------------------------
  // `tradeOrderId[:\s'"]*(\d{15,20})`, ignoring case
  // ---------------------------------------------------------------------

  predicate TradeSep(c: char)
  {
    c == ':' || IsSpace(c) || c == '\'' || c == '"'
  }

  /** The index after the run of separators that starts at `j`. */
  function SkipTradeSeps(s: string, j: nat): (k: nat)
    requires j <= |s|
    ensures j <= k <= |s| && (k == |s| || !TradeSep(s[k]))
    ensures forall m :: j <= m < k ==> TradeSep(s[m])
    decreases |s| - j
  {
    if j < |s| && TradeSep(s[j]) then SkipTradeSeps(s, j + 1) else j
  }

  /** The key `tradeorderid` at `i`, ignoring case. */
  predicate TradeKeyAt(s: string, i: nat)
  {
    i + 12 <= |s| && Lower(s[i..i + 12]) == "tradeorderid"
  }

  /** Where the digits of a `tradeOrderId` match at `i` start and how many there are. */
  function TradeMatchAt(s: string, i: nat): (r: Option<(nat, nat)>)
    requires i <= |s|
    ensures r.Some? ==> i + 12 <= r.value.0 && 15 <= r.value.1 <= 20 && r.value.0 + r.value.1 <= |s|
    ensures r.Some? ==> DigitsAt(s, r.value.0, r.value.1)
  {
    if TradeKeyAt(s, i) then
      var j := SkipTradeSeps(s, i + 12);
      var run := DigitRun(s, j);
      if run >= 15 then Some((j, if run > 20 then 20 else run)) else None
    else None
  }

  /** `re.findall` of the `tradeOrderId` pattern: the digit groups. */
  function TradeIds(s: string, i: nat): (r: seq<string>)
    requires i <= |s|
    ensures forall k :: 0 <= k < |r| ==> Shaped(AliDigits, r[k])
    decreases |s| - i
  {
    if i == |s| then []
    else
      match TradeMatchAt(s, i)
      case Some((j, n)) =>
        var id := s[j..j + n];
        assert forall k :: 0 <= k < |id| ==> id[k] == s[j + k];
        [s[j..j + n]] + TradeIds(s, j + n)
      case None => TradeIds(s, i + 1)
  }

  // ---------------------------------------------------------------------
  // Generic fallback and de-duplication
  // ---------------------------------------------------------------------

  /** Interface words the generic fallback must not take for order numbers. */
  const Blacklist: set<string> :=
    {"aiuto", "help", "account", "login", "accedi", "resi", "rimborsi", "dettagli"}

  /**
   * `[g.strip() for g in generic if g.strip() and g.strip().lower() not in
   * blacklist]`, where `generic` holds the groups of the free-form pattern.
   */
  function GenericIds(groups: seq<string>): (r: seq<string>)
    ensures |r| <= |groups|
  {
    if groups == [] then []
    else
      var g := Strip(groups[|groups| - 1]);
      GenericIds(groups[..|groups| - 1]) + (if g != [] && Lower(g) !in Blacklist then [g] else [])
  }

  /** The fallback keeps exactly the non-blank trimmed groups that are not interface words. */
  lemma {:induction false} GenericIdsSpec(groups: seq<string>)
    ensures forall k :: 0 <= k < |GenericIds(groups)| ==>
      var x := GenericIds(groups)[k]; x != [] && Lower(x) !in Blacklist && Strip(x) == x
    ensures forall m :: 0 <= m < |groups| && Strip(groups[m]) != [] && Lower(Strip(groups[m])) !in Blacklist ==>
      Strip(groups[m]) in GenericIds(groups)
  {
    if groups != [] {
      var init := groups[..|groups| - 1];
      GenericIdsSpec(init);
      StripIdempotent(groups[|groups| - 1]);
      assert forall m :: 0 <= m < |init| ==> groups[m] == init[m];
    }
  }

  predicate Distinct<T(==)>(xs: seq<T>)
  {
    forall i, j :: 0 <= i < j < |xs| ==> xs[i] != xs[j]
  }

  /** `list(dict.fromkeys(xs))`: the first occurrence of each element, in order. */
  function Dedup<T(==)>(xs: seq<T>): (r: seq<T>)
    ensures |r| <= |xs|
  {
    if xs == [] then []
    else
      var prev := Dedup(xs[..|xs| - 1]);
      if xs[|xs| - 1] in prev then prev else prev + [xs[|xs| - 1]]
  }

  /** The index of the first occurrence of `x` in `xs`. */
  function FirstIndex<T(==)>(xs: seq<T>, x: T): (n: nat)
    requires x in xs
    ensures n < |xs| && xs[n] == x && forall m :: 0 <= m < n ==> xs[m] != x
  {
    if xs[0] == x then 0 else 1 + FirstIndex(xs[1..], x)
  }

  lemma FirstIndexSnoc<T>(xs: seq<T>, y: T, x: T)
    requires x in xs
    ensures FirstIndex(xs + [y], x) == FirstIndex(xs, x)
  {
    var n := FirstIndex(xs, x);
    var m := FirstIndex(xs + [y], x);
    assert (xs + [y])[n] == x;
    assert xs[m] == x;
  }

  /** De-duplication neither loses nor invents an element. */
  lemma {:induction false} DedupMember<T>(xs: seq<T>, y: T)
    ensures y in Dedup(xs) <==> y in xs
  {
    if xs != [] {
      var init := xs[..|xs| - 1];
      DedupMember(init, y);
      assert xs == init + [xs[|xs| - 1]];
    }
  }

  /**
   * De-duplication keeps every element once, drops nothing else, and keeps
   * the elements in the order of their first occurrence.
   */
  lemma {:induction false} DedupSpec<T>(xs: seq<T>)
    ensures Distinct(Dedup(xs))
    ensures forall x :: x in Dedup(xs) <==> x in xs
    ensures forall i, j :: 0 <= i < j < |Dedup(xs)| ==>
      FirstIndex(xs, Dedup(xs)[i]) < FirstIndex(xs, Dedup(xs)[j])
  {
    if xs != [] {
      var init := xs[..|xs| - 1];
      var x := xs[|xs| - 1];
      DedupSpec(init);
      var prev := Dedup(init);
      assert xs == init + [x];
      forall y | y in prev
        ensures FirstIndex(xs, y) == FirstIndex(init, y)
      {
        DedupMember(init, y);
        FirstIndexSnoc(init, x, y);
      }
      forall y ensures y in Dedup(xs) <==> y in xs {
        DedupMember(xs, y);
      }
      if x !in prev {
        DedupMember(init, x);
        assert xs[FirstIndex(xs, x)] == x;
      }
    }
  }

  // ---------------------------------------------------------------------
  // `_extract_order_ids`
  // ---------------------------------------------------------------------

  /** The platform's own patterns, before the fallback. */
  function PlatformIds(text: string, platform: string, html: string): (r: seq<string>)
  {
    if platform == "Amazon" then FindAll(text, AmazonOrder, 0)
    else if platform == "Temu" then
      var dashed := FindAll(text, TemuDashed, 0);
      if dashed != [] then dashed else FindAll(text, TemuPlain, 0)
    else if platform == "eBay" then FindAll(text, EbayOrder, 0)
    else if platform == "AliExpress" then
      var digits := FindAll(text, AliDigits, 0);
      if digits == [] && html != [] then TradeIds(html, 0) else digits
    else []
  }

  /**
   * `_extract_order_ids(text, platform, html)`; `generic` holds the groups of
   * the free-form fallback pattern in `text`.
   */
  function ExtractOrderIds(text: string, platform: string, html: string, generic: seq<string>): (r: seq<string>)
  {
    Dedup(Candidates(text, platform, html, generic))
  }

  /** The platform's matches, or the fallback's when there are none. */
  function Candidates(text: string, platform: string, html: string, generic: seq<string>): (r: seq<string>)
  {
    var ids := PlatformIds(text, platform, html);
    if ids != [] then ids else GenericIds(generic)
  }

  /**
   * The result has no duplicates, loses no candidate and keeps the order in
   * which the candidates are first seen.
   */
  lemma ExtractOrderIdsSpec(text: string, platform: string, html: string, generic: seq<string>)
    ensures var r := ExtractOrderIds(text, platform, html, generic);
      var all := Candidates(text, platform, html, generic);
      Distinct(r)
      && (forall x :: x in r <==> x in all)
      && (forall i, j :: 0 <= i < j < |r| ==>
            r[i] in all && r[j] in all && FirstIndex(all, r[i]) < FirstIndex(all, r[j]))
  {
    var all := Candidates(text, platform, html, generic);
    var r := ExtractOrderIds(text, platform, html, generic);
    DedupSpec(all);
    assert Distinct(r);
    assert forall x :: x in r <==> x in all;
  }

  /**
   * When the platform's patterns find nothing, the result holds only trimmed,
   * non-blank groups of the fallback that are not interface words.
   */
  lemma FallbackIdsClean(text: string, platform: string, html: string, generic: seq<string>)
    requires PlatformIds(text, platform, html) == []
    ensures var r := ExtractOrderIds(text, platform, html, generic);
      forall k :: 0 <= k < |r| ==> r[k] != [] && Lower(r[k]) !in Blacklist && Strip(r[k]) == r[k]
  {
    var all := GenericIds(generic);
    var r := ExtractOrderIds(text, platform, html, generic);
    assert r == Dedup(all);
    GenericIdsSpec(generic);
    forall k | 0 <= k < |r|
      ensures r[k] != [] && Lower(r[k]) !in Blacklist && Strip(r[k]) == r[k]
    {
      DedupMember(all, r[k]);
      var m :| 0 <= m < |all| && all[m] == r[k];
    }
  }

  /** The Amazon numbers found have the Amazon shape, unless none was found. */
  lemma AmazonIdsShaped(text: string, html: string, generic: seq<string>)
    requires PlatformIds(text, "Amazon", html) != []
    ensures forall k :: 0 <= k < |ExtractOrderIds(text, "Amazon", html, generic)| ==>
      Shaped(AmazonOrder, ExtractOrderIds(text, "Amazon", html, generic)[k])
  {
    var all := PlatformIds(text, "Amazon", html);
    DedupSpec(all);
    forall k | 0 <= k < |ExtractOrderIds(text, "Amazon", html, generic)|
      ensures Shaped(AmazonOrder, ExtractOrderIds(text, "Amazon", html, generic)[k])
    {
      var x := ExtractOrderIds(text, "Amazon", html, generic)[k];
      assert x in all;
    }
  }
}
